/** The parser of src/proto.c with its own storage: one static record, an argument array and a
    payload array filled in place.  Its two intakes are proved to be the byte-at-a-time function
    of Framing, and the receive loop that mixes them to be that function over the whole batch. */
module Parser {
  import opened Bytes
  import opened Device
  import opened Commands
  import F = Framing

  class Parser {
    var op: byte
    var need: nat
    var got: nat
    const arg: array<byte>
    var payNeed: nat
    var payGot: nat
    var payOver: bool
    const pay: array<byte>
    var bytes: nat
    var lastPay: nat
    var st: Dev

    ghost function View(): F.Chan
      reads this, arg, pay
      requires arg.Length == ARG_MAX && pay.Length == PAYLOAD_MAX
    {
      F.Chan(op, need, got, arg[..], payNeed, payGot, payOver, pay[..], bytes, lastPay)
    }

    ghost predicate Valid()
      reads this, arg, pay
      ensures Valid() ==> arg.Length == ARG_MAX && pay.Length == PAYLOAD_MAX && F.Declared(View(), st)
    {
      arg.Length == ARG_MAX && pay.Length == PAYLOAD_MAX && arg != pay && F.Declared(View(), st)
    }

    // fw_proto_init()
    constructor ()
      ensures Valid() && fresh(arg) && fresh(pay) && View() == F.Quiet && st == Start
    {
      op, need, got, payNeed, payGot, payOver, bytes, lastPay := 0, 0, 0, 0, 0, false, 0, 0;
      arg := new byte[ARG_MAX](_ => 0);
      pay := new byte[PAYLOAD_MAX](_ => 0);
      st := Start;
      new;
      assert View() == F.Quiet;
    }

    // fw_proto_idle()
    predicate Idle()
      reads this
    {
      op == 0 && payNeed == 0
    }

    // parser_reset(); also fw_proto_link_reset(), and fw_proto_tick() after FW_PARSER_TIMEOUT_MS
    // without a byte.
    method Reset()
      requires arg.Length == ARG_MAX && pay.Length == PAYLOAD_MAX
      modifies `op, `need, `got, `payNeed, `payGot, `payOver
      ensures View() == F.Reset(old(View())) && F.Valid(View()) && Idle()
      ensures arg != pay ==> Valid()
    {
      op, need, got := 0, 0, 0;
      payNeed, payGot, payOver := 0, 0, false;
    }

    // The arguments are all there.
    method Dispatch() returns (out: seq<byte>)
      requires arg.Length == ARG_MAX && pay.Length == PAYLOAD_MAX && arg != pay
      requires payNeed == 0 && payGot == 0 && !payOver && need == got == ArgLen(op)
      modifies `op, `need, `got, `payNeed, `payGot, `payOver, `st
      ensures F.Rx(View(), st, out) == F.Dispatch(old(View()), old(st))
    {
      hide Execute, Opened, ArgLen;
      ghost var c, d := View(), st;
      var n := PayloadLen(st, op, arg[..]);
      if n != 0 {
        payNeed := n;
        payOver := n > PAYLOAD_MAX;
        st := Opened(st, op);
        out := [];
      } else {
        var r := Execute(st, op, arg[..], pay[..], lastPay);
        st, out := r.dev, r.reply;
        Reset();
      }
    }

    // The payload is all there.
    method Finish() returns (out: seq<byte>)
      requires arg.Length == ARG_MAX && pay.Length == PAYLOAD_MAX && arg != pay
      requires !payOver ==> payGot == PayloadLen(st, op, arg[..]) <= PAYLOAD_MAX
      modifies `op, `need, `got, `payNeed, `payGot, `payOver, `lastPay, `st
      ensures F.Rx(View(), st, out) == F.Finish(old(View()), old(st))
    {
      hide PayloadDone, PayloadLen;
      if payOver {
        out := [ACK_ERROR];
      } else {
        lastPay := payGot;
        var r := PayloadDone(st, op, arg[..], pay[..], payGot);
        st, out := r.dev, r.reply;
      }
      Reset();
    }

    // fw_proto_feed()
    method Feed(b: byte) returns (out: seq<byte>)
      requires Valid()
      modifies this, arg, pay
      ensures Valid() && F.Rx(View(), st, out) == F.Feed(old(View()), old(st), b)
    {
      hide F.Dispatch, F.Finish, PayloadLen, ArgLen;
      ghost var c, d := View(), st;
      bytes := (bytes + 1) % 0x1_0000_0000;
      if payNeed != 0 {
        if payGot < PAYLOAD_MAX {
          pay[payGot] := b;
        }
        payGot := payGot + 1;
        if payGot >= payNeed {
          out := Finish();
        } else {
          out := [];
        }
      } else if op == 0 {
        op, need, got := b, ArgLen(b), 0;
        if need == 0 {
          out := Dispatch();
        } else {
          out := [];
        }
      } else {
        arg[got] := b;
        got := got + 1;
        if got >= need {
          out := Dispatch();
        } else {
          out := [];
        }
      }
      assert F.Rx(View(), st, out) == F.Feed(c, d, b);
    }

    // fw_proto_feed_bulk(): takes payload bytes only.
    method FeedBulk(buf: seq<byte>) returns (out: seq<byte>, consumed: nat)
      requires Valid()
      modifies this, pay
      ensures Valid() && consumed == Min(|buf|, old(payNeed - payGot))
      ensures if consumed == 0 then out == [] && View() == old(View()) && st == old(st)
              else F.Rx(View(), st, out) == F.Bulk(old(View()), old(st), buf[..consumed])
    {
      hide F.Finish, PayloadLen;
      ghost var c, d := View(), st;
      if payNeed == 0 || buf == [] {
        return [], 0;
      }
      consumed := payNeed - payGot;
      if consumed > |buf| {
        consumed := |buf|;
      }
      CopyIn(buf[..consumed]);
      payGot := payGot + consumed;
      bytes := (bytes + consumed) % 0x1_0000_0000;
      if payGot >= payNeed {
        out := Finish();
      } else {
        out := [];
      }
      assert F.Rx(View(), st, out) == F.Bulk(c, d, buf[..consumed]);
    }

    // The excess beyond pay[] is consumed and dropped.
    method CopyIn(s: seq<byte>)
      requires pay.Length == PAYLOAD_MAX
      modifies pay
      ensures pay[..] == F.Splice(old(pay[..]), payGot, s)
    {
      if payGot < PAYLOAD_MAX {
        var fits := PAYLOAD_MAX - payGot;
        if fits > |s| {
          fits := |s|;
        }
        ghost var was := pay[..];
        for k := 0 to fits
          invariant pay[..] == was[..payGot] + s[..k] + was[payGot + k..]
        {
          pay[payGot + k] := s[k];
          assert s[..k + 1] == s[..k] + [s[k]];
        }
      }
    }

    // The receive loop over one batch where nothing is routed to LK (MainLoop has both): a run of an
    // open payload at a time where `bulk' says so, one byte at a time elsewhere.  Requests are
    // drained between commands.
    method Receive(batch: seq<byte>, bulk: nat -> nat, drain: F.Drain) returns (out: seq<byte>)
      requires Valid()
      modifies this, arg, pay
      ensures Valid() && F.Rx(View(), st, out) == F.FeedAll(old(View()), old(st), batch, drain)
    {
      hide F.FeedAll;
      ghost var c, d := View(), st;
      out := [];
      var i := 0;
      assert batch[..0] == [];
      F.FeedNone(c, d, drain);
      while i < |batch|
        invariant Valid() && i <= |batch|
        invariant F.Rx(View(), st, out) == F.FeedAll(c, d, batch[..i], drain)
      {
        var took := TakeSome(batch[i..], bulk(i), drain, out);
        Sliced(batch, i, took.1);
        F.FeedSplit(c, d, batch[..i], batch[i..][..took.1], drain);
        out := took.0;
        i := i + took.1;
      }
      assert batch[..i] == batch;
    }

    static lemma Sliced(s: seq<byte>, i: nat, n: nat)
      requires i + n <= |s|
      ensures s[..i] + s[i..][..n] == s[..i + n]
    {
    }

    // One turn of that loop.
    method TakeSome(rest: seq<byte>, most: nat, drain: F.Drain, sofar: seq<byte>)
      returns (took: (seq<byte>, nat))
      requires Valid() && rest != []
      modifies this, arg, pay
      ensures Valid() && 0 < took.1 <= |rest|
      ensures var t := F.FeedAll(old(View()), old(st), rest[..took.1], drain);
              t.chan == View() && t.dev == st && took.0 == sofar + t.reply
      ensures took.1 == 1 || took.1 <= old(payNeed - payGot)
    {
      hide F.Feed, F.Bulk;
      ghost var c, d := View(), st;
      var reply, n := FeedBulk(rest[..Min(most, |rest|)]);
      if n != 0 {
        assert rest[..Min(most, |rest|)][..n] == rest[..n];
        F.BulkIsBytes(c, d, rest[..n], drain);
      } else {
        reply := Feed(rest[0]);
        n := 1;
        assert rest[..1] == [rest[0]];
        F.FeedOne(c, d, rest[0], drain);
      }
      ghost var v := View();
      if Idle() {
        st := drain(st);
      }
      assert View() == v;
      took := (sofar + reply, n);
    }
  }
}
