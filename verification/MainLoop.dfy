/** The receive loop of src/main.c with both dispatchers: while the parser is idle, a routed opcode
    goes to the LK seam, which takes its frame out of the batch and then out of the endpoint; all
    else goes to the parser.  Framing holds across both, because the two agree on every frame. */
module MainLoop {
  import opened Bytes
  import opened Device
  import C = Commands
  import F = Framing
  import P = Parser
  import L = LkSeam
  import E = Effects

  // What LK leaves in the session record, given the frame it was sent.
  type Lk = (Dev, seq<byte>) -> Dev

  // The parser is between commands and the opcode is LK's.
  predicate Routed(c: F.Chan, d: Dev, s: seq<byte>)
    requires s != []
  {
    F.Idle(c) && L.Routes(d.mode, s[0])
  }

  function Size(d: Dev): nat { d.v16[TRANSFER_SIZE] }

  function Frame(d: Dev, s: seq<byte>): nat
    requires s != []
  {
    1 + L.Declared(Size(d), s[0], s[1..])
  }

  // All of the frame is there, and it is one the seam is followed through for.
  predicate Whole(d: Dev, s: seq<byte>)
    requires s != []
    ensures Whole(d, s) ==> Frame(d, s) <= |s|
  {
    L.Followed(Size(d), s[0], s[1..]) && Frame(d, s) <= |s|
  }

  // A byte stream through both dispatchers, up to a routed command that is not whole.
  function Serve(c: F.Chan, d: Dev, s: seq<byte>, drain: F.Drain, lk: Lk): (r: F.Rx)
    requires F.Declared(c, d)
    ensures F.Declared(r.chan, r.dev)
    decreases |s|
  {
    if s == [] then F.Rx(c, d, [])
    else if Routed(c, d, s) then
      if !Whole(d, s) then F.Rx(c, d, [])
      else
        var n := Frame(d, s);
        After([L.Verdict(Size(d), s[0], s[1..])], Serve(c, lk(d, s[..n]), s[n..], drain, lk))
    else
      var r := F.Turn(c, d, s[0], drain);
      After(r.reply, Serve(r.chan, r.dev, s[1..], drain, lk))
  }

  function After(reply: seq<byte>, t: F.Rx): (r: F.Rx)
    ensures r.chan == t.chan && r.dev == t.dev
  {
    t.(reply := reply + t.reply)
  }

  lemma AfterTwice(a: seq<byte>, b: seq<byte>, t: F.Rx)
    ensures After(a, After(b, t)) == After(a + b, t) && After([], t) == t
  {
    assert a + (b + t.reply) == (a + b) + t.reply && [] + t.reply == t.reply;
  }

  // ------------------------------------------------------------------ the parser's stretches

  lemma ServeOne(c: F.Chan, d: Dev, s: seq<byte>, drain: F.Drain, lk: Lk) returns (r: F.Rx)
    requires F.Declared(c, d) && s != [] && !Routed(c, d, s)
    ensures r == F.Turn(c, d, s[0], drain)
    ensures Serve(c, d, s, drain, lk) == After(r.reply, Serve(r.chan, r.dev, s[1..], drain, lk))
  {
    hide F.Turn, After;
    r := F.Turn(c, d, s[0], drain);
  }

  // The parser is busy between the bytes of s.
  ghost predicate Busy(c: F.Chan, d: Dev, s: seq<byte>, drain: F.Drain)
    requires F.Declared(c, d)
  {
    forall k :: 0 < k < |s| ==> !F.Idle(F.FeedAll(c, d, s[..k], drain).chan)
  }

  lemma BusyOn(c: F.Chan, d: Dev, s: seq<byte>, drain: F.Drain)
    requires F.Declared(c, d) && |s| > 1 && Busy(c, d, s, drain)
    ensures var r := F.Turn(c, d, s[0], drain);
            !F.Idle(r.chan) && Busy(r.chan, r.dev, s[1..], drain)
  {
    hide F.Turn, F.FeedAll, F.Idle;
    var r := F.Turn(c, d, s[0], drain);
    assert s[..1] == [s[0]];
    F.FeedOne(c, d, s[0], drain);
    forall k | 0 < k < |s[1..]| ensures !F.Idle(F.FeedAll(r.chan, r.dev, s[1..][..k], drain).chan) {
      assert s[..k + 1][1..] == s[1..][..k];
      var x := F.FeedCons(c, d, s[..k + 1], drain);
    }
    TurnIsFeedAll(c, d, s[0], drain);
  }

  lemma TurnIsFeedAll(c: F.Chan, d: Dev, b: byte, drain: F.Drain)
    requires F.Declared(c, d)
    ensures F.FeedAll(c, d, [b], drain) == F.Turn(c, d, b, drain)
  {
    hide F.Turn, F.FeedAll;
    var r := F.FeedCons(c, d, [b], drain);
    assert [b][1..] == [];
    F.FeedNone(r.chan, r.dev, drain);
    assert r.reply + [] == r.reply;
  }

  lemma {:induction false} ServeFeeds(c: F.Chan, d: Dev, s: seq<byte>, rest: seq<byte>, drain: F.Drain, lk: Lk)
    requires F.Declared(c, d) && s != [] && !Routed(c, d, s) && Busy(c, d, s, drain)
    ensures var r := F.FeedAll(c, d, s, drain);
            Serve(c, d, s + rest, drain, lk) == After(r.reply, Serve(r.chan, r.dev, rest, drain, lk))
    decreases |s|
  {
    hide F.Turn, F.FeedAll, Serve, Busy, After, F.Idle;
    var r := ServeOne(c, d, s + rest, drain, lk);
    assert (s + rest)[1..] == s[1..] + rest;
    var x := F.FeedCons(c, d, s, drain);
    if |s| == 1 {
      assert s == [s[0]] && s[1..] + rest == rest;
      TurnIsFeedAll(c, d, s[0], drain);
    } else {
      BusyOn(c, d, s, drain);
      ServeFeeds(r.chan, r.dev, s[1..], rest, drain, lk);
      var t := F.FeedAll(r.chan, r.dev, s[1..], drain);
      AfterTwice(r.reply, t.reply, Serve(t.chan, t.dev, rest, drain, lk));
    }
  }

  // ------------------------------------------------------------------ command lists

  // A command on the wire, for whichever dispatcher has it.
  predicate Clean(c: F.Chan, d: Dev, m: F.Command) {
    F.Legal(c, d, m) && (L.Routes(d.mode, m.op) ==> L.Followed(Size(d), m.op, m.args + m.payload))
  }

  // Carried out: by LK with its status byte, or by the parser with its reply and the drains.
  function Carry(c: F.Chan, d: Dev, m: F.Command, drain: F.Drain, lk: Lk): (r: F.Rx)
    requires F.Declared(c, d) && F.Idle(c) && Clean(c, d, m)
    ensures F.Declared(r.chan, r.dev) && F.Idle(r.chan)
  {
    if L.Routes(d.mode, m.op) then
      F.Rx(c, lk(d, F.Wire(m)), [L.Verdict(Size(d), m.op, m.args + m.payload)])
    else
      var r := F.Perform(c, d, m);
      r.(dev := drain(r.dev))
  }

  predicate AllClean(c: F.Chan, d: Dev, ms: seq<F.Command>, drain: F.Drain, lk: Lk)
    requires F.Declared(c, d) && F.Idle(c)
    decreases ms
  {
    ms == []
    || (Clean(c, d, ms[0]) && var r := Carry(c, d, ms[0], drain, lk); AllClean(r.chan, r.dev, ms[1..], drain, lk))
  }

  function CarryAll(c: F.Chan, d: Dev, ms: seq<F.Command>, drain: F.Drain, lk: Lk): (r: F.Rx)
    requires F.Declared(c, d) && F.Idle(c) && AllClean(c, d, ms, drain, lk)
    ensures F.Declared(r.chan, r.dev) && F.Idle(r.chan)
    decreases ms
  {
    if ms == [] then F.Rx(c, d, [])
    else
      var r := Carry(c, d, ms[0], drain, lk);
      After(r.reply, CarryAll(r.chan, r.dev, ms[1..], drain, lk))
  }

  // The two agree on the frame of a routed command, whatever follows it.
  lemma FrameIsWire(c: F.Chan, d: Dev, m: F.Command, rest: seq<byte>)
    requires Clean(c, d, m) && L.Routes(d.mode, m.op)
    ensures var s := F.Wire(m) + rest;
            s[0] == m.op && Whole(d, s) && Frame(d, s) == |F.Wire(m)|
            && L.Verdict(Size(d), s[0], s[1..]) == L.Verdict(Size(d), m.op, m.args + m.payload)
  {
    var s, body := F.Wire(m) + rest, m.args + m.payload;
    assert s[1..] == body + rest;
    hide F.Over, C.PayloadLen, L.Verdict;
    OpenFrame(c, d, m, body, rest);
    L.FrameAgrees(d, m.op, body, F.Over(c.arg, m.args));
    L.FrameAgrees(d, m.op, body + rest, F.Over(c.arg, m.args));
    SameVerdict(Size(d), m.op, body, rest);
  }

  lemma OpenFrame(c: F.Chan, d: Dev, m: F.Command, body: seq<byte>, rest: seq<byte>)
    requires F.Legal(c, d, m) && body == m.args + m.payload && L.Followed(Size(d), m.op, body)
    ensures L.Modelled(m.op) || L.SavePayload(m.op)
    ensures L.Followed(Size(d), m.op, body + rest)
    ensures m.op == C.CART_WRITE_FLASH_CMD ==>
              |body| >= L.HEADER && F.Over(c.arg, m.args)[1] == body[1] == (body + rest)[1]
  {
  }

  lemma SameVerdict(size: nat, op: byte, body: seq<byte>, rest: seq<byte>)
    requires L.Declared(size, op, body) == L.Declared(size, op, body + rest) <= |body|
    requires op == C.CART_WRITE_FLASH_CMD ==> |body| >= L.HEADER
    ensures L.Verdict(size, op, body + rest) == L.Verdict(size, op, body)
  {
    hide L.Declared;
  }

  // A batch of n writes: in DMG mode LK has it, and answers for up to 16 writes; in any other mode
  // the parser has it, and leaves up to 32 for its own drain.
  lemma BatchAnswered(c: F.Chan, d: Dev, flashcart: byte, addrs: seq<nat>, vals: seq<nat>, drain: F.Drain, lk: Lk)
    requires F.Declared(c, d) && F.Idle(c) && E.PairsFit(addrs, vals) && 0 < |addrs| < 0x100
    ensures var m := F.Command(C.CART_WRITE_FLASH_CMD, [flashcart, |addrs|], E.PutPairs(addrs, vals));
            Clean(c, d, m)
            && var r := Carry(c, d, m, drain, lk);
               if d.mode == Dmg then
                 r.dev == lk(d, F.Wire(m)) && r.reply == [if |addrs| > 16 then ACK_ERROR else ACK_OK]
               else
                 r.dev == drain(F.Perform(c, d, m).dev) && r.reply == [if |addrs| > 32 then ACK_ERROR else ACK_OK]
  {
    var m := F.Command(C.CART_WRITE_FLASH_CMD, [flashcart, |addrs|], E.PutPairs(addrs, vals));
    E.BatchLeaves(c, d, flashcart, addrs, vals);
    L.RoutesAre(d.mode, m.op);
    var body := m.args + m.payload;
    assert body[1] == |addrs|;
    L.RefusedExactly(Size(d), m.op, body);
    BatchWhole(Size(d), body, |addrs|);
    hide F.Legal, F.Perform, L.Admits, L.Declared;
  }

  // And the pairs LK reads are the pairs sent.
  lemma BatchReadAt(flashcart: byte, addrs: seq<nat>, vals: seq<nat>, rest: seq<byte>, x: nat)
    requires E.PairsFit(addrs, vals) && x < |addrs| < 0x100
    ensures var q := [flashcart, |addrs|] + (E.PutPairs(addrs, vals) + rest);
            L.HEADER + 6 * x + 6 <= |q| && L.PairAddr(q, x) == addrs[x] && L.PairVal(q, x) == vals[x]
  {
    E.PairAt([flashcart, |addrs|], addrs, vals, rest, x);
  }

  lemma BatchWhole(size: nat, body: seq<byte>, n: nat)
    requires |body| == 2 + 6 * n && body[1] as nat == n
    ensures L.Declared(size, C.CART_WRITE_FLASH_CMD, body) == |body|
  {
  }

  lemma CarryFramed(c: F.Chan, d: Dev, m: F.Command, rest: seq<byte>, drain: F.Drain, lk: Lk)
    requires F.Declared(c, d) && F.Idle(c) && Clean(c, d, m)
    ensures var r := Carry(c, d, m, drain, lk);
            Serve(c, d, F.Wire(m) + rest, drain, lk) == After(r.reply, Serve(r.chan, r.dev, rest, drain, lk))
  {
    var s := F.Wire(m) + rest;
    if L.Routes(d.mode, m.op) {
      FrameIsWire(c, d, m, rest);
      assert s[..|F.Wire(m)|] == F.Wire(m) && s[|F.Wire(m)|..] == rest;
      hide Whole, Frame, L.Verdict;
    } else {
      F.CommandFramed(c, d, m, drain);
      hide F.Perform, F.FeedAll, Serve, After, Clean;
      CommandBusy(c, d, m, drain);
      ServeFeeds(c, d, F.Wire(m), rest, drain, lk);
    }
  }

  lemma CommandBusy(c: F.Chan, d: Dev, m: F.Command, drain: F.Drain)
    requires F.Declared(c, d) && F.Idle(c) && F.Legal(c, d, m)
    ensures Busy(c, d, F.Wire(m), drain)
  {
    F.CommandFramed(c, d, m, drain);
    hide F.FeedAll, F.Idle, F.Perform;
    forall k | 0 < k < |F.Wire(m)| ensures !F.Idle(F.FeedAll(c, d, F.Wire(m)[..k], drain).chan) {
      assert F.Inside(m, k);
    }
  }

  // Any list of commands for either dispatcher, each framed by the state the earlier ones left, is
  // carried out command by command, with what follows it left alone.
  lemma {:induction false} RoutedStreamFramed(c: F.Chan, d: Dev, ms: seq<F.Command>, rest: seq<byte>,
                                              drain: F.Drain, lk: Lk)
    requires F.Declared(c, d) && F.Idle(c) && AllClean(c, d, ms, drain, lk)
    ensures var r := CarryAll(c, d, ms, drain, lk);
            Serve(c, d, F.WireAll(ms) + rest, drain, lk) == After(r.reply, Serve(r.chan, r.dev, rest, drain, lk))
    decreases ms
  {
    hide Serve, Carry, Clean, F.Wire;
    if ms == [] {
      assert F.WireAll(ms) + rest == rest;
      AfterTwice([], [], Serve(c, d, rest, drain, lk));
    } else {
      var r := Carry(c, d, ms[0], drain, lk);
      var more := F.WireAll(ms[1..]) + rest;
      assert F.WireAll(ms) + rest == F.Wire(ms[0]) + more;
      CarryFramed(c, d, ms[0], more, drain, lk);
      RoutedStreamFramed(r.chan, r.dev, ms[1..], rest, drain, lk);
      var t := CarryAll(r.chan, r.dev, ms[1..], drain, lk);
      AfterTwice(r.reply, t.reply, Serve(t.chan, t.dev, rest, drain, lk));
    }
  }

  // ------------------------------------------------------------------ the loop itself

  // Every routed command in the stream is whole when its turn comes.
  ghost predicate Clear(c: F.Chan, d: Dev, s: seq<byte>, drain: F.Drain, lk: Lk)
    requires F.Declared(c, d)
    decreases |s|
  {
    if s == [] then true
    else if Routed(c, d, s) then
      Whole(d, s) && Clear(c, lk(d, s[..Frame(d, s)]), s[Frame(d, s)..], drain, lk)
    else
      var r := F.Turn(c, d, s[0], drain);
      Clear(r.chan, r.dev, s[1..], drain, lk)
  }

  lemma {:induction false} ClearFeeds(c: F.Chan, d: Dev, s: seq<byte>, rest: seq<byte>, drain: F.Drain, lk: Lk)
    requires F.Declared(c, d) && s != [] && !Routed(c, d, s) && Busy(c, d, s, drain)
    ensures var r := F.FeedAll(c, d, s, drain);
            Clear(c, d, s + rest, drain, lk) <==> Clear(r.chan, r.dev, rest, drain, lk)
    decreases |s|
  {
    hide F.Turn, F.FeedAll, Busy, F.Idle;
    assert (s + rest)[1..] == s[1..] + rest;
    var r := F.FeedCons(c, d, s, drain);
    if |s| == 1 {
      assert s == [s[0]] && s[1..] + rest == rest;
      TurnIsFeedAll(c, d, s[0], drain);
    } else {
      BusyOn(c, d, s, drain);
      ClearFeeds(r.chan, r.dev, s[1..], rest, drain, lk);
    }
  }

  // A payload's bytes up to its end leave the parser busy in between.
  lemma PayloadBusy(c: F.Chan, d: Dev, s: seq<byte>, drain: F.Drain)
    requires F.Declared(c, d) && 0 < |s| <= c.payNeed - c.payGot
    ensures !F.Idle(c) && Busy(c, d, s, drain)
  {
    hide F.FeedAll, F.Finish, F.Splice;
    forall k | 0 < k < |s| ensures !F.Idle(F.FeedAll(c, d, s[..k], drain).chan) {
      F.BulkIsBytes(c, d, s[..k], drain);
    }
  }

  lemma OneBusy(c: F.Chan, d: Dev, s: seq<byte>, drain: F.Drain)
    requires F.Declared(c, d) && |s| == 1
    ensures Busy(c, d, s, drain)
  {
  }

  // A list of commands for either dispatcher is such a stream.
  lemma {:induction false} ListClear(c: F.Chan, d: Dev, ms: seq<F.Command>, rest: seq<byte>, drain: F.Drain, lk: Lk)
    requires F.Declared(c, d) && F.Idle(c) && AllClean(c, d, ms, drain, lk)
    ensures var r := CarryAll(c, d, ms, drain, lk);
            Clear(c, d, F.WireAll(ms) + rest, drain, lk) <==> Clear(r.chan, r.dev, rest, drain, lk)
    decreases ms
  {
    hide Clear, Carry, Clean, F.Wire;
    if ms == [] {
      assert F.WireAll(ms) + rest == rest;
    } else {
      var r := Carry(c, d, ms[0], drain, lk);
      var more := F.WireAll(ms[1..]) + rest;
      assert F.WireAll(ms) + rest == F.Wire(ms[0]) + more;
      CommandClear(c, d, ms[0], more, drain, lk);
      ListClear(r.chan, r.dev, ms[1..], rest, drain, lk);
    }
  }

  lemma CommandClear(c: F.Chan, d: Dev, m: F.Command, rest: seq<byte>, drain: F.Drain, lk: Lk)
    requires F.Declared(c, d) && F.Idle(c) && Clean(c, d, m)
    ensures var r := Carry(c, d, m, drain, lk);
            Clear(c, d, F.Wire(m) + rest, drain, lk) <==> Clear(r.chan, r.dev, rest, drain, lk)
  {
    var s := F.Wire(m) + rest;
    if L.Routes(d.mode, m.op) {
      FrameIsWire(c, d, m, rest);
      assert s[..|F.Wire(m)|] == F.Wire(m) && s[|F.Wire(m)|..] == rest;
      hide Whole, Frame, L.Verdict;
    } else {
      F.CommandFramed(c, d, m, drain);
      hide F.Perform, F.FeedAll, Clear, Clean;
      CommandBusy(c, d, m, drain);
      ClearFeeds(c, d, F.Wire(m), rest, drain, lk);
    }
  }

  // Where the loop stands: what the stream was to give is what has gone out and what the rest gives.
  ghost predicate Standing(c0: F.Chan, d0: Dev, all: seq<byte>, c: F.Chan, d: Dev, rest: seq<byte>, out: seq<byte>,
                           drain: F.Drain, lk: Lk)
  {
    && F.Declared(c0, d0) && F.Declared(c, d) && Clear(c, d, rest, drain, lk)
    && Serve(c0, d0, all, drain, lk) == After(out, Serve(c, d, rest, drain, lk))
  }

  lemma Stands(c: F.Chan, d: Dev, all: seq<byte>, drain: F.Drain, lk: Lk)
    requires F.Declared(c, d) && Clear(c, d, all, drain, lk)
    ensures Standing(c, d, all, c, d, all, [], drain, lk)
  {
    AfterTwice([], [], Serve(c, d, all, drain, lk));
  }

  lemma StandsFed(c0: F.Chan, d0: Dev, all: seq<byte>, c: F.Chan, d: Dev, s: seq<byte>, rest: seq<byte>,
                  out: seq<byte>, drain: F.Drain, lk: Lk)
    requires Standing(c0, d0, all, c, d, s + rest, out, drain, lk)
    requires s != [] && !Routed(c, d, s) && (|s| == 1 || |s| <= c.payNeed - c.payGot)
    ensures F.Declared(c, d)
    ensures var r := F.FeedAll(c, d, s, drain); Standing(c0, d0, all, r.chan, r.dev, rest, out + r.reply, drain, lk)
  {
    hide Serve, Clear, F.FeedAll, Busy, After;
    if |s| == 1 { OneBusy(c, d, s, drain); } else { PayloadBusy(c, d, s, drain); }
    ServeFeeds(c, d, s, rest, drain, lk);
    ClearFeeds(c, d, s, rest, drain, lk);
    var r := F.FeedAll(c, d, s, drain);
    AfterTwice(out, r.reply, Serve(r.chan, r.dev, rest, drain, lk));
  }

  lemma StandsRouted(c0: F.Chan, d0: Dev, all: seq<byte>, c: F.Chan, d: Dev, s: seq<byte>, out: seq<byte>,
                     drain: F.Drain, lk: Lk)
    requires s != [] && Standing(c0, d0, all, c, d, s, out, drain, lk) && Routed(c, d, s)
    ensures Whole(d, s) && F.Declared(c, lk(d, s[..Frame(d, s)]))
    ensures var n, b := Frame(d, s), L.Verdict(Size(d), s[0], s[1..]);
            Standing(c0, d0, all, c, lk(d, s[..n]), s[n..], out + [b], drain, lk)
  {
    hide Whole, Frame, L.Verdict, L.Routes;
    var n, b := Frame(d, s), L.Verdict(Size(d), s[0], s[1..]);
    AfterTwice(out, [b], Serve(c, lk(d, s[..n]), s[n..], drain, lk));
  }

  // The loop over one receive batch.  What the two dispatchers send, in order, and where they leave
  // the parser, the device and the endpoint is what Serve makes of the batch and what is behind it.
  method Receive(p: P.Parser, seam: L.Seam, batch: seq<byte>, bulk: nat -> nat, drain: F.Drain, lk: Lk)
    returns (out: seq<byte>)
    requires p.Valid() && seam.Valid() && p.arg != seam.dataBuffer && p.pay != seam.dataBuffer
    requires Clear(p.View(), p.st, batch + seam.burst, drain, lk) && seam.room >= |batch|
    modifies p, p.arg, p.pay, seam, seam.cmdAddr, seam.cmdVal, seam.dataBuffer
    ensures p.Valid() && seam.Valid()
    ensures Standing(old(p.View()), old(p.st), batch + old(seam.burst), p.View(), p.st, seam.burst, out, drain, lk)
  {
    ghost var c0, d0, all := p.View(), p.st, batch + seam.burst;
    Stands(c0, d0, all, drain, lk);
    hide *;
    out := [];
    var rest := batch;
    while rest != []
      invariant p.Valid() && seam.Valid() && seam.room >= |rest|
      invariant Standing(c0, d0, all, p.View(), p.st, rest + seam.burst, out, drain, lk)
      decreases |rest|
    {
      var used;
      out, used := Turn(p, seam, rest, bulk(|rest|), out, c0, d0, all, drain, lk);
      rest := rest[used..];
    }
    assert [] + seam.burst == seam.burst;
  }

  // One turn: LK's between commands, where the opcode is routed, and the parser's otherwise.
  method Turn(p: P.Parser, seam: L.Seam, rest: seq<byte>, most: nat, sofar: seq<byte>,
              ghost c0: F.Chan, ghost d0: Dev, ghost all: seq<byte>, drain: F.Drain, lk: Lk)
    returns (out: seq<byte>, used: nat)
    requires p.Valid() && seam.Valid() && rest != [] && seam.room >= |rest|
    requires p.arg != seam.dataBuffer && p.pay != seam.dataBuffer
    requires Standing(c0, d0, all, p.View(), p.st, rest + seam.burst, sofar, drain, lk)
    modifies p, p.arg, p.pay, seam, seam.cmdAddr, seam.cmdVal, seam.dataBuffer
    ensures p.Valid() && seam.Valid() && 0 < used <= |rest| && seam.room >= |rest| - used
    ensures Standing(c0, d0, all, p.View(), p.st, rest[used..] + seam.burst, out, drain, lk)
  {
    hide *;
    if p.Idle() && L.Routes(p.st.mode, rest[0]) {
      out, used := Route(p, seam, rest, sofar, c0, d0, all, drain, lk);
    } else {
      out, used := Parse(p, seam.burst, rest, most, sofar, c0, d0, all, drain, lk);
    }
  }

  // One routed command: its opcode and what the seam used of the batch.
  method Route(p: P.Parser, seam: L.Seam, rest: seq<byte>, sofar: seq<byte>,
               ghost c0: F.Chan, ghost d0: Dev, ghost all: seq<byte>, ghost drain: F.Drain, lk: Lk)
    returns (out: seq<byte>, used: nat)
    requires p.Valid() && seam.Valid() && rest != [] && seam.room >= |rest|
    requires p.Idle() && L.Routes(p.st.mode, rest[0])
    requires p.arg != seam.dataBuffer && p.pay != seam.dataBuffer
    requires Standing(c0, d0, all, p.View(), p.st, rest + seam.burst, sofar, drain, lk)
    modifies p`st, seam, seam.cmdAddr, seam.cmdVal, seam.dataBuffer
    ensures p.Valid() && seam.Valid() && 0 < used <= |rest| && seam.room >= |rest| - used
    ensures Standing(c0, d0, all, p.View(), p.st, rest[used..] + seam.burst, out, drain, lk)
  {
    hide Standing, Whole, L.Followed, L.Verdict, L.Declared, L.Routes, L.Seam.Valid, P.Parser.Valid;
    ghost var c, d, behind := p.View(), p.st, seam.burst;
    var s := rest + seam.burst;
    IdleRoutes(p, s);
    StandsRouted(c0, d0, all, c, d, s, sofar, drain, lk);
    var frame := s[..Frame(p.st, s)];
    WholeIs(d, s);
    assert s[0] == rest[0] && s[1..] == rest[1..] + behind;
    var before := |seam.sent|;
    ghost var q;
    used, q := seam.Dispatch(rest[0], p.st.v16[TRANSFER_SIZE], rest[1..]);
    out := sofar + seam.sent[before..];
    LkLeaves(p, frame, lk);
    Behind(rest, behind, |frame| - 1, used);
    used := used + 1;
  }

  lemma IdleRoutes(p: P.Parser, s: seq<byte>)
    requires p.Valid() && p.Idle() && s != [] && L.Routes(p.st.mode, s[0])
    ensures Routed(p.View(), p.st, s)
  {
  }

  lemma WholeIs(d: Dev, s: seq<byte>)
    requires s != [] && Whole(d, s)
    ensures L.Followed(Size(d), s[0], s[1..]) && L.Declared(Size(d), s[0], s[1..]) == Frame(d, s) - 1 <= |s| - 1
  {
  }

  // LK's own variables go back to the session record.
  method LkLeaves(p: P.Parser, frame: seq<byte>, lk: Lk)
    requires p.Valid() && p.Idle()
    modifies p`st
    ensures p.Valid() && p.View() == old(p.View()) && p.st == lk(old(p.st), frame)
  {
    p.st := lk(p.st, frame);
  }

  // The tail used and the endpoint bytes taken are the frame.
  lemma Behind(rest: seq<byte>, behind: seq<byte>, n: nat, used: nat)
    requires rest != [] && used == Min(n, |rest| - 1) && n - used <= |behind|
    ensures (rest + behind)[1 + n..] == rest[1 + used..] + behind[n - used..]
  {
  }

  // One turn of the parser's: a run of payload, or a byte.
  method Parse(p: P.Parser, ghost behind: seq<byte>, rest: seq<byte>, most: nat, sofar: seq<byte>,
               ghost c0: F.Chan, ghost d0: Dev, ghost all: seq<byte>, drain: F.Drain, ghost lk: Lk)
    returns (out: seq<byte>, used: nat)
    requires p.Valid() && rest != [] && !(p.Idle() && L.Routes(p.st.mode, rest[0]))
    requires Standing(c0, d0, all, p.View(), p.st, rest + behind, sofar, drain, lk)
    modifies p, p.arg, p.pay
    ensures p.Valid() && 0 < used <= |rest|
    ensures Standing(c0, d0, all, p.View(), p.st, rest[used..] + behind, out, drain, lk)
  {
    hide Standing, F.Declared, F.FeedAll;
    ghost var c, d := p.View(), p.st;
    var took := p.TakeSome(rest, most, drain, sofar);
    out, used := took.0, took.1;
    ghost var s := rest[..used];
    assert rest + behind == s + (rest[used..] + behind);
    StandsFed(c0, d0, all, c, d, s, rest[used..] + behind, sofar, drain, lk);
  }
}
