/** proto.c's parser as a function of one byte at a time, and what makes its framing exact: the
    parser is idle precisely between commands, whatever the argument and payload bytes are and
    however TRANSFER_SIZE moves while the stream goes on. */
module Framing {
  import opened Bytes
  import opened Device
  import opened Commands

  // The static record P, with the payload count of the last command that finished.
  datatype Chan = Chan(op: byte, need: nat, got: nat, arg: Args,
                       payNeed: nat, payGot: nat, payOver: bool, pay: Pay,
                       bytes: nat, lastPay: nat)

  // The main loop drains requests once a command is through; what it does to the session record
  // is its own business.
  type Drain = Dev -> Dev

  datatype Rx = Rx(chan: Chan, dev: Dev, reply: seq<byte>)

  // fw_proto_idle()
  predicate Idle(c: Chan) {
    c.op == 0 && c.payNeed == 0
  }

  predicate Valid(c: Chan) {
    if c.payNeed != 0 then
      c.op != 0 && c.payGot < c.payNeed <= MAX_TRANSFER && c.payOver == (c.payNeed > PAYLOAD_MAX)
    else
      c.payGot == 0 && !c.payOver && (if c.op == 0 then c.need == c.got == 0
                                      else c.got < c.need == ArgLen(c.op))
  }

  const Quiet := Chan(0, 0, 0, seq(ARG_MAX, _ => 0), 0, 0, false, seq(PAYLOAD_MAX, _ => 0), 0, 0)

  // parser_reset(): the argument and payload buffers keep their bytes.
  function Reset(c: Chan): Chan {
    c.(op := 0, need := 0, got := 0, payNeed := 0, payGot := 0, payOver := false)
  }

  // The arguments are all there: wait for a payload or carry the command out.
  function Dispatch(c: Chan, d: Dev): Rx {
    var n := PayloadLen(d, c.op, c.arg);
    if n != 0 then Rx(c.(payNeed := n, payOver := n > PAYLOAD_MAX), Opened(d, c.op), [])
    else
      var r := Execute(d, c.op, c.arg, c.pay, c.lastPay);
      Rx(Reset(c), r.dev, r.reply)
  }

  // The payload is all there, kept or not.
  function Finish(c: Chan, d: Dev): Rx
    requires !c.payOver ==> c.payGot == PayloadLen(d, c.op, c.arg) <= PAYLOAD_MAX
  {
    if c.payOver then Rx(Reset(c), d, [ACK_ERROR])
    else
      var r := PayloadDone(d, c.op, c.arg, c.pay, c.payGot);
      Rx(Reset(c.(lastPay := c.payGot)), r.dev, r.reply)
  }

  // While a payload is open nothing but its own bytes reaches the parser, so the length declared
  // for it still stands.
  predicate Declared(c: Chan, d: Dev) {
    Valid(c) && (c.payNeed != 0 ==> c.payNeed == PayloadLen(d, c.op, c.arg))
  }

  // fw_proto_feed()
  function Feed(was: Chan, d: Dev, b: byte): (r: Rx)
    requires Declared(was, d)
    ensures Declared(r.chan, r.dev)
  {
    var c := was.(bytes := (was.bytes + 1) % 0x1_0000_0000);
    if c.payNeed != 0 then
      var e := c.(pay := if c.payGot < PAYLOAD_MAX then c.pay[c.payGot := b] else c.pay,
                  payGot := c.payGot + 1);
      if e.payGot >= e.payNeed then Finish(e, d) else Rx(e, d, [])
    else if c.op == 0 then
      var e := c.(op := b, need := ArgLen(b), got := 0);
      if e.need == 0 then Dispatch(e, d) else Rx(e, d, [])
    else
      var e := c.(arg := c.arg[c.got := b], got := c.got + 1);
      if e.got >= e.need then Dispatch(e, d) else Rx(e, d, [])
  }

  // One byte of the receive loop.
  function Turn(c: Chan, d: Dev, b: byte, drain: Drain): (r: Rx)
    requires Declared(c, d)
    ensures Declared(r.chan, r.dev)
  {
    var r := Feed(c, d, b);
    if Idle(r.chan) then r.(dev := drain(r.dev)) else r
  }

  // A stretch of the byte stream, replies in order.
  function FeedAll(c: Chan, d: Dev, s: seq<byte>, drain: Drain): (r: Rx)
    requires Declared(c, d)
    ensures Declared(r.chan, r.dev)
    decreases s
  {
    if s == [] then Rx(c, d, [])
    else
      var r := Turn(c, d, s[0], drain);
      var t := FeedAll(r.chan, r.dev, s[1..], drain);
      t.(reply := r.reply + t.reply)
  }

  lemma {:induction false} FeedSplit(c: Chan, d: Dev, s: seq<byte>, t: seq<byte>, drain: Drain)
    requires Declared(c, d)
    ensures var r := FeedAll(c, d, s, drain);
            var u := FeedAll(r.chan, r.dev, t, drain);
            FeedAll(c, d, s + t, drain) == u.(reply := r.reply + u.reply)
    decreases s
  {
    hide Turn, FeedAll;
    if s == [] {
      FeedNone(c, d, drain);
      assert s + t == t;
      NoReply(FeedAll(c, d, t, drain));
    } else {
      var r := FeedCons(c, d, s, drain);
      FeedSplit(r.chan, r.dev, s[1..], t, drain);
      assert (s + t)[1..] == s[1..] + t;
      r := FeedCons(c, d, s + t, drain);
    }
  }

  lemma NoReply(r: Rx)
    ensures r.(reply := [] + r.reply) == r
  {
    assert [] + r.reply == r.reply;
  }

  lemma FeedCons(c: Chan, d: Dev, s: seq<byte>, drain: Drain) returns (r: Rx)
    requires Declared(c, d) && s != []
    ensures r == Turn(c, d, s[0], drain)
    ensures var t := FeedAll(r.chan, r.dev, s[1..], drain);
            FeedAll(c, d, s, drain) == t.(reply := r.reply + t.reply)
  {
    hide Turn;
    r := Turn(c, d, s[0], drain);
  }

  lemma FeedNone(c: Chan, d: Dev, drain: Drain)
    requires Declared(c, d)
    ensures FeedAll(c, d, [], drain) == Rx(c, d, [])
  {
  }

  lemma FeedOne(c: Chan, d: Dev, b: byte, drain: Drain)
    requires Declared(c, d)
    ensures FeedAll(c, d, [b], drain) == Turn(c, d, b, drain)
  {
    hide Turn;
    var r := Turn(c, d, b, drain);
    assert FeedAll(r.chan, r.dev, [], drain) == Rx(r.chan, r.dev, []);
    assert r.reply + [] == r.reply;
  }

  // ------------------------------------------------------------------ whole commands

  datatype Command = Command(op: byte, args: seq<byte>, payload: seq<byte>)

  function Wire(m: Command): seq<byte> { [m.op] + m.args + m.payload }

  // P.arg after the arguments, P.pay after the payload: what was there before shows through.
  function Over(under: seq<byte>, top: seq<byte>): (s: seq<byte>)
    ensures |s| == |under|
  {
    if |top| <= |under| then top + under[|top|..] else top[..|under|]
  }

  // The host sends the lengths the command table has at that moment.
  predicate Legal(c: Chan, d: Dev, m: Command) {
    |m.args| == ArgLen(m.op) && |m.payload| == PayloadLen(d, m.op, Over(c.arg, m.args))
  }

  // A command as one step: exactly one dispatch, or one refusal of a payload too long to keep.
  function Perform(c: Chan, d: Dev, m: Command): (r: Rx)
    requires Declared(c, d) && Idle(c) && Legal(c, d, m)
    ensures Idle(r.chan) && Declared(r.chan, r.dev)
  {
    var e := c.(arg := Over(c.arg, m.args), bytes := (c.bytes + |Wire(m)|) % 0x1_0000_0000);
    if m.payload == [] then
      var x := Execute(d, m.op, e.arg, c.pay, c.lastPay);
      Rx(e, x.dev, x.reply)
    else if |m.payload| > PAYLOAD_MAX then
      Rx(e.(pay := Over(c.pay, m.payload)), Opened(d, m.op), [ACK_ERROR])
    else
      var pay := Over(c.pay, m.payload);
      var x := PayloadDone(Opened(d, m.op), m.op, e.arg, pay, |m.payload|);
      Rx(e.(pay := pay, lastPay := |m.payload|), x.dev, x.reply)
  }

  function PerformAll(c: Chan, d: Dev, ms: seq<Command>, drain: Drain): (r: Rx)
    requires Declared(c, d) && Idle(c) && AllLegal(c, d, ms, drain)
    ensures Idle(r.chan) && Declared(r.chan, r.dev)
    decreases ms
  {
    if ms == [] then Rx(c, d, [])
    else
      var r := Perform(c, d, ms[0]);
      var t := PerformAll(r.chan, drain(r.dev), ms[1..], drain);
      t.(reply := r.reply + t.reply)
  }

  predicate AllLegal(c: Chan, d: Dev, ms: seq<Command>, drain: Drain)
    requires Declared(c, d) && Idle(c)
    decreases ms
  {
    ms == []
    || (Legal(c, d, ms[0])
        && var r := Perform(c, d, ms[0]); AllLegal(r.chan, drain(r.dev), ms[1..], drain))
  }

  function WireAll(ms: seq<Command>): seq<byte>
    decreases ms
  {
    if ms == [] then [] else Wire(ms[0]) + WireAll(ms[1..])
  }

  // ------------------------------------------------------------------ part of a command

  predicate Inside(m: Command, k: nat) {
    0 < k < |Wire(m)|
  }

  // The parser k bytes into a command: opcode and arguments first, then an open payload.
  function Partway(c: Chan, d: Dev, m: Command, k: nat): Rx
    requires Idle(c) && Legal(c, d, m) && Inside(m, k)
  {
    var e := c.(op := m.op, need := ArgLen(m.op), bytes := (c.bytes + k) % 0x1_0000_0000);
    if k <= |m.args| then Rx(e.(got := k - 1, arg := Over(c.arg, m.args[..k - 1])), d, [])
    else
      var j := k - 1 - |m.args|;
      Rx(e.(got := |m.args|, arg := Over(c.arg, m.args), payNeed := |m.payload|, payGot := j,
            payOver := |m.payload| > PAYLOAD_MAX, pay := Over(c.pay, m.payload[..j])),
         Opened(d, m.op), [])
  }

  lemma OverOne(under: seq<byte>, top: seq<byte>, j: nat)
    requires j < |top|
    ensures Over(under, top[..j + 1]) ==
            if j < |under| then Over(under, top[..j])[j := top[j]] else Over(under, top[..j])
  {
  }

  lemma OverNone(under: seq<byte>, top: seq<byte>)
    ensures Over(under, top[..0]) == under && top[..|top|] == top
  {
  }

  lemma PartwayDeclared(c: Chan, d: Dev, m: Command, k: nat)
    requires Declared(c, d) && Idle(c) && Legal(c, d, m) && Inside(m, k)
    ensures var r := Partway(c, d, m, k); Declared(r.chan, r.dev) && !Idle(r.chan)
  {
    assert m.op == RESYNC ==> |Wire(m)| == 1;
  }

  lemma FirstByte(c: Chan, d: Dev, m: Command)
    requires Declared(c, d) && Idle(c) && Legal(c, d, m)
    ensures Feed(c, d, m.op) == if |Wire(m)| == 1 then Perform(c, d, m) else Partway(c, d, m, 1)
  {
    OverNone(c.arg, m.args);
    OverNone(c.pay, m.payload);
  }

  lemma ArgByte(c: Chan, d: Dev, m: Command, k: nat)
    requires Declared(c, d) && Idle(c) && Legal(c, d, m) && 0 < k <= |m.args|
    requires Inside(m, k) && Declared(Partway(c, d, m, k).chan, Partway(c, d, m, k).dev)
    ensures var r := Partway(c, d, m, k);
            Feed(r.chan, r.dev, Wire(m)[k]) ==
            if k + 1 == |Wire(m)| then Perform(c, d, m) else Partway(c, d, m, k + 1)
  {
    hide Execute, PayloadDone, Over, PayloadLen;
    assert Wire(m)[k] == m.args[k - 1];
    OverOne(c.arg, m.args, k - 1);
    OverNone(c.pay, m.payload);
    assert m.args[..|m.args|] == m.args;
  }

  lemma PartwayLength(d: Dev, op: byte, a: Args)
    ensures PayloadLen(Opened(d, op), op, a) == PayloadLen(d, op, a)
  {
  }

  lemma PayloadByte(c: Chan, d: Dev, m: Command, k: nat)
    requires Declared(c, d) && Idle(c) && Legal(c, d, m) && |m.args| < k
    requires Inside(m, k) && Declared(Partway(c, d, m, k).chan, Partway(c, d, m, k).dev)
    ensures var r := Partway(c, d, m, k);
            Feed(r.chan, r.dev, Wire(m)[k]) ==
            if k + 1 == |Wire(m)| then Perform(c, d, m) else Partway(c, d, m, k + 1)
  {
    hide Feed, Partway, Perform;
    if k + 1 == |Wire(m)| { PayloadLast(c, d, m, k); } else { PayloadMiddle(c, d, m, k); }
  }

  lemma OpenByte(c: Chan, d: Dev, b: byte)
    requires Declared(c, d) && c.payGot + 1 < c.payNeed
    ensures Feed(c, d, b) ==
            Rx(c.(bytes := (c.bytes + 1) % 0x1_0000_0000, payGot := c.payGot + 1,
                  pay := if c.payGot < PAYLOAD_MAX then c.pay[c.payGot := b] else c.pay), d, [])
  {
    hide Finish, Dispatch, PayloadLen, ArgLen;
  }

  lemma PayloadMiddle(c: Chan, d: Dev, m: Command, k: nat)
    requires Declared(c, d) && Idle(c) && Legal(c, d, m) && |m.args| < k && k + 1 < |Wire(m)|
    requires Inside(m, k) && Declared(Partway(c, d, m, k).chan, Partway(c, d, m, k).dev)
    ensures var r := Partway(c, d, m, k); Feed(r.chan, r.dev, Wire(m)[k]) == Partway(c, d, m, k + 1)
  {
    hide Feed, Over, PayloadLen, ArgLen;
    var j, r := k - 1 - |m.args|, Partway(c, d, m, k);
    assert Wire(m)[k] == m.payload[j];
    OpenByte(r.chan, r.dev, m.payload[j]);
    OverOne(c.pay, m.payload, j);
  }

  lemma PayloadLast(c: Chan, d: Dev, m: Command, k: nat)
    requires Declared(c, d) && Idle(c) && Legal(c, d, m) && |m.args| < k && k + 1 == |Wire(m)|
    requires Inside(m, k) && Declared(Partway(c, d, m, k).chan, Partway(c, d, m, k).dev)
    ensures var r := Partway(c, d, m, k); Feed(r.chan, r.dev, Wire(m)[k]) == Perform(c, d, m)
  {
    hide Execute, PayloadDone, Over, PayloadLen, ArgLen, Dispatch;
    PartwayLength(d, m.op, Over(c.arg, m.args));
    var j := k - 1 - |m.args|;
    assert Wire(m)[k] == m.payload[j];
    OverOne(c.pay, m.payload, j);
    assert m.payload[..|m.payload|] == m.payload;
  }

  // k bytes in, the parser has swallowed them all as this command's and answered nothing.
  lemma {:induction false} FedPartway(c: Chan, d: Dev, m: Command, k: nat, drain: Drain)
    requires Declared(c, d) && Idle(c) && Legal(c, d, m) && Inside(m, k)
    ensures FeedAll(c, d, Wire(m)[..k], drain) == Partway(c, d, m, k)
  {
    hide Feed, Partway, Perform;
    PartwayDeclared(c, d, m, k);
    if k == 1 {
      assert Wire(m)[..1] == [m.op];
      FeedOne(c, d, m.op, drain);
      FirstByte(c, d, m);
    } else {
      FedPartway(c, d, m, k - 1, drain);
      PartwayDeclared(c, d, m, k - 1);
      NextByte(c, d, m, k - 1, drain);
    }
  }

  lemma NextByte(c: Chan, d: Dev, m: Command, k: nat, drain: Drain)
    requires Declared(c, d) && Idle(c) && Legal(c, d, m) && Inside(m, k)
    requires FeedAll(c, d, Wire(m)[..k], drain) == Partway(c, d, m, k)
    ensures FeedAll(c, d, Wire(m)[..k + 1], drain) ==
            if k + 1 == |Wire(m)| then var r := Perform(c, d, m); r.(dev := drain(r.dev))
            else Partway(c, d, m, k + 1)
  {
    hide Feed, Perform, Execute, PayloadDone, Partway, PayloadLen, Over, FeedAll;
    var r := Partway(c, d, m, k);
    PartwayDeclared(c, d, m, k);
    PartwaySilent(c, d, m, k);
    if k <= |m.args| { ArgByte(c, d, m, k); } else { PayloadByte(c, d, m, k); }
    if k + 1 < |Wire(m)| {
      PartwayDeclared(c, d, m, k + 1);
      PartwaySilent(c, d, m, k + 1);
    }
    assert Wire(m)[..k + 1] == Wire(m)[..k] + [Wire(m)[k]];
    FeedSplit(c, d, Wire(m)[..k], [Wire(m)[k]], drain);
    FeedOne(r.chan, r.dev, Wire(m)[k], drain);
  }

  // ------------------------------------------------------------------ framing is exact

  // One command on the wire: one dispatch with its own opcode, arguments and payload, its reply
  // and nothing else, and the parser is idle at its end and at no point before.
  lemma CommandFramed(c: Chan, d: Dev, m: Command, drain: Drain)
    requires Declared(c, d) && Idle(c) && Legal(c, d, m)
    ensures var r := Perform(c, d, m); FeedAll(c, d, Wire(m), drain) == r.(dev := drain(r.dev))
    ensures forall k: nat :: Inside(m, k) ==>
              !Idle(FeedAll(c, d, Wire(m)[..k], drain).chan) && FeedAll(c, d, Wire(m)[..k], drain).reply == []
  {
    hide Feed, Perform, Partway;
    forall k: nat | Inside(m, k)
      ensures !Idle(FeedAll(c, d, Wire(m)[..k], drain).chan)
              && FeedAll(c, d, Wire(m)[..k], drain).reply == []
    {
      FedPartway(c, d, m, k, drain);
      PartwayDeclared(c, d, m, k);
      PartwaySilent(c, d, m, k);
    }
    var n := |m.args| + |m.payload|;
    if n == 0 {
      assert Wire(m) == [m.op];
      FeedOne(c, d, m.op, drain);
      FirstByte(c, d, m);
    } else {
      FedPartway(c, d, m, n, drain);
      NextByte(c, d, m, n, drain);
      assert Wire(m)[..n + 1] == Wire(m);
    }
  }

  lemma PartwaySilent(c: Chan, d: Dev, m: Command, k: nat)
    requires Idle(c) && Legal(c, d, m) && Inside(m, k)
    ensures Partway(c, d, m, k).reply == []
  {
  }

  // Any list of commands, each framed by the state the earlier ones left: fed as bytes it is
  // carried out command by command, with the replies in order.
  lemma {:induction false} StreamFramed(c: Chan, d: Dev, ms: seq<Command>, drain: Drain)
    requires Declared(c, d) && Idle(c) && AllLegal(c, d, ms, drain)
    ensures FeedAll(c, d, WireAll(ms), drain) == PerformAll(c, d, ms, drain)
    decreases ms
  {
    hide Perform, Legal, Turn;
    if ms != [] {
      var r := Perform(c, d, ms[0]);
      CommandFramed(c, d, ms[0], drain);
      StreamFramed(r.chan, drain(r.dev), ms[1..], drain);
      FeedSplit(c, d, Wire(ms[0]), WireAll(ms[1..]), drain);
    }
  }

  // ------------------------------------------------------------------ every stream is commands

  // The command the stream starts with, if all of it is there.
  function Head(c: Chan, d: Dev, s: seq<byte>): (m: Option<Command>)
    ensures m.Some? ==> Legal(c, d, m.value) && Wire(m.value) <= s
  {
    if s == [] || |s| < 1 + ArgLen(s[0]) then None
    else
      var n := ArgLen(s[0]);
      var args := s[1..1 + n];
      var p := PayloadLen(d, s[0], Over(c.arg, args));
      if |s| < 1 + n + p then None
      else
        assert [s[0]] + args + s[1 + n..1 + n + p] == s[..1 + n + p];
        Some(Command(s[0], args, s[1 + n..1 + n + p]))
  }

  lemma Rejoined(w: seq<byte>, ws: seq<byte>, rest: seq<byte>, s: seq<byte>)
    requires w <= s && ws + rest == s[|w|..]
    ensures w + ws + rest == s
  {
    assert s == w + s[|w|..];
  }

  function Parse(c: Chan, d: Dev, s: seq<byte>, drain: Drain): (r: (seq<Command>, seq<byte>))
    requires Declared(c, d) && Idle(c)
    ensures WireAll(r.0) + r.1 == s && AllLegal(c, d, r.0, drain)
    decreases |s|
  {
    var m := Head(c, d, s);
    if m.None? then ([], s)
    else
      var w := |Wire(m.value)|;
      var r := Perform(c, d, m.value);
      var (ms, rest) := Parse(r.chan, drain(r.dev), s[w..], drain);
      Rejoined(Wire(m.value), WireAll(ms), rest, s);
      ([m.value] + ms, rest)
  }

  // What is left over is the beginning of one more command.
  lemma Unfinished(c: Chan, d: Dev, s: seq<byte>) returns (m: Command)
    requires Declared(c, d) && Idle(c) && s != [] && Head(c, d, s).None?
    ensures Legal(c, d, m) && Inside(m, |s|) && Wire(m)[..|s|] == s
  {
    var n := ArgLen(s[0]);
    var args := if |s| < 1 + n then s[1..] + seq(1 + n - |s|, _ => 0) else s[1..1 + n];
    var p := PayloadLen(d, s[0], Over(c.arg, args));
    var pay := if |s| < 1 + n then seq(p, _ => 0) else s[1 + n..] + seq(1 + n + p - |s|, _ => 0);
    m := Command(s[0], args, pay);
    if |s| < 1 + n {
      assert Wire(m) == s + (seq(1 + n - |s|, _ => 0) + pay);
    } else {
      assert s == [s[0]] + args + s[1 + n..];
      assert Wire(m) == s + seq(1 + n + p - |s|, _ => 0);
    }
  }

  lemma {:induction false} LeftOver(c: Chan, d: Dev, s: seq<byte>, drain: Drain)
    requires Declared(c, d) && Idle(c)
    ensures var (ms, rest) := Parse(c, d, s, drain);
            var r := PerformAll(c, d, ms, drain); Head(r.chan, r.dev, rest).None?
    decreases |s|
  {
    hide Perform;
    var m := Head(c, d, s);
    if m.Some? {
      var r := Perform(c, d, m.value);
      LeftOver(r.chan, drain(r.dev), s[|Wire(m.value)|..], drain);
      assert ([m.value] + Parse(r.chan, drain(r.dev), s[|Wire(m.value)|..], drain).0)[1..]
             == Parse(r.chan, drain(r.dev), s[|Wire(m.value)|..], drain).0;
    }
  }

  // Whatever bytes arrive, they are whole commands and at most one unfinished one.  Exactly those
  // commands are carried out and answered; no byte is read as two things, and the parser is idle
  // exactly when nothing is left over.
  lemma EveryStreamIsCommands(c: Chan, d: Dev, s: seq<byte>, drain: Drain)
    requires Declared(c, d) && Idle(c)
    ensures var (ms, rest) := Parse(c, d, s, drain);
            var r := FeedAll(c, d, s, drain);
            var done := PerformAll(c, d, ms, drain);
            r.reply == done.reply && (Idle(r.chan) <==> rest == []) && (rest == [] ==> r == done)
  {
    hide Perform, Feed, Turn, Head, Partway;
    var (ms, rest) := Parse(c, d, s, drain);
    var done := PerformAll(c, d, ms, drain);
    StreamFramed(c, d, ms, drain);
    FeedSplit(c, d, WireAll(ms), rest, drain);
    if rest == [] {
      assert done.reply + [] == done.reply;
    } else {
      LeftOver(c, d, s, drain);
      var m := Unfinished(done.chan, done.dev, rest);
      FedPartway(done.chan, done.dev, m, |rest|, drain);
      PartwayDeclared(done.chan, done.dev, m, |rest|);
      PartwaySilent(done.chan, done.dev, m, |rest|);
      assert done.reply + [] == done.reply;
    }
  }

  // And the commands a host meant are the ones that are found.
  lemma {:induction false} ParseFindsCommands(c: Chan, d: Dev, ms: seq<Command>, drain: Drain)
    requires Declared(c, d) && Idle(c) && AllLegal(c, d, ms, drain)
    ensures Parse(c, d, WireAll(ms), drain) == (ms, [])
    decreases ms
  {
    hide Perform;
    var s := WireAll(ms);
    if ms != [] {
      var r := Perform(c, d, ms[0]);
      HeadFound(c, d, ms[0], WireAll(ms[1..]));
      ParseFindsCommands(r.chan, drain(r.dev), ms[1..], drain);
      assert s[|Wire(ms[0])|..] == WireAll(ms[1..]);
      assert [ms[0]] + ms[1..] == ms;
    }
  }

  lemma HeadFound(c: Chan, d: Dev, m: Command, rest: seq<byte>)
    requires Legal(c, d, m)
    ensures Head(c, d, Wire(m) + rest) == Some(m)
  {
    var s := Wire(m) + rest;
    assert s[0] == m.op;
    assert s[1..1 + |m.args|] == m.args;
    assert s[1 + |m.args|..1 + |m.args| + |m.payload|] == m.payload;
  }

  // ------------------------------------------------------------------ replies

  // How many bytes answer a command at once; the requests the main loop drains answer later.
  function ReplyCount(d: Dev, m: Command): nat {
    if m.payload != [] then
      if |m.payload| > PAYLOAD_MAX then 1
      else if m.op == FW_ECHO_PAYLOAD then 4
      else 1
    else if m.op == RESYNC then (if d.terminatorDue then 0 else 1)
    else if m.op in {DMG_CART_READ, AGB_CART_READ, AGB_CART_READ_SRAM, AGB_CART_READ_EEPROM,
                     AGB_CART_READ_3D_MEMORY, CALC_CRC32, FW_BENCH_TX} then 0
    else if m.op == QUERY_FW_INFO then 24
    else if m.op == GET_VARIABLE then 4
    else if m.op == GET_VAR_STATE then VAR_STATE_LEN
    else if m.op == AGB_READ_GPIO_RTC then 8
    else if m.op == FW_DUMP_PAYLOAD then 2 + Min(d.v16[TRANSFER_SIZE], PAYLOAD_MAX)
    else if Known(m.op) || m.op in {FW_SET_STEP, FW_SET_LATCH} then 1
    else 0
  }

  // Every path answers an exact count, fixed by the command and the state it found.
  lemma RepliesCounted(c: Chan, d: Dev, m: Command)
    requires Declared(c, d) && Idle(c) && Legal(c, d, m)
    ensures |Perform(c, d, m).reply| == ReplyCount(d, m)
  {
    var a := Over(c.arg, m.args);
    if m.payload != [] {
      PayloadLengths(d, m.op, a);
    } else if m.op != RESYNC && m.op != CMD_NULL {
      ExecuteCounted(d, m, a, c.pay, c.lastPay);
    }
  }

  lemma PayloadLengths(d: Dev, op: byte, a: Args)
    ensures PayloadLen(d, op, a) > 0 ==>
              op in {CART_WRITE_FLASH_CMD, DMG_SET_BANK_CHANGE_CMD, SET_VAR_STATE} || TakesTransfer(op)
  {
  }

  lemma ExecuteCounted(d: Dev, m: Command, a: Args, pay: Pay, lastPay: nat)
    requires m.payload == [] && m.op != RESYNC && m.op != CMD_NULL && PayloadLen(d, m.op, a) == 0
    ensures |Execute(d, m.op, a, pay, lastPay).reply| == ReplyCount(d, m)
  {
    hide SetVariable, GetVarState, Pairs;
  }

  // ------------------------------------------------------------------ the page terminator

  // The last command without a payload was AGB_CART_READ_3D_MEMORY; those with one do not count.
  predicate TerminatorDue(due: bool, ms: seq<Command>)
    decreases |ms|
  {
    if ms == [] then due
    else
      var m := ms[|ms| - 1];
      if m.payload != [] then TerminatorDue(due, ms[..|ms| - 1])
      else m.op == AGB_CART_READ_3D_MEMORY
  }

  predicate LeavesTerminator(drain: Drain, d: Dev) {
    drain(d).terminatorDue == d.terminatorDue
  }

  lemma PerformTerminator(c: Chan, d: Dev, m: Command)
    requires Declared(c, d) && Idle(c) && Legal(c, d, m)
    ensures Perform(c, d, m).dev.terminatorDue ==
            if m.payload != [] then d.terminatorDue else m.op == AGB_CART_READ_3D_MEMORY
  {
    hide Execute, PayloadDone, ArgLen, PayloadLen;
    var a := Over(c.arg, m.args);
    if m.payload == [] {
      ExecuteTerminator(d, m.op, a, c.pay, c.lastPay);
    } else if |m.payload| <= PAYLOAD_MAX {
      PartwayLength(d, m.op, a);
      PayloadTerminator(Opened(d, m.op), m.op, a, Over(c.pay, m.payload), |m.payload|);
    }
  }

  lemma PayloadTerminator(d: Dev, op: byte, a: Args, pay: Pay, got: nat)
    requires got == PayloadLen(d, op, a) <= PAYLOAD_MAX
    ensures PayloadDone(d, op, a, pay, got).dev.terminatorDue == d.terminatorDue
  {
    hide Pairs, Zip, Banks, Fnv, PayloadLen, Longs, Shorts;
  }

  lemma ExecuteTerminator(d: Dev, op: byte, a: Args, pay: Pay, lastPay: nat)
    ensures Execute(d, op, a, pay, lastPay).dev.terminatorDue == (op == AGB_CART_READ_3D_MEMORY)
  {
    hide ExecuteSession, ExecuteCart, ExecutePrivate;
    var e: Dev := d.(terminatorDue := false);
    SessionTerminator(e, op, a);
    CartTerminator(e, op, a);
    PrivateTerminator(e, op, a, pay, lastPay);
  }

  lemma SessionTerminator(d: Dev, op: byte, a: Args)
    ensures ExecuteSession(d, op, a).dev.terminatorDue == d.terminatorDue
  {
    hide GetVarState, FwInfo, Pairs, GetVariable, Long;
  }

  lemma CartTerminator(d: Dev, op: byte, a: Args)
    ensures ExecuteCart(d, op, a).dev.terminatorDue == (d.terminatorDue || op == AGB_CART_READ_3D_MEMORY)
  {
    hide Long, Word;
  }

  lemma PrivateTerminator(d: Dev, op: byte, a: Args, pay: Pay, lastPay: nat)
    ensures ExecutePrivate(d, op, a, pay, lastPay).dev.terminatorDue == d.terminatorDue
  {
    hide Long, Put16;
  }

  lemma TerminatorCons(due: bool, m: Command, ms: seq<Command>)
    ensures TerminatorDue(due, [m] + ms)
            == TerminatorDue(if m.payload != [] then due else m.op == AGB_CART_READ_3D_MEMORY, ms)
    decreases |ms|
  {
    var all := [m] + ms;
    if ms == [] {
      assert all[..|all| - 1] == [];
    } else {
      assert all[..|all| - 1] == [m] + ms[..|ms| - 1];
      TerminatorCons(due, m, ms[..|ms| - 1]);
    }
  }

  lemma {:induction false} TerminatorAfter(c: Chan, d: Dev, ms: seq<Command>, drain: Drain)
    requires Declared(c, d) && Idle(c) && AllLegal(c, d, ms, drain)
    requires forall e: Dev :: LeavesTerminator(drain, e)
    ensures PerformAll(c, d, ms, drain).dev.terminatorDue == TerminatorDue(d.terminatorDue, ms)
    decreases ms
  {
    hide Perform;
    if ms != [] {
      var r := Perform(c, d, ms[0]);
      PerformTerminator(c, d, ms[0]);
      assert LeavesTerminator(drain, r.dev);
      TerminatorAfter(r.chan, drain(r.dev), ms[1..], drain);
      assert [ms[0]] + ms[1..] == ms;
      TerminatorCons(d.terminatorDue, ms[0], ms[1..]);
    }
  }

  // A bare 0x00 goes unanswered exactly when the last command without a payload asked for a 3D
  // memory page: not only straight after it, as proto.h has it, but also across any number of
  // commands that carry a payload.
  lemma ResyncUnanswered(ms: seq<Command>, drain: Drain)
    requires AllLegal(Quiet, Start, ms, drain) && forall e: Dev :: LeavesTerminator(drain, e)
    ensures var r := PerformAll(Quiet, Start, ms, drain);
            Legal(r.chan, r.dev, Command(RESYNC, [], []))
            && (Perform(r.chan, r.dev, Command(RESYNC, [], [])).reply == [] <==> TerminatorDue(false, ms))
  {
    TerminatorAfter(Quiet, Start, ms, drain);
  }

  // Either may come at any time.
  lemma BothLegal(c: Chan, d: Dev, blob: seq<byte>)
    requires Declared(c, d) && |blob| == VAR_STATE_LEN
    ensures Legal(c, d, Command(AGB_CART_READ_3D_MEMORY, [], []))
    ensures Legal(c, d, Command(SET_VAR_STATE, [], blob))
  {
  }

  lemma ResyncAcrossPayload(blob: seq<byte>, drain: Drain)
    requires |blob| == VAR_STATE_LEN && forall e: Dev :: LeavesTerminator(drain, e)
    ensures var ms := [Command(AGB_CART_READ_3D_MEMORY, [], []), Command(SET_VAR_STATE, [], blob)];
            AllLegal(Quiet, Start, ms, drain)
            && var r := PerformAll(Quiet, Start, ms, drain);
               Legal(r.chan, r.dev, Command(RESYNC, [], []))
               && Perform(r.chan, r.dev, Command(RESYNC, [], [])).reply == []
  {
    hide Legal, Perform, PerformAll;
    var page, restore := Command(AGB_CART_READ_3D_MEMORY, [], []), Command(SET_VAR_STATE, [], blob);
    var ms := [page, restore];
    assert ms[..1] == [page] && ms[1..] == [restore] && [restore][1..] == [];
    BothLegal(Quiet, Start, blob);
    var r := Perform(Quiet, Start, page);
    BothLegal(r.chan, drain(r.dev), blob);
    ResyncUnanswered(ms, drain);
  }

  // ------------------------------------------------------------------ bulk intake

  // Payload bytes copied in as far as the buffer goes; the excess is dropped.
  function Splice(pay: Pay, at: nat, s: seq<byte>): Pay {
    if at >= PAYLOAD_MAX then pay
    else
      var fits := Min(PAYLOAD_MAX - at, |s|);
      pay[..at] + s[..fits] + pay[at + fits..]
  }

  // fw_proto_feed_bulk() on an open payload, given no more than what is left of it.
  function Bulk(was: Chan, d: Dev, s: seq<byte>): (r: Rx)
    requires Declared(was, d) && 0 < |s| <= was.payNeed - was.payGot
    ensures Declared(r.chan, r.dev)
  {
    var c := was.(pay := Splice(was.pay, was.payGot, s), payGot := was.payGot + |s|,
                  bytes := (was.bytes + |s|) % 0x1_0000_0000);
    if c.payGot >= c.payNeed then Finish(c, d) else Rx(c, d, [])
  }

  lemma SpliceCons(pay: Pay, at: nat, s: seq<byte>)
    requires s != []
    ensures Splice(pay, at, s) ==
            Splice(if at < PAYLOAD_MAX then pay[at := s[0]] else pay, at + 1, s[1..])
  {
  }

  lemma BulkOne(c: Chan, d: Dev, b: byte)
    requires Declared(c, d) && c.payNeed != 0
    ensures Bulk(c, d, [b]) == Feed(c, d, b)
  {
    hide PayloadDone, PayloadLen;
    SpliceCons(c.pay, c.payGot, [b]);
  }

  lemma BulkCons(c: Chan, d: Dev, s: seq<byte>)
    requires Declared(c, d) && 1 < |s| <= c.payNeed - c.payGot
    ensures var r := Feed(c, d, s[0]);
            !Idle(r.chan) && r.dev == d && r.reply == [] && r.chan.payNeed == c.payNeed
            && r.chan.payGot == c.payGot + 1 && Bulk(r.chan, d, s[1..]) == Bulk(c, d, s)
  {
    hide Feed, PayloadDone, PayloadLen, Splice;
    SpliceCons(c.pay, c.payGot, s);
    OpenByte(c, d, s[0]);
    Counts(c.bytes, |s| - 1);
  }

  lemma Counts(a: nat, b: nat)
    ensures ((a + 1) % 0x1_0000_0000 + b) % 0x1_0000_0000 == (a + 1 + b) % 0x1_0000_0000
  {
  }

  // A run of payload bytes taken at once is the same bytes taken one at a time.
  lemma {:induction false} BulkIsBytes(c: Chan, d: Dev, s: seq<byte>, drain: Drain)
    requires Declared(c, d) && 0 < |s| <= c.payNeed - c.payGot
    ensures var r := Bulk(c, d, s);
            FeedAll(c, d, s, drain) == if Idle(r.chan) then r.(dev := drain(r.dev)) else r
    decreases |s|
  {
    hide Feed, Bulk;
    if |s| == 1 {
      assert s == [s[0]];
      FeedOne(c, d, s[0], drain);
      BulkOne(c, d, s[0]);
    } else {
      BulkCons(c, d, s);
      var r := Feed(c, d, s[0]);
      BulkIsBytes(r.chan, d, s[1..], drain);
    }
  }
}
