/** What endpoint 2 does, seen from outside: its host, its callers, and the queue of TxQueue between
    them.  Moves says of each operation exactly what it changes, Promised what both ends can rely
    on.  Ep2Link proves that the two directions of the driver move like this. */
module Ep2Spec {
  import opened Bytes
  import Q = TxQueue
  import R = RxEngine

  datatype Op =
    // the host and the SIE
    | Submit(data: seq<byte>)       // the host has one more OUT packet to send
    | OutToken(lost: bool)          // it sends that packet; lost: our handshake never reaches it
    | InToken(lost: bool)           // it polls; lost: its handshake never reaches us
    | Ep0Token                      // a transaction on another endpoint
    // the service routine
    | Interrupt                     // entered with the transfer flag set
    | Advance                       // one byte of the copy it was left in, or that copy's end
    | Idle                          // entered with nothing latched
    // thread mode
    | Begin(base: seq<byte>, total: nat)
    | Produce(at: nat, b: byte)
    | Publish(avail: nat)
    | End
    | Queue(buf: seq<byte>)
    | Kick
    | TakeBegin(max: nat)
    | TakeByte
    | TakeDone
    | Credit
    // session boundaries
    | SessionFlush
    | BusReset

  // Bulk IN, towards the host.
  datatype Up = Up(
    tx: Q.Tx,
    base: seq<byte>,                // the nominated region, produced or not
    fill: nat,                      // bytes of the refill already copied
    same: bool,                     // the host expects the PID the device will send
    got: seq<byte>,                 // bytes the host accepted
    queued: seq<byte>)              // bytes taken by tx_queue() or published, and not withdrawn

  // Bulk OUT, towards the device.
  datatype Down = Down(
    ack: bool,                      // R_RES is ACK
    flag: bool,                     // the transfer flag is set for an OUT
    hand: nat,                      // length of the packet latched and not picked up
    copying: bool, k: nat, len: nat,   // inside rx_deliver_at(): k of len bytes are in the ring
    used: nat,                      // rx_used()
    taking: bool, n: nat, out: seq<byte>,
    ahead: bool,                    // the device has accepted a packet whose handshake was lost
    now: Option<seq<byte>>,         // the packet the host is sending
    done: seq<byte>,                // bytes the host saw acknowledged
    accepted: seq<byte>,            // bytes the SIE accepted
    gone: seq<byte>,                // those from before the last session boundary
    taken: seq<byte>)               // what bl_usb_rx() has returned since

  // ep0: the transfer flag is set for another endpoint.
  datatype State = State(lean: bool, dbuf: bool, ep0: bool, up: Up, down: Down)

  ghost function PowerOn(lean: bool, dbuf: bool): State {
    State(lean, dbuf, false, Up(Q.Start, [], 0, true, [], []),
          Down(true, false, 0, false, 0, 0, 0, false, 0, [], false, None, [], [], [], []))
  }

  // RB_UC_INT_BUSY: a set transfer flag holds the SIE off.
  ghost predicate Free(s: State) {
    s.up.tx.latched == [] && !s.down.flag && !s.ep0
  }

  // Thread mode runs only while the service routine is not inside a copy.
  ghost predicate Runs(s: State) {
    !s.up.tx.refilling && !s.down.copying
  }

  ghost predicate Room(d: Down) {
    R.RING - d.used >= R.CREDIT
  }

  // R_RES may be ACK exactly while 64 more bytes fit the 512 of the ring.
  lemma RoomIs(d: Down)
    ensures Room(d) <==> d.used <= 448
  {
  }

  // ------------------------------------------------------------------ the host and the SIE

  // The packet is stored; a repeat is acknowledged again and dropped.
  ghost function Received(d: Down, data: seq<byte>, lost: bool): Down {
    d.(flag := true, hand := if d.ahead then 0 else |data|,
       accepted := if d.ahead then d.accepted else d.accepted + data,
       ahead := lost, now := if lost then d.now else None, done := if lost then d.done else d.done + data)
  }

  // The host takes the oldest staged packet once, and the device moves on when it hears of it.
  ghost function Polled(u: Up, lost: bool): Up
    requires u.tx.flight != []
  {
    u.(got := if u.same then u.got + u.tx.flight[0].data else u.got, same := !lost,
       tx := if lost then u.tx else Q.Send(u.tx))
  }

  // ------------------------------------------------------------------ the service routine

  ghost function Pumps(u: Up): Up
    requires Q.Inv(u.tx)
  {
    u.(tx := Q.Pumps(u.tx))
  }

  // Nothing but R_RES may move, and that only by the credit rule: exact in the plain build.
  ghost predicate Credited(lean: bool, d: Down, e: Down) {
    e == d.(ack := e.ack) && (lean || (e.ack <==> Room(e)))
  }

  ghost predicate Rested(lean: bool, d: Down, e: Down) {
    Credited(lean, d, e) && (lean ==> e == d)
  }

  // An OUT: a packet is picked up, or a retransmission or an empty packet is dropped.
  ghost predicate PickedUp(s: State, e: Down) {
    if s.down.hand != 0 then
      e == s.down.(copying := true, k := 0, len := s.down.hand, hand := 0, flag := !s.dbuf, ack := e.ack)
    else
      e == s.down.(flag := false, ack := e.ack)
      && (e.ack ==> Room(e)) && (s.dbuf || !s.lean ==> (e.ack <==> Room(e)))
  }

  ghost predicate Served(s: State, u: State)
    requires Q.Inv(s.up.tx)
  {
    if !Runs(s) then u == s
    else if s.down.flag then
      PickedUp(s, u.down) && u == s.(up := if u.down.copying then s.up else Pumps(s.up), down := u.down)
    else if s.up.tx.latched != [] then
      u == s.(up := s.up.(tx := Q.Complete(s.up.tx), fill := 0), down := u.down)
      && if u.up.tx.refilling then u.down == s.down else Rested(s.lean, s.down, u.down)
    else if s.ep0 then
      u == s.(ep0 := false, up := Pumps(s.up), down := u.down) && Rested(s.lean, s.down, u.down)
    else u == s
  }

  ghost function CopiedOut(s: State, ack: bool): Down {
    s.down.(copying := false, k := 0, len := 0, used := s.down.used + s.down.len,
            flag := s.down.flag && s.dbuf, ack := ack)
  }

  ghost predicate Advanced(s: State, u: State)
    requires Q.Inv(s.up.tx)
  {
    if s.up.tx.refilling then
      if s.up.fill < Q.PKT then u == s.(up := s.up.(fill := s.up.fill + 1))
      else
        u == s.(up := s.up.(tx := Q.Refilled(s.up.tx), fill := 0), down := u.down)
        && Rested(s.lean, s.down, u.down)
    else if s.down.copying then
      if s.down.k < s.down.len then u == s.(down := s.down.(k := s.down.k + 1))
      else
        u == s.(up := Pumps(s.up), down := CopiedOut(s, u.down.ack)) && (u.down.ack <==> Room(u.down))
    else u == s
  }

  // ------------------------------------------------------------------ thread mode

  ghost function Published(u: Up): nat {
    if u.tx.region.Region? then |u.tx.region.published| else 0
  }

  ghost predicate MayPublish(s: State, avail: nat) {
    && Runs(s) && s.up.tx.region.Region? && Published(s.up) <= avail <= s.up.tx.region.total <= |s.up.base|
    && (avail % Q.PKT == 0 || avail == s.up.tx.region.total)
  }

  // What a withdrawal leaves owed.
  ghost function Nominated(u: Up, r: Q.Region): Up {
    u.(tx := Q.Nominate(u.tx, r), queued := u.tx.wire + Q.Flat(Q.Kept(u.tx)) + u.tx.ring)
  }

  ghost predicate MovesProducer(op: Op, s: State, u: State)
    requires Q.Inv(s.up.tx) && (op.Begin? || op.Produce? || op.Publish? || op.End? || op.Queue? || op.Kick?)
  {
    match op
    case Begin(base, total) =>
      u == if Runs(s) && total <= |base| && total < 0x1_0000
           then s.(up := Nominated(s.up, Q.Region(total, [], 0)).(base := base))
           else s
    case Produce(at, b) =>
      u == if Published(s.up) <= at < |s.up.base| then s.(up := s.up.(base := s.up.base[at := b])) else s
    case Publish(avail) =>
      // whole packets, or all that is left
      if MayPublish(s, avail) then
        var more := s.up.base[Published(s.up)..avail];
        Q.Enabled(s.up.tx, Q.PublishStep(more))
        && u == s.(up := s.up.(tx := Q.Publish(s.up.tx, more), queued := s.up.queued + more))
      else u == s
    case End =>
      u == if Runs(s) then s.(up := Nominated(s.up, Q.NoRegion)) else s
    case Queue(buf) =>
      // one locked chunk of tx_queue(); callers do not queue while a region is nominated
      u == if Runs(s) && s.up.tx.region.NoRegion? then s.(up := Stored(s.up, buf)) else s
    case Kick =>
      u == if Runs(s) then s.(up := s.up.(tx := Q.Kick(s.up.tx))) else s
  }

  ghost function Stored(u: Up, buf: seq<byte>): Up {
    u.(tx := Q.Store(u.tx, buf), queued := u.queued + buf[..Q.Room(u.tx, |buf|)])
  }

  // bl_usb_rx(), which an interrupt may enter between any two of its bytes.
  ghost predicate MovesTaker(op: Op, s: State, u: State)
    requires op.TakeBegin? || op.TakeByte? || op.TakeDone? || op.Credit?
  {
    var d := s.down;
    match op
    case TakeBegin(max) =>
      u == if Runs(s) && !d.taking then s.(down := d.(taking := true, out := [], n := Min(d.used, max))) else s
    case TakeByte =>
      if Runs(s) && d.taking && |d.out| < d.n then
        u == s.(down := d.(out := u.down.out)) && TookOne(d, u.down.out)
      else u == s
    case TakeDone =>
      u == if Runs(s) && d.taking && |d.out| == d.n <= d.used
           then s.(down := d.(taking := false, taken := d.taken + d.out, used := d.used - d.n)) else s
    case Credit =>
      u == if Runs(s) then s.(down := d.(ack := Room(d))) else s
  }

  // One byte more, and all of them the oldest the SIE accepted and nobody has had.
  ghost predicate TookOne(d: Down, out: seq<byte>) {
    var i := |d.gone + d.taken|;
    |out| == |d.out| + 1 && i + |out| <= |d.accepted| && out == d.accepted[i..i + |out|]
  }

  // ------------------------------------------------------------------ session boundaries

  // usb_session_flush() runs inside endpoint 0's service; the toggles survive it, so the packet
  // the host may have must be settled first (FlushNeedsSettled).
  ghost predicate MayFlush(s: State) {
    s.up.tx.latched == [] && !s.down.flag && Runs(s) && !s.down.taking && s.up.same
  }

  // usb_bus_reset() runs with no transfer latched, and sets both ends back to DATA0.
  ghost predicate MayReset(s: State) {
    Free(s) && Runs(s) && !s.down.taking
  }

  ghost function FlushedUp(u: Up): Up {
    u.(tx := Q.Flush(u.tx), queued := u.tx.wire)
  }

  ghost function FlushedDown(d: Down): Down {
    d.(used := 0, ack := true, gone := d.accepted, taken := [])
  }

  // The host keeps what it has; what it was sending goes with the reset.
  ghost function ResetUp(u: Up): Up
    requires !u.same ==> u.tx.flight != []
  {
    u.(tx := Q.Flush(if u.same then u.tx else Q.Send(u.tx)), queued := u.got, same := true)
  }

  ghost function ResetDown(d: Down): Down {
    FlushedDown(d).(ahead := false, now := None, done := d.accepted)
  }

  // ------------------------------------------------------------------ every operation

  ghost predicate Moves(op: Op, s: State, u: State)
    requires Q.Inv(s.up.tx) && (!s.up.same ==> s.up.tx.flight != [])
  {
    match op
    case Submit(data) =>
      u == if s.down.now.None? && |data| <= R.WINDOW then s.(down := s.down.(now := Some(data))) else s
    case OutToken(lost) =>
      u == if Free(s) && s.down.ack && s.down.now.Some? then s.(down := Received(s.down, s.down.now.value, lost))
           else s
    case InToken(lost) =>
      u == if Free(s) && s.up.tx.flight != [] then s.(up := Polled(s.up, lost)) else s
    case Ep0Token => u == if Free(s) then s.(ep0 := true) else s
    case Interrupt => Served(s, u)
    case Advance => Advanced(s, u)
    case Idle =>
      if Free(s) && Runs(s) then u == s.(up := Pumps(s.up), down := u.down) && Rested(s.lean, s.down, u.down)
      else u == s
    case Begin(_, _) => MovesProducer(op, s, u)
    case Produce(_, _) => MovesProducer(op, s, u)
    case Publish(_) => MovesProducer(op, s, u)
    case End => MovesProducer(op, s, u)
    case Queue(_) => MovesProducer(op, s, u)
    case Kick => MovesProducer(op, s, u)
    case TakeBegin(_) => MovesTaker(op, s, u)
    case TakeByte => MovesTaker(op, s, u)
    case TakeDone => MovesTaker(op, s, u)
    case Credit => MovesTaker(op, s, u)
    case SessionFlush => u == if MayFlush(s) then s.(up := FlushedUp(s.up), down := FlushedDown(s.down)) else s
    case BusReset => u == if MayReset(s) then s.(up := ResetUp(s.up), down := ResetDown(s.down)) else s
  }

  // ------------------------------------------------------------------ what both ends rely on

  // What the host has accepted on IN: exactly the wire, or one packet more, which the device is
  // still going to repeat.
  ghost predicate InInStep(t: Q.Tx, same: bool, got: seq<byte>) {
    if same then got == t.wire
    else t.latched == [] && t.flight != [] && got == t.wire + t.flight[0].data
  }

  ghost function Owed(d: Down): seq<byte> {
    if d.ahead && d.now.Some? then d.now.value else []
  }

  ghost predicate Promised(s: State)
    ensures Promised(s) ==> Sound(s.up)
  {
    && Sound(s.up)
    // IN: the host holds the first bytes of what was queued and published, in order, once
    && s.up.got <= s.up.queued
    // an idle endpoint has no more of them
    && (!s.up.tx.armed && !s.up.tx.kickDue ==> s.up.got == s.up.queued)
    // OUT: bl_usb_rx() has returned the first bytes of what the host sent, in order, once
    && s.down.gone + s.down.taken <= s.down.done + Owed(s.down)
    // with the receive side at rest it has returned them all
    && (s.down.used == 0 && !s.down.copying && !s.down.flag ==>
          s.down.gone + s.down.taken == s.down.done + Owed(s.down))
  }

  // What lies behind it: the queue is in order, and the host is where the wire is.
  ghost predicate Sound(u: Up)
    ensures Sound(u) ==> Q.Inv(u.tx) && Q.Ledger(u.tx) == u.queued && (!u.same ==> u.tx.flight != [])
  {
    Q.Inv(u.tx) && Q.Ledger(u.tx) == u.queued && InInStep(u.tx, u.same, u.got)
  }

  // What the run has made of the link, one state per operation.
  ghost predicate Trace(ops: seq<Op>, hist: seq<State>)
    ensures Trace(ops, hist) ==> |hist| == |ops| + 1
  {
    && |hist| == |ops| + 1
    && (forall i :: 0 <= i < |hist| ==> Promised(hist[i]))
    && (forall i :: 0 <= i < |ops| ==> Moves(ops[i], hist[i], hist[i + 1]))
  }

  lemma TraceStarts(s: State)
    requires Promised(s)
    ensures Trace([], [s])
  {
  }

  lemma TraceGrows(ops: seq<Op>, hist: seq<State>, op: Op, u: State)
    requires Trace(ops, hist) && Promised(u) && Moves(op, hist[|ops|], u)
    ensures Trace(ops + [op], hist + [u])
  {
    hide Promised, Moves;
  }

  // ------------------------------------------------------------------ bulk IN, step by step

  // No step but a send or a flush moves the wire or the packet that is next on it.
  lemma FrontStays(t: Q.Tx, s: Q.Step, same: bool, got: seq<byte>)
    requires Q.Inv(t) && Q.Enabled(t, s) && Q.PublishesWhole(t, s) && !s.SendStep?
    requires InInStep(t, same, got) && (s.FlushStep? ==> same)
    ensures InInStep(Q.Next(t, s), same, got)
  {
    Q.StepKeeps(t, s);
    WireStays(t, s);
    if !same {
      assert t.armed;
    }
  }

  lemma WireStays(t: Q.Tx, s: Q.Step)
    requires Q.Inv(t) && Q.Enabled(t, s) && Q.PublishesWhole(t, s) && !s.SendStep?
    ensures Q.Next(t, s).wire == t.wire
  {
    match s
    case PublishStep(bytes) => Q.PublishKeeps(t, bytes);
    case KickStep => Q.KickKeeps(t);
    case CompleteStep => Q.CompleteKeeps(t);
    case RefillStep => Q.RefilledKeeps(t);
    case _ =>
  }

  // A flush that keeps the toggles keeps the two ends in step exactly when no handshake is
  // outstanding: otherwise the next packet, whatever it holds, carries a PID the host has seen.
  lemma FlushNeedsSettled(t: Q.Tx, same: bool, got: seq<byte>)
    requires Q.Inv(t) && InInStep(t, same, got)
    ensures InInStep(Q.Flush(t), same, got) <==> same
  {
  }

  // What it costs: the first packet of whatever is queued next reaches the wire and not the host.
  lemma UnsettledFlushLoses(u: Up, x: seq<byte>)
    requires Sound(u) && !u.same && !u.tx.refilling && x != []
    ensures var p, t := x[..Min(|x|, Q.LOCK_CHUNK)], Q.Kick(Stored(FlushedUp(u), x).tx);
            t.flight == [Q.Packet(p, false)]
            && var v := Polled(FlushedUp(u).(tx := t), false);
               v.tx.wire == u.tx.wire + p && v.got == u.got && v.same
  {
    QueuedAfterFlush(u.tx, x);
  }

  lemma QueuedAfterFlush(t: Q.Tx, x: seq<byte>)
    requires x != [] && !t.refilling
    ensures var p := x[..Min(|x|, Q.LOCK_CHUNK)];
            Q.Kick(Q.Store(Q.Flush(t), x)) ==
            Q.Flush(t).(flight := [Q.Packet(p, false)], used := |p|, armed := true,
                        lastFull := |p| == Q.PKT, kickDue := false)
  {
    var f, p := Q.Flush(t), x[..Min(|x|, Q.LOCK_CHUNK)];
    assert [] + p == p && p[..|p|] == p && p[|p|..] == [];
    assert Q.Store(f, x) == f.(ring := p, used := |p|, kickDue := true);
  }

  // Such a state is three operations from power-on: a byte is queued, and the host takes it while
  // its handshake is lost.
  lemma UnsettledIsReached(lean: bool, dbuf: bool, b: byte) returns (hist: seq<State>)
    ensures Trace([Queue([b]), Kick, InToken(true)], hist) && hist[0] == PowerOn(lean, dbuf)
    ensures var u := hist[3].up; Sound(u) && !u.same && !u.tx.refilling && u.got == [b] && u.tx.wire == []
  {
    var s0 := PowerOn(lean, dbuf);
    var s1 := s0.(up := Stored(s0.up, [b]));
    var s2 := s1.(up := s1.up.(tx := Q.Kick(s1.up.tx)));
    var s3 := s2.(up := s2.up.(got := [b], same := false));
    OneByteQueued(b);
    Queues(s0, s1, b);
    Kicks(s1, s2, b);
    Hears(s2, s3, b);
    hide *;
    TraceStarts(s0);
    TraceGrows([], [s0], Queue([b]), s1);
    TraceGrows([] + [Queue([b])], [s0] + [s1], Kick, s2);
    TraceGrows([] + [Queue([b])] + [Kick], [s0] + [s1] + [s2], InToken(true), s3);
    hist := [s0] + [s1] + [s2] + [s3];
    assert [] + [Queue([b])] + [Kick] + [InToken(true)] == [Queue([b]), Kick, InToken(true)];
  }

  ghost predicate Fresh(d: Down) {
    !d.flag && !d.copying && d.now.None? && !d.ahead && d.gone == d.taken == d.done == d.accepted == []
  }

  lemma Queues(s: State, u: State, b: byte)
    requires s == PowerOn(s.lean, s.dbuf) && u == s.(up := Stored(s.up, [b]))
    ensures Promised(s) && Promised(u) && Moves(Queue([b]), s, u)
  {
    OneByteQueued(b);
    hide Q.Inv, Q.Ledger, Q.Store;
    assert [] + [b] == [b];
  }

  lemma Kicks(s: State, u: State, b: byte)
    requires Fresh(s.down) && s.up.tx == Q.Store(Q.Start, [b])
    requires Sound(s.up) && s.up.queued == [b] && s.up.got == [] && s.up.same
    requires u == s.(up := s.up.(tx := Q.Kick(s.up.tx)))
    ensures Promised(u) && Moves(Kick, s, u)
  {
    OneByteQueued(b);
    hide Q.Inv, Q.Ledger, Q.Kick;
  }

  lemma Hears(s: State, u: State, b: byte)
    requires Fresh(s.down) && !s.ep0 && s.up.tx == Q.Kick(Q.Store(Q.Start, [b]))
    requires Sound(s.up) && s.up.queued == [b] && s.up.got == [] && s.up.same
    requires u == s.(up := s.up.(got := [b], same := false))
    ensures Promised(u) && Moves(InToken(true), s, u)
  {
    OneByteQueued(b);
    hide Q.Inv, Q.Ledger, Q.Kick, Q.Store;
    assert [] + [b] == [b];
  }

  lemma OneByteQueued(b: byte)
    ensures Q.Room(Q.Start, 1) == 1 && [b][..1] == [b]
    ensures Q.Store(Q.Start, [b]) == Q.Start.(ring := [b], used := 1, kickDue := true)
    ensures Q.Kick(Q.Store(Q.Start, [b])) ==
            Q.Start.(flight := [Q.Packet([b], false)], used := 1, armed := true)
    ensures Q.Inv(Q.Start) && Q.Inv(Q.Store(Q.Start, [b])) && Q.Inv(Q.Kick(Q.Store(Q.Start, [b])))
    ensures Q.Ledger(Q.Start) == [] && Q.Ledger(Q.Store(Q.Start, [b])) == [b]
    ensures Q.Ledger(Q.Kick(Q.Store(Q.Start, [b]))) == [b]
  {
    var t := Q.Store(Q.Start, [b]);
    assert [] + [b] == [b] && [b][1..] == [];
    assert t == Q.Start.(ring := [b], used := 1, kickDue := true);
    Q.FlatOne(Q.Packet([b], false));
  }

  lemma Regroup(w: seq<byte>, p: seq<byte>, f: seq<byte>, r: seq<byte>, x: seq<byte>)
    ensures w + (p + f) + r + x == (w + p) + (f + r + x)
    ensures w + p + r == (w + p) + r
  {
  }

  lemma GotIsFront(t: Q.Tx, same: bool, got: seq<byte>)
    requires Q.Inv(t) && InInStep(t, same, got)
    ensures t.wire <= got <= Q.Ledger(t) && got <= t.wire + Q.Flat(Q.Kept(t)) + t.ring
  {
    if same {
      hide Q.Inv, Q.Flat;
      Regroup(t.wire, [], Q.Flat(t.flight), t.ring, Q.Unstaged(t.region));
      assert [] + Q.Flat(t.flight) == Q.Flat(t.flight) && t.wire + [] == t.wire;
      Regroup(t.wire, [], Q.Flat(Q.Kept(t)), t.ring, []);
      assert [] + Q.Flat(Q.Kept(t)) == Q.Flat(Q.Kept(t));
      assert t.wire + Q.Flat(Q.Kept(t)) + t.ring + [] == t.wire + Q.Flat(Q.Kept(t)) + t.ring;
    } else {
      var p := t.flight[0];
      assert Q.Flat(t.flight) == p.data + Q.Flat(t.flight[1..]);
      Q.FlatOne(p.(credit := false));
      hide Q.Inv, Q.Flat;
      Regroup(t.wire, p.data, Q.Flat(t.flight[1..]), t.ring, Q.Unstaged(t.region));
    }
  }

  lemma QueuedAfter(s: State, u: State, op: Op)
    requires Q.Inv(s.up.tx) && (!s.up.same ==> s.up.tx.flight != [])
    requires (op.Begin? || op.End? || op.SessionFlush? || op.BusReset?) && Moves(op, s, u)
    ensures var v := s.up;
            u.up.queued == v.queued || (v.same && u.up.queued == v.tx.wire) || u.up.queued == v.got
            || (!v.tx.refilling && u.up.queued == v.tx.wire + Q.Flat(Q.Kept(v.tx)) + v.tx.ring)
  {
    hide Q.Inv, Q.Flat, Q.Kept, Q.Flush, Q.Send, Q.Nominate, MovesTaker, Served, Advanced;
  }

  // A withdrawal or a flush cuts a tail off what is owed, and never what the host has.
  lemma CutsTail(s: State, u: State, op: Op)
    requires Sound(s.up)
    requires (op.Begin? || op.End? || op.SessionFlush? || op.BusReset?) && Moves(op, s, u)
    ensures s.up.got <= u.up.queued <= s.up.queued
  {
    hide Q.Inv, Q.Ledger, Q.Flat, Q.Kept, Moves;
    QueuedAfter(s, u, op);
    GotIsFront(s.up.tx, s.up.same, s.up.got);
    if !s.up.tx.refilling {
      Q.WithdrawalCuts(s.up.tx);
    }
  }
}
