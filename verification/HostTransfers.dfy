/** The packet boundaries of Transfers on the whole link: whatever host, interrupt, thread and session
    operations do, the host that finds the endpoint idle has been told where its transfer ends. */
module HostTransfers {
  import opened Bytes
  import Q = TxQueue
  import S = Ep2Spec
  import T = Transfers

  // The wire since the last boundary, packet by packet: a poll whose handshake arrives puts one on
  // it, and so does a reset after a lost one, but behind its own boundary.
  ghost function LogOp(op: S.Op, s: S.State, p: T.Past): T.Past
    requires !s.up.same ==> s.up.tx.flight != []
  {
    var t := s.up.tx;
    match op
    case InToken(lost) =>
      if S.Free(s) && t.flight != [] && !lost then p.(sent := p.sent + [t.flight[0].data]) else p
    case SessionFlush => if S.MayFlush(s) then T.Past(t.wire, []) else p
    case BusReset =>
      if S.MayReset(s) then T.Past(if s.up.same then t.wire else t.wire + t.flight[0].data, []) else p
    case _ => p
  }

  ghost function LogAll(ops: seq<S.Op>, hist: seq<S.State>, n: nat): T.Past
    requires S.Trace(ops, hist) && n <= |ops|
  {
    if n == 0 then T.Past([], [])
    else
      assert S.Promised(hist[n - 1]);
      LogOp(ops[n - 1], hist[n - 1], LogAll(ops, hist, n - 1))
  }

  // ------------------------------------------------------------------ one operation

  lemma ServedTracks(s: S.State, u: S.State, p: T.Past)
    requires Q.Inv(s.up.tx) && S.Served(s, u) && T.Tracks(s.up.tx, p)
    ensures T.Tracks(u.up.tx, p)
  {
    var t := s.up.tx;
    assert Q.Sound(t) && Q.Bounded(t.region) && |t.latched| <= 1;
    hide T.Tracks, Q.Inv, Q.Sound, Q.Pump, Q.Pumps, Q.Complete, Q.Bounded;
    if S.Runs(s) {
      T.PumpsTrack(t, p);
      if t.latched != [] { T.CompleteTracks(t, p); }
    }
  }

  lemma AdvancedTracks(s: S.State, u: S.State, p: T.Past)
    requires Q.Inv(s.up.tx) && S.Advanced(s, u) && T.Tracks(s.up.tx, p)
    ensures T.Tracks(u.up.tx, p)
  {
    var t := s.up.tx;
    assert Q.Sound(t) && Q.Bounded(t.region);
    hide T.Tracks, Q.Inv, Q.Sound, Q.Pump, Q.Pumps, Q.Refilled, Q.Bounded;
    if t.refilling {
      T.RefillTracks(t, p);
    } else {
      T.PumpsTrack(t, p);
    }
  }

  lemma ProducerTracks(op: S.Op, s: S.State, u: S.State, p: T.Past)
    requires Q.Inv(s.up.tx) && (op.Begin? || op.Produce? || op.Publish? || op.End? || op.Queue? || op.Kick?)
    requires S.MovesProducer(op, s, u) && T.Tracks(s.up.tx, p)
    ensures T.Tracks(u.up.tx, p)
  {
    var t := s.up.tx;
    assert Q.Sound(t) && Q.Bounded(t.region);
    hide T.Tracks, Q.Inv, Q.Sound, Q.Pump, Q.Nominate, Q.Store, Q.Bounded;
    match op
    case Begin(base, total) => T.NominateTracks(t, Q.Region(total, [], 0), p);
    case Publish(avail) =>
      if S.MayPublish(s, avail) {
        T.KickTracks(t, Q.Extend(t, s.up.base[S.Published(s.up)..avail]), p);
      }
    case End => T.NominateTracks(t, Q.NoRegion, p);
    case Queue(buf) => T.StoreTracks(t, buf, p);
    case Kick => T.KickTracks(t, t.(kickDue := false), p);
    case Produce(_, _) =>
  }

  // A poll, a flush or a reset.
  lemma WireTracks(op: S.Op, s: S.State, u: S.State, p: T.Past)
    requires Q.Inv(s.up.tx) && (!s.up.same ==> s.up.tx.flight != []) && S.Moves(op, s, u) && T.Tracks(s.up.tx, p)
    requires op.InToken? || op.SessionFlush? || op.BusReset?
    ensures T.Tracks(u.up.tx, LogOp(op, s, p))
  {
    var t := s.up.tx;
    assert Q.Sound(t);
    hide T.Tracks, Q.Inv, Q.Sound, Q.Flush, Q.Send;
    match op
    case InToken(lost) =>
      if S.Free(s) && t.flight != [] && !lost { SendLogged(t, p); }
    case SessionFlush => T.FlushTracks(t, p);
    case BusReset => ResetTracks(s.up, p);
  }

  // Anything else, by what it does to the queue.
  lemma QueueTracks(op: S.Op, s: S.State, u: S.State, p: T.Past)
    requires Q.Inv(s.up.tx) && (!s.up.same ==> s.up.tx.flight != []) && S.Moves(op, s, u) && T.Tracks(s.up.tx, p)
    requires !op.InToken? && !op.SessionFlush? && !op.BusReset?
    ensures T.Tracks(u.up.tx, p)
  {
    var t := s.up.tx;
    assert Q.Bounded(t.region);
    hide T.Tracks, Q.Inv, Q.Pump, Q.Pumps, Q.Bounded, S.Served, S.Advanced, S.MovesProducer;
    match op
    case Interrupt => ServedTracks(s, u, p);
    case Advance => AdvancedTracks(s, u, p);
    case Idle => T.PumpsTrack(t, p);
    case Begin(_, _) => ProducerTracks(op, s, u, p);
    case Produce(_, _) => ProducerTracks(op, s, u, p);
    case Publish(_) => ProducerTracks(op, s, u, p);
    case End => ProducerTracks(op, s, u, p);
    case Queue(_) => ProducerTracks(op, s, u, p);
    case Kick => ProducerTracks(op, s, u, p);
    case _ =>
  }

  lemma MoveTracks(op: S.Op, s: S.State, u: S.State, p: T.Past)
    requires S.Promised(s) && S.Moves(op, s, u) && T.Tracks(s.up.tx, p)
    ensures T.Tracks(u.up.tx, LogOp(op, s, p))
  {
    hide T.Tracks, Q.Inv, S.Promised, S.Moves;
    if op.InToken? || op.SessionFlush? || op.BusReset? {
      WireTracks(op, s, u, p);
    } else {
      QueueTracks(op, s, u, p);
    }
  }

  lemma SendLogged(t: Q.Tx, p: T.Past)
    requires Q.Sound(t) && t.latched == [] && t.flight != [] && T.Tracks(t, p)
    ensures T.Tracks(Q.Send(t), p.(sent := p.sent + [t.flight[0].data]))
  {
    T.SendTracks(t, p);
  }

  lemma ResetTracks(u: S.Up, p: T.Past)
    requires !u.same ==> u.tx.flight != []
    ensures T.Tracks(S.ResetUp(u).tx, T.Past(if u.same then u.tx.wire else u.tx.wire + u.tx.flight[0].data, []))
  {
    T.FlushTracks(if u.same then u.tx else Q.Send(u.tx), p);
  }

  // ------------------------------------------------------------------ every run

  lemma {:induction false} TraceTracks(ops: seq<S.Op>, hist: seq<S.State>, lean: bool, dbuf: bool, n: nat)
    requires S.Trace(ops, hist) && hist[0] == S.PowerOn(lean, dbuf) && n <= |ops|
    ensures T.Tracks(hist[n].up.tx, LogAll(ops, hist, n))
  {
    hide T.Tracks, S.Promised, S.Moves, LogOp;
    if n == 0 {
      T.StartTracks();
    } else {
      TraceTracks(ops, hist, lean, dbuf, n - 1);
      assert S.Promised(hist[n - 1]) && S.Moves(ops[n - 1], hist[n - 1], hist[n]);
      MoveTracks(ops[n - 1], hist[n - 1], hist[n], LogAll(ops, hist, n - 1));
    }
  }

  // In every run of the link from power-on, lost handshakes, flushes and resets included: an empty
  // packet only follows a full one, and whenever the endpoint is idle the host has everything on the
  // wire and the last packet it was sent since the boundary was not full.
  lemma EveryTransferEnds(ops: seq<S.Op>, hist: seq<S.State>, lean: bool, dbuf: bool, n: nat)
    requires S.Trace(ops, hist) && hist[0] == S.PowerOn(lean, dbuf) && n <= |ops|
    ensures var u, p := hist[n].up, LogAll(ops, hist, n);
            u.tx.wire == p.before + T.Concat(p.sent) && T.WellCut(p.sent)
            && (!u.tx.armed ==> u.got == u.tx.wire)
            && (!u.tx.armed && p.sent != [] ==> |p.sent[|p.sent| - 1]| < Q.PKT)
  {
    hide T.Tracks, LogAll;
    TraceTracks(ops, hist, lean, dbuf, n);
    T.Ended(hist[n].up.tx, LogAll(ops, hist, n));
    IdleHasAll(ops, hist, n);
  }

  lemma IdleHasAll(ops: seq<S.Op>, hist: seq<S.State>, n: nat)
    requires S.Trace(ops, hist) && n <= |ops|
    ensures !hist[n].up.tx.armed ==> hist[n].up.got == hist[n].up.tx.wire
  {
    assert S.Promised(hist[n]);
  }
}
