/** How the host can tell where a bulk IN transfer ends: by a packet that is not full.  The packets
    on the wire are kept one by one since the last session boundary, and every run of TxQueue is
    shown to close a full last packet by an empty one, and to send an empty one for nothing else. */
module Transfers {
  import opened Bytes
  import opened TxQueue

  // The wire at the last session boundary, and what was sent since, packet by packet.
  datatype Past = Past(before: seq<byte>, sent: seq<seq<byte>>)

  ghost function Log(t: Tx, p: Past, s: Step): Past {
    if !Sound(t) || !Enabled(t, s) then p
    else match s
      case SendStep => p.(sent := p.sent + [t.flight[0].data])
      case FlushStep => Past(t.wire, [])
      case _ => p
  }

  ghost function History(t: Tx, p: Past, ss: seq<Step>): Past
    decreases ss
  {
    if ss == [] then p else History(Do(t, ss[0]), Log(t, p, ss[0]), ss[1..])
  }

  function Concat(ps: seq<seq<byte>>): seq<byte> {
    if ps == [] then [] else Concat(ps[..|ps| - 1]) + ps[|ps| - 1]
  }

  function Datas(ps: seq<Packet>): (ds: seq<seq<byte>>)
    ensures |ds| == |ps| && forall i :: 0 <= i < |ps| ==> ds[i] == ps[i].data
  {
    seq(|ps|, i requires 0 <= i < |ps| => ps[i].data)
  }

  // No packet is too long, and an empty one follows a full one directly.
  ghost predicate WellCut(ps: seq<seq<byte>>) {
    && (forall i :: 0 <= i < |ps| ==> |ps[i]| <= PKT)
    && (forall i, j :: 0 <= i < |ps| && 0 <= j < |ps| && j == i + 1 && ps[j] == [] ==> |ps[i]| == PKT)
    && (ps != [] ==> ps[0] != [])
  }

  // What was sent and what is staged.
  ghost function Queue(t: Tx, p: Past): seq<seq<byte>> {
    p.sent + Datas(t.flight)
  }

  // tx_last_full speaks of the packet staged last, and an idle endpoint has closed its transfer.
  ghost predicate Ends(t: Tx, q: seq<seq<byte>>) {
    if q == [] then !t.armed
    else (t.lastFull <==> |q[|q| - 1]| == PKT) && (!t.armed ==> !t.lastFull)
  }

  ghost predicate Tracks(t: Tx, p: Past) {
    && WellCut(Queue(t, p)) && Ends(t, Queue(t, p))
    && t.wire == p.before + Concat(p.sent)
    && (t.latched != [] ==> p.sent != [] && p.sent[|p.sent| - 1] == t.latched[0].data)
    && (!t.armed ==> t.flight == [])
  }

  // ------------------------------------------------------------------- pumping

  lemma Staged(q: seq<seq<byte>>, d: seq<byte>)
    requires WellCut(q) && |d| <= PKT && (d == [] ==> q != [] && |q[|q| - 1]| == PKT)
    ensures WellCut(q + [d])
  {
  }

  lemma StagedOne(t: Tx, u: Tx, p: Past, d: seq<byte>)
    requires Tracks(t, p) && |d| <= PKT
    requires d == [] ==> Queue(t, p) != [] && t.lastFull
    requires Datas(u.flight) == Datas(t.flight) + [d] && u.wire == t.wire && u.armed
    requires u.lastFull == (|d| == PKT) && (u.latched == [] || u.latched == t.latched)
    ensures Tracks(u, p)
  {
    Staged(Queue(t, p), d);
    assert Queue(u, p) == Queue(t, p) + [d];
  }

  lemma PairTracks(t: Tx, p: Past)
    requires Bounded(t.region) && Tracks(t, p) && |Unstaged(t.region)| >= 2 * PKT
    ensures Tracks(StagePair(t), p)
  {
    var u := StagePair(t);
    var a, b := u.flight[|t.flight|], u.flight[|t.flight| + 1];
    var v := t.(flight := t.flight + [a], armed := true, lastFull := true);
    StagedOne(t, v, p, a.data);
    StagedOne(v, u, p, b.data);
  }

  lemma RegionTracks(t: Tx, p: Past)
    requires Bounded(t.region) && Tracks(t, p) && t.ring == [] && Unstaged(t.region) != []
    ensures Tracks(Pump(t), p)
  {
    var u, rest := Pump(t), Unstaged(t.region);
    var d := rest[..Min(|rest|, PKT)];
    if u == t {
    } else if !t.piped && |rest| >= 2 * PKT {
      PairTracks(t, p);
    } else {
      assert u == StageRegion(t, |d|);
      hide Tracks, Unstaged;
      StagedOne(t, u, p, d);
    }
  }

  lemma RingTracks(t: Tx, p: Past)
    requires Bounded(t.region) && Tracks(t, p) && t.ring != []
    ensures Tracks(Pump(t), p)
  {
    hide Tracks;
    StagedOne(t, Pump(t), p, t.ring[..Min(|t.ring|, PKT)]);
  }

  lemma ClosingTracks(t: Tx, p: Past)
    requires Bounded(t.region) && Tracks(t, p) && Queue(t, p) != []
    requires t.ring == [] && Unstaged(t.region) == [] && (!t.lastFull ==> t.flight == [])
    ensures Tracks(Pump(t), p)
  {
    if t.lastFull {
      StagedOne(t, Pump(t), p, []);
    } else {
      assert Queue(Pump(t), p) == Queue(t, p);
    }
  }

  // Whatever tx_pump() does between two packets.
  lemma PumpTracks(t: Tx, p: Past)
    requires Bounded(t.region) && Tracks(t, p) && t.flight == []
    requires t.ring != [] || Unstaged(t.region) != [] || Queue(t, p) != []
    ensures Tracks(Pump(t), p)
  {
    hide Tracks, Pump;
    if t.ring == [] && Unstaged(t.region) != [] {
      RegionTracks(t, p);
    } else if t.ring != [] {
      RingTracks(t, p);
    } else {
      ClosingTracks(t, p);
    }
  }

  lemma IdleStaged(t: Tx, p: Past)
    requires Tracks(t, p) && !t.armed
    ensures t.flight == []
  {
  }

  lemma PumpsTrack(t: Tx, p: Past)
    requires Bounded(t.region) && Tracks(t, p)
    ensures Tracks(Pumps(t), p)
  {
    hide Tracks, Pump;
    if Pumps(t) != t {
      IdleStaged(t, p);
      PumpTracks(t, p);
    }
  }

  // ------------------------------------------------------------------- the steps

  // What a withdrawal drops is the second of two full packets.
  lemma KeptQueue(t: Tx, p: Past)
    requires Sound(t) && Tracks(t, p)
    ensures var q, k := Queue(t, p), p.sent + Datas(Kept(t));
            k == q || (q != [] && k == q[..|q| - 1] && k != [] && |k[|k| - 1]| == PKT && t.lastFull && t.armed)
  {
    var q, k := Queue(t, p), p.sent + Datas(Kept(t));
    if |Kept(t)| == |t.flight| {
      assert k == q;
    } else {
      assert t.piped;
      assert k == q[..|q| - 1];
      assert k[|k| - 1] == if t.latched != [] then t.latched[0].data else t.flight[0].data;
    }
  }

  lemma NominateTracks(t: Tx, r: Region, p: Past)
    requires Sound(t) && Tracks(t, p)
    ensures Tracks(Nominate(t, r), p)
  {
    KeptQueue(t, p);
    hide Sound;
    var q, u := Queue(t, p), Nominate(t, r);
    assert Queue(u, p) == p.sent + Datas(Kept(t));
    Front(q, |Queue(u, p)|);
    assert q[..|q|] == q;
  }

  lemma ConcatSnoc(ps: seq<seq<byte>>, d: seq<byte>)
    ensures Concat(ps + [d]) == Concat(ps) + d
  {
    assert (ps + [d])[..|ps|] == ps;
  }

  lemma SendTracks(t: Tx, p: Past)
    requires Sound(t) && Enabled(t, SendStep) && Tracks(t, p)
    ensures Tracks(Send(t), Log(t, p, SendStep))
  {
    var u, r := Send(t), Log(t, p, SendStep);
    assert Queue(u, r) == Queue(t, p);
    hide Sound;
    ConcatSnoc(p.sent, t.flight[0].data);
    AppendTwice(p.before, Concat(p.sent), t.flight[0].data);
  }

  lemma Acknowledged(t: Tx, u: Tx, p: Past)
    requires Tracks(t, p) && u == t.(sent := u.sent, latched := [], refilling := u.refilling, piped := u.piped)
    ensures Tracks(u, p) && Queue(u, p) == Queue(t, p)
  {
  }

  lemma LatchedInQueue(t: Tx, p: Past)
    requires Tracks(t, p) && t.latched != []
    ensures Queue(t, p) != []
  {
  }

  lemma CompleteTracks(t: Tx, p: Past)
    requires Sound(t) && Enabled(t, CompleteStep) && Tracks(t, p)
    ensures Tracks(Complete(t), p)
  {
    assert t.armed && (t.piped || t.flight == []);
    hide Tracks, Sound, Queue, Pump, Pumps;
    LatchedInQueue(t, p);
    var u := t.(sent := t.sent + Credit(t.latched), latched := []);
    Acknowledged(t, u, p);
    if u.piped {
      Acknowledged(t, u.(refilling := true), p);
      Acknowledged(t, u.(piped := false), p);
      PumpsTrack(u.(piped := false), p);
    } else {
      PumpTracks(u, p);
      PumpBounded(u);
      PumpsTrack(Pump(u), p);
    }
  }

  lemma PumpBounded(t: Tx)
    requires Bounded(t.region)
    ensures Bounded(Pump(t).region)
  {
  }

  lemma RefillTracks(t: Tx, p: Past)
    requires Sound(t) && Enabled(t, RefillStep) && Tracks(t, p)
    ensures Tracks(Refilled(t), p)
  {
    var u := Refill(t);
    StagedOne(t, u, p, Unstaged(t.region)[..PKT]);
    PumpsTrack(u, p);
  }

  lemma Unmoved(t: Tx, u: Tx, p: Past)
    requires Tracks(t, p) && u.wire == t.wire && u.flight == t.flight && u.latched == t.latched
    requires u.armed == t.armed && u.lastFull == t.lastFull
    ensures Tracks(u, p)
  {
  }

  lemma KickTracks(t: Tx, u: Tx, p: Past)
    requires Sound(t) && Tracks(t, p) && Bounded(u.region)
    requires u == t.(region := u.region, kickDue := u.kickDue)
    ensures Tracks(KickRegion(u), p) && Tracks(KickRing(u), p)
  {
    hide Pump, Sound;
    Unmoved(t, u, p);
    IdleTracks(u, p);
  }

  lemma IdleTracks(t: Tx, p: Past)
    requires Bounded(t.region) && Tracks(t, p)
    ensures !t.armed && (t.ring != [] || Unstaged(t.region) != []) ==> Tracks(Pump(t), p)
  {
    hide Pump;
    if !t.armed && (t.ring != [] || Unstaged(t.region) != []) {
      PumpTracks(t, p);
    }
  }

  lemma StoreTracks(t: Tx, bytes: seq<byte>, p: Past)
    requires Tracks(t, p)
    ensures Tracks(Store(t, bytes), p)
  {
    Unmoved(t, Store(t, bytes), p);
  }

  lemma BoundedIfSound(t: Tx, s: Step)
    requires Sound(t) && Enabled(t, s)
    ensures Bounded(t.region) && (s.PublishStep? ==> Bounded(Extend(t, s.bytes).region))
  {
  }

  lemma StepTracks(t: Tx, p: Past, s: Step)
    requires Tracks(t, p)
    ensures Tracks(Do(t, s), Log(t, p, s))
  {
    hide Tracks, Pump, Pumps, Sound, Nominate, Send, Complete, Refilled;
    if Sound(t) && Enabled(t, s) {
      BoundedIfSound(t, s);
      match s
      case BeginStep(total) => NominateTracks(t, Region(total, [], 0), p);
      case EndStep => NominateTracks(t, NoRegion, p);
      case SendStep => SendTracks(t, p);
      case CompleteStep => CompleteTracks(t, p);
      case RefillStep => RefillTracks(t, p);
      case OtherStep => PumpsTrack(t, p);
      case FlushStep => FlushTracks(t, p);
      case PublishStep(bytes) => KickTracks(t, Extend(t, bytes), p);
      case StoreStep(bytes) => StoreTracks(t, bytes, p);
      case KickStep => KickTracks(t, t.(kickDue := false), p);
    }
  }

  lemma FlushTracks(t: Tx, p: Past)
    ensures Tracks(Flush(t), Past(t.wire, []))
  {
    assert t.wire + [] == t.wire;
  }

  // ------------------------------------------------------------------- every run

  lemma {:induction false} RunTracks(t: Tx, p: Past, ss: seq<Step>)
    requires Tracks(t, p)
    ensures Tracks(Run(t, ss), History(t, p, ss))
    decreases ss
  {
    if ss != [] {
      StepTracks(t, p, ss[0]);
      RunTracks(Do(t, ss[0]), Log(t, p, ss[0]), ss[1..]);
    }
  }

  lemma Front(q: seq<seq<byte>>, n: nat)
    requires WellCut(q) && n <= |q|
    ensures WellCut(q[..n])
  {
  }

  lemma IdleIsClosed(t: Tx, p: Past)
    requires Tracks(t, p) && !t.armed && p.sent != []
    ensures |p.sent[|p.sent| - 1]| < PKT
  {
    assert Queue(t, p) == p.sent;
  }

  lemma Ended(t: Tx, p: Past)
    requires Tracks(t, p)
    ensures t.wire == p.before + Concat(p.sent)
    ensures WellCut(p.sent)
    ensures !t.armed && p.sent != [] ==> |p.sent[|p.sent| - 1]| < PKT
  {
    assert p.sent == Queue(t, p)[..|p.sent|];
    Front(Queue(t, p), |p.sent|);
    if !t.armed && p.sent != [] {
      IdleIsClosed(t, p);
    }
  }

  lemma StartTracks()
    ensures Tracks(Start, Past([], []))
  {
  }

  // From power-on, whatever the schedule and whatever the producer publishes: the packets kept
  // since the last boundary are the wire since then; none is longer than a packet, an empty one
  // only ever follows a full one, and once the endpoint is idle the last one was not full.
  lemma EveryTransferEnds(ss: seq<Step>)
    ensures var t, p := Run(Start, ss), History(Start, Past([], []), ss);
            t.wire == p.before + Concat(p.sent) && WellCut(p.sent)
            && (!t.armed && p.sent != [] ==> |p.sent[|p.sent| - 1]| < PKT)
  {
    StartTracks();
    RunTracks(Start, Past([], []), ss);
    Ended(Run(Start, ss), History(Start, Past([], []), ss));
  }

  ghost predicate EmptyStaged(t: Tx) {
    exists i :: 0 <= i < |t.flight| && t.flight[i].data == []
  }

  lemma PumpEmpties(t: Tx)
    requires Bounded(t.region) && t.flight == [] && !t.piped
    ensures EmptyStaged(Pump(t)) <==> t.ring == [] && Unstaged(t.region) == [] && t.lastFull
  {
    if t.ring == [] && Unstaged(t.region) == [] && t.lastFull {
      assert Pump(t).flight[0].data == [];
    }
  }

  lemma PumpsEmpties(t: Tx)
    requires Bounded(t.region) && (t.armed || (t.flight == [] && !t.piped))
    ensures EmptyStaged(Pumps(t)) <==> EmptyStaged(t)
  {
    hide Pump;
    if Pumps(t) != t {
      PumpEmpties(t);
    }
  }

  lemma PumpedEmpties(t: Tx)
    requires Pumpable(t)
    ensures Bounded(Pump(t).region)
    ensures EmptyStaged(Pumps(Pump(t))) <==> t.ring == [] && Unstaged(t.region) == [] && t.lastFull
  {
    PumpEmpties(t);
    hide EmptyStaged, Pump, Pumps;
    PumpRests(t);
    if Stuck(t) {
      assert Pump(t) == t by { PumpKeeps(t); }
      PumpsEmpties(t);
    } else {
      PumpedRests(t);
    }
  }

  lemma CompleteEmpties(t: Tx, p: Past)
    requires Sound(t) && Enabled(t, CompleteStep) && Tracks(t, p) && !EmptyStaged(t)
    ensures p.sent != []
    ensures EmptyStaged(Complete(t)) <==>
            |p.sent[|p.sent| - 1]| == PKT && t.flight == [] && t.ring == [] && Unstaged(t.region) == []
  {
    var u := t.(sent := t.sent + Credit(t.latched), latched := []);
    if u.piped {
      assert t.flight != [];
      assert Complete(t).flight == t.flight;
    } else {
      assert t.flight == [] && Queue(t, p) == p.sent;
      assert Pumpable(u);
      PumpedEmpties(u);
    }
  }

  lemma RefillEmpties(t: Tx)
    requires Sound(t) && Enabled(t, RefillStep) && !EmptyStaged(t)
    ensures !EmptyStaged(Refilled(t))
  {
    PumpsEmpties(Refill(t));
  }

  lemma ThreadEmpties(t: Tx, s: Step)
    requires Sound(t) && Enabled(t, s) && !EmptyStaged(t)
    requires s.PublishStep? || s.KickStep? || s.OtherStep? || s.StoreStep?
    ensures !EmptyStaged(Next(t, s))
  {
    hide Pump;
    match s
    case PublishStep(bytes) =>
      var u := Extend(t, bytes);
      if KickRegion(u) != u { PumpEmpties(u); }
    case KickStep =>
      var u := t.(kickDue := false);
      if KickRing(u) != u { PumpEmpties(u); }
    case OtherStep => PumpsEmpties(t);
    case StoreStep(bytes) =>
  }

  lemma StepEmpties(t: Tx, p: Past, s: Step)
    requires Sound(t) && Enabled(t, s) && Tracks(t, p) && !EmptyStaged(t)
    ensures EmptyStaged(Next(t, s)) <==>
            s.CompleteStep? && p.sent != [] && |p.sent[|p.sent| - 1]| == PKT
            && t.flight == [] && t.ring == [] && Unstaged(t.region) == []
  {
    match s
    case CompleteStep => CompleteEmpties(t, p);
    case RefillStep => RefillEmpties(t);
    case BeginStep(total) => assert Nominate(t, Region(total, [], 0)).flight == Kept(t);
    case EndStep => assert Nominate(t, NoRegion).flight == Kept(t);
    case SendStep => assert Send(t).flight == t.flight[1..];
    case FlushStep => assert Flush(t).flight == [];
    case _ => ThreadEmpties(t, s);
  }

  // At every step of every run: an empty packet is staged exactly when a full last packet
  // completes with nothing else staged, published or queued.
  lemma EmptyExactlyCloses(ss: seq<Step>, s: Step)
    requires Sound(Run(Start, ss)) && Enabled(Run(Start, ss), s) && !EmptyStaged(Run(Start, ss))
    ensures var t, p := Run(Start, ss), History(Start, Past([], []), ss);
            EmptyStaged(Next(t, s)) <==>
            s.CompleteStep? && p.sent != [] && |p.sent[|p.sent| - 1]| == PKT
            && t.flight == [] && t.ring == [] && Unstaged(t.region) == []
  {
    hide *;
    StartTracks();
    RunTracks(Start, Past([], []), ss);
    StepEmpties(Run(Start, ss), History(Start, Past([], []), ss), s);
  }
}
