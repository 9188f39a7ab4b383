/** What bulk IN on endpoint 2 is for, with windows, toggles and counters taken away: a queue.
    Bytes wait in the staging ring or in the published part of a nominated region, move into at
    most two staged packets, and reach the wire when the SIE completes a packet.  TxEngine is
    proved to be this queue; the theorems about whole runs are proved here. */
module TxQueue {
  import opened Bytes

  const PKT := 64          // bl_usb_ep2_pkt_in with the CDC identity
  const RING_SIZE := 1024  // BL_USB_TX_BUF_SIZE
  const LOCK_CHUNK := 64   // BL_USB_TX_LOCK_CHUNK

  // credit: the completion adds this packet's length to bl_usb_tx_direct_sent().
  datatype Packet = Packet(data: seq<byte>, credit: bool)

  datatype Region = NoRegion | Region(total: nat, published: seq<byte>, pos: nat)

  datatype Tx = Tx(
    wire: seq<byte>,        // bytes of completed packets, in order
    latched: seq<Packet>,   // completed, transfer flag still set for it (0 or 1)
    flight: seq<Packet>,    // staged, next to be sent first
    ring: seq<byte>,        // tx_buf[tx_tail .. tx_head)
    used: nat,              // tx_head: the buffer is linear
    region: Region,
    sent: nat,              // bl_usb_tx_direct_sent()
    armed: bool,
    piped: bool,            // tx_pipe_armed
    lastFull: bool,         // tx_last_full
    refilling: bool,        // bus released, the freed window still being filled
    kickDue: bool)          // tx_queue() has stored bytes and not yet kicked

  function Unstaged(r: Region): (rest: seq<byte>)
    requires r.Region? ==> r.pos <= |r.published|
  {
    if r.NoRegion? then [] else r.published[r.pos..]
  }

  function Flat(ps: seq<Packet>): seq<byte> {
    if ps == [] then [] else ps[0].data + Flat(ps[1..])
  }

  function Credit(ps: seq<Packet>): nat {
    if ps == [] then 0 else (if ps[0].credit then |ps[0].data| else 0) + Credit(ps[1..])
  }

  predicate Bounded(r: Region) {
    r.Region? ==> r.pos <= |r.published| <= r.total < 0x1_0000
                  && (r.pos % PKT == 0 || r.pos == r.total)
  }

  // The publication rule the short-packet guard needs: whole packets, or everything.
  predicate Disciplined(r: Region) {
    r.Region? ==> |r.published| % PKT == 0 || |r.published| == r.total
  }

  // The guard itself: fewer bytes than a packet are published, and they do not end the region.
  predicate Held(r: Region)
    requires Bounded(r)
  {
    r.Region? && 0 < |r.published| - r.pos < PKT && |r.published| != r.total
  }

  ghost predicate Small(ps: seq<Packet>) {
    forall i :: 0 <= i < |ps| ==> |ps[i].data| <= PKT
  }

  ghost predicate Full(ps: seq<Packet>) {
    forall i :: 0 <= i < |ps| ==> ps[i].credit && |ps[i].data| == PKT
  }

  // What holds between two steps whatever the producer publishes.
  ghost predicate Sound(t: Tx) {
    && Bounded(t.region)
    && |t.latched| <= 1
    && |t.ring| <= t.used <= RING_SIZE
    && (t.armed <==> t.latched != [] || t.flight != [])
    && Small(t.latched) && Small(t.flight)
    && (t.piped ==> t.region.Region? && t.lastFull && t.ring == []
                    && |t.latched| + |t.flight| == (if t.refilling then 1 else 2)
                    && Full(t.latched) && Full(t.flight))
    && (!t.piped ==> !t.refilling && |t.latched| + |t.flight| <= 1)
    && (t.refilling ==> |Unstaged(t.region)| >= PKT)
    && (t.region.Region? ==> t.region.pos == t.sent + Credit(t.latched) + Credit(t.flight))
    && (t.region.NoRegion? ==> Credit(t.latched) == 0 && Credit(t.flight) == 0)
    // an idle endpoint has nothing it could send
    && (!t.armed ==> (t.ring == [] || t.kickDue)
                     && (Unstaged(t.region) == [] || Held(t.region)))
  }

  ghost predicate Inv(t: Tx)
    ensures Inv(t) ==> Sound(t) && Bounded(t.region)
  {
    Sound(t) && Disciplined(t.region)
  }

  // T_RES is still ACK and nothing new is staged: the next IN sends an old window again.
  ghost predicate Replays(t: Tx) {
    t.armed && t.latched == [] && t.flight == [] && !t.refilling
  }

  // Every byte the queue owes or has paid, in wire order.
  ghost function Ledger(t: Tx): seq<byte>
    requires Bounded(t.region)
  {
    t.wire + Flat(t.flight) + t.ring + Unstaged(t.region)
  }

  // Power-on: nothing staged, nothing nominated.
  const Start := Tx([], [], [], [], 0, NoRegion, 0, false, false, false, false, false)

  lemma StartInv()
    ensures Inv(Start)
  {
  }

  // ---------------------------------------------------------------- the steps

  function StagePair(t: Tx): Tx
    requires Bounded(t.region) && |Unstaged(t.region)| >= 2 * PKT
  {
    var rest := Unstaged(t.region);
    t.(flight := t.flight + [Packet(rest[..PKT], true), Packet(rest[PKT..2 * PKT], true)],
       region := t.region.(pos := t.region.pos + 2 * PKT),
       armed := true, piped := true, lastFull := true)
  }

  function StageRegion(t: Tx, m: nat): Tx
    requires Bounded(t.region) && 0 < m <= |Unstaged(t.region)|
  {
    t.(flight := t.flight + [Packet(Unstaged(t.region)[..m], true)],
       region := t.region.(pos := t.region.pos + m), armed := true, lastFull := m == PKT)
  }

  function StageRing(t: Tx, n: nat): Tx
    requires n <= |t.ring|
  {
    t.(flight := t.flight + [Packet(t.ring[..n], false)], ring := t.ring[n..],
       armed := true, lastFull := n == PKT)
  }

  // tx_pump(): what it stages.  The ring goes before the region, a short packet only ends a
  // region, two full packets of a region are primed together.
  function Pump(t: Tx): Tx
    requires Bounded(t.region)
  {
    var rest := Unstaged(t.region);
    if t.ring == [] && rest != [] then
      var m := Min(|rest|, PKT);
      if m < PKT && t.region.pos + m != t.region.total then t
      else if !t.piped && m == PKT && |rest| >= 2 * PKT then StagePair(t)
      else StageRegion(t, m)
    else if t.ring != [] then StageRing(t, Min(|t.ring|, PKT))
    else if t.lastFull then
      t.(flight := t.flight + [Packet([], false)], armed := true, lastFull := false)
    else
      t.(used := 0, armed := false)
  }

  // The transmit half of usb_pumps().
  function Pumps(t: Tx): Tx
    requires Bounded(t.region)
  {
    if !t.armed && (t.ring != [] || Unstaged(t.region) != []) then Pump(t) else t
  }

  lemma PumpsLatched(t: Tx)
    requires Bounded(t.region)
    ensures Pumps(t).latched == t.latched && Pumps(t).refilling == t.refilling
  {
  }

  // What survives when a region is replaced or withdrawn: a packet the SIE may send before the
  // next service.  The second window of a pipelined pair is written over by that service.
  function Kept(t: Tx): seq<Packet> {
    if t.latched != [] || t.flight == [] then [] else [t.flight[0].(credit := false)]
  }

  // At most one completion is latched.
  function Uncredited(ps: seq<Packet>): seq<Packet> {
    if ps == [] then [] else [ps[0].(credit := false)]
  }

  function Nominate(t: Tx, r: Region): Tx {
    t.(latched := Uncredited(t.latched), flight := Kept(t), region := r, sent := 0, piped := false)
  }

  function Extend(t: Tx, bytes: seq<byte>): Tx
    requires t.region.Region?
  {
    t.(region := t.region.(published := t.region.published + bytes))
  }

  function KickRegion(t: Tx): Tx
    requires Bounded(t.region)
  {
    if !t.armed && Unstaged(t.region) != [] then Pump(t) else t
  }

  function Publish(t: Tx, bytes: seq<byte>): Tx
    requires t.region.Region? && Bounded(Extend(t, bytes).region)
  {
    KickRegion(Extend(t, bytes))
  }

  // One locked chunk of tx_queue(): how much the linear buffer takes.
  function Room(t: Tx, n: nat): (k: nat)
    ensures k <= n && k <= LOCK_CHUNK && (k > 0 ==> t.used + k <= RING_SIZE)
    ensures k < n ==> k == LOCK_CHUNK || t.used + k >= RING_SIZE
  {
    Min(Min(n, LOCK_CHUNK), if t.used <= RING_SIZE then RING_SIZE - t.used else 0)
  }

  function Store(t: Tx, bytes: seq<byte>): Tx {
    var k := Room(t, |bytes|);
    t.(ring := t.ring + bytes[..k], used := t.used + k, kickDue := t.kickDue || k > 0)
  }

  function KickRing(t: Tx): Tx
    requires Bounded(t.region)
  {
    if !t.armed && t.ring != [] then Pump(t) else t
  }

  function Kick(t: Tx): Tx
    requires Bounded(t.region)
  {
    KickRing(t.(kickDue := false))
  }

  // The SIE sends the packet its toggle names and latches the completion.
  function Send(t: Tx): Tx
    requires t.flight != []
  {
    t.(wire := t.wire + t.flight[0].data, latched := [t.flight[0]], flight := t.flight[1..])
  }

  // The service routine's IN arm, up to the refill.
  function Complete(t: Tx): Tx
    requires Bounded(t.region) && |t.latched| == 1
  {
    var u := t.(sent := t.sent + Credit(t.latched), latched := []);
    if u.piped then
      if |Unstaged(u.region)| >= PKT then u.(refilling := true) else Pumps(u.(piped := false))
    else Pumps(Pump(u))
  }

  function Refill(t: Tx): Tx
    requires Bounded(t.region) && |Unstaged(t.region)| >= PKT
  {
    t.(flight := t.flight + [Packet(Unstaged(t.region)[..PKT], true)],
       region := t.region.(pos := t.region.pos + PKT), refilling := false)
  }

  function Refilled(t: Tx): Tx
    requires Bounded(t.region) && |Unstaged(t.region)| >= PKT
  {
    Pumps(Refill(t))
  }

  // usb_session_flush() and usb_bus_reset(): nothing is owed across a session boundary.
  function Flush(t: Tx): Tx {
    t.(latched := [], flight := [], ring := [], used := 0, region := NoRegion, sent := 0,
       armed := false, piped := false)
  }

  // ------------------------------------------------------------------- pumping

  lemma FlatOne(p: Packet)
    ensures Flat([p]) == p.data && Credit([p]) == if p.credit then |p.data| else 0
  {
    assert [p][1..] == [];
    assert p.data + [] == p.data;
  }

  lemma FlatTwo(p: Packet, q: Packet)
    ensures Flat([p, q]) == p.data + q.data
    ensures Credit([p, q]) == Credit([p]) + Credit([q])
  {
    FlatOne(p);
    FlatOne(q);
    assert [p, q][1..] == [q];
  }

  // Staging ps in front of what is left moves bytes without adding, losing or reordering any.
  lemma StagingConserves(t: Tx, u: Tx, moved: seq<byte>)
    requires Bounded(t.region) && Bounded(u.region) && t.flight == []
    requires u.wire == t.wire && Flat(u.flight) == moved
    requires t.ring + Unstaged(t.region) == moved + (u.ring + Unstaged(u.region))
    ensures Ledger(u) == Ledger(t)
  {
    assert Flat(t.flight) == [];
    hide Flat, Unstaged;
    assert Ledger(t) == t.wire + (t.ring + Unstaged(t.region));
    assert Ledger(u) == t.wire + (moved + (u.ring + Unstaged(u.region)));
  }

  // A state ready to be pumped: between a completion and what follows it, or idle.
  ghost predicate Pumpable(t: Tx) {
    && Bounded(t.region)
    && t.latched == [] && t.flight == [] && !t.piped && !t.refilling
    && |t.ring| <= t.used <= RING_SIZE
    && (t.region.Region? ==> t.region.pos == t.sent)
  }

  ghost predicate Stuck(t: Tx)
    requires Bounded(t.region)
  {
    t.ring == [] && Held(t.region)
  }

  ghost predicate Pumped(t: Tx, u: Tx)
    requires Bounded(t.region)
  {
    && Sound(u) && Ledger(u) == Ledger(t)
    && u.wire == t.wire && u.latched == [] && u.sent == t.sent && u.kickDue == t.kickDue
    && Same(t.region, u.region)
    && (t.ring != [] || Unstaged(t.region) != [] ==> u.flight != [] && Backlog(u) < Backlog(t))
    && (t.ring == [] && |Unstaged(t.region)| >= 2 * PKT ==> u.piped && |u.flight| == 2)
    && (t.ring == [] && Unstaged(t.region) == [] ==>
          Backlog(u) == Backlog(t)
          && (if t.lastFull then u.flight == [Packet([], false)] && !u.lastFull
              else u.flight == [] && !u.armed && !u.lastFull && u.used == 0))
  }

  ghost predicate Same(r: Region, s: Region) {
    r.Region? == s.Region? && (r.Region? ==> r.total == s.total && r.published == s.published)
  }

  function Backlog(t: Tx): nat
    requires Bounded(t.region)
  {
    |t.ring| + |Unstaged(t.region)|
  }

  lemma PumpPairs(t: Tx)
    requires Pumpable(t) && t.ring == [] && |Unstaged(t.region)| >= 2 * PKT
    ensures Pumped(t, Pump(t))
  {
    var u := Pump(t);
    var rest := Unstaged(t.region);
    var p, q := Packet(rest[..PKT], true), Packet(rest[PKT..2 * PKT], true);
    assert u.flight == [p, q];
    FlatOne(p);
    FlatOne(q);
    FlatTwo(p, q);
    assert Unstaged(u.region) == rest[2 * PKT..];
    PairCut(rest);
    StagingConserves(t, u, p.data + q.data);
    hide Flat, Credit, Ledger;
  }

  lemma PairCut(rest: seq<byte>)
    requires |rest| >= 2 * PKT
    ensures rest == rest[..PKT] + rest[PKT..2 * PKT] + rest[2 * PKT..]
    ensures [] + rest == rest[..PKT] + rest[PKT..2 * PKT] + ([] + rest[2 * PKT..])
  {
  }

  lemma PumpSingle(t: Tx)
    requires Pumpable(t) && t.ring == [] && 0 < |Unstaged(t.region)| < 2 * PKT
    requires !Held(t.region)
    ensures Pumped(t, Pump(t))
  {
    var u := Pump(t);
    var rest := Unstaged(t.region);
    var m := Min(|rest|, PKT);
    var p := Packet(rest[..m], true);
    assert u.flight == [p];
    assert Credit(u.flight) == m by { FlatOne(p); }
    assert Ledger(u) == Ledger(t) by {
      FlatOne(p);
      assert Unstaged(u.region) == rest[m..];
      StagingConserves(t, u, p.data);
    }
  }

  lemma PumpRing(t: Tx)
    requires Pumpable(t) && t.ring != []
    ensures Pumped(t, Pump(t))
  {
    var u := Pump(t);
    var n := Min(|t.ring|, PKT);
    var p := Packet(t.ring[..n], false);
    assert u.flight == [p];
    FlatOne(p);
    assert Ledger(u) == Ledger(t) by { StagingConserves(t, u, p.data); }
  }

  // tx_pump() conserves the ledger and never leaves deliverable bytes behind an idle endpoint;
  // it changes nothing exactly when the short-packet guard holds it.
  lemma PumpKeeps(t: Tx)
    requires Pumpable(t)
    ensures if Stuck(t) then Pump(t) == t else Pumped(t, Pump(t))
  {
    if Stuck(t) {
    } else if t.ring == [] && |Unstaged(t.region)| >= 2 * PKT {
      PumpPairs(t);
    } else if t.ring == [] && Unstaged(t.region) != [] {
      PumpSingle(t);
    } else if t.ring != [] {
      PumpRing(t);
    } else if t.lastFull {
      FlatOne(Packet([], false));
      assert Pump(t).flight == [Packet([], false)];
    }
  }

  // ------------------------------------------------------- every step keeps the invariant

  lemma IdleIsPumpable(t: Tx)
    requires Sound(t) && !t.armed
    ensures Pumpable(t)
  {
  }

  lemma DisciplineNeverHolds(r: Region)
    requires Bounded(r) && Disciplined(r)
    ensures !Held(r)
  {
  }

  lemma NominateKeeps(t: Tx, r: Region)
    requires Sound(t) && !t.refilling
    requires r == NoRegion || (r.Region? && r.published == [] && r.pos == 0 && r.total < 0x1_0000)
    ensures Sound(Nominate(t, r))
    ensures Ledger(Nominate(t, r)) == t.wire + Flat(Kept(t)) + t.ring
    ensures !t.piped && Unstaged(t.region) == [] ==> Ledger(Nominate(t, r)) == Ledger(t)
  {
    var u := Nominate(t, r);
    assert Credit(u.latched) == 0 by {
      if t.latched != [] {
        assert u.latched == [t.latched[0].(credit := false)];
        FlatOne(u.latched[0]);
      }
    }
    if Kept(t) != [] {
      FlatOne(Kept(t)[0]);
      if !t.piped {
        assert t.flight == [t.flight[0]];
        FlatOne(t.flight[0]);
      }
    }
    assert Unstaged(r) == [];
    assert u.wire + Flat(u.flight) + u.ring + [] == u.wire + Flat(u.flight) + u.ring;
  }

  // What a withdrawal leaves is the front of what was owed.
  lemma WithdrawalCuts(t: Tx)
    requires Sound(t) && !t.refilling
    ensures t.wire + Flat(Kept(t)) + t.ring <= Ledger(t)
  {
    var front := t.wire + Flat(Kept(t)) + t.ring;
    if t.piped {
      if Kept(t) != [] {
        assert t.flight == [t.flight[0], t.flight[1]];
        FlatTwo(t.flight[0], t.flight[1]);
        FlatOne(Kept(t)[0]);
        var rest := t.flight[1].data + Unstaged(t.region);
        assert Ledger(t) == front + rest;
      } else {
        assert Ledger(t) == front + (Flat(t.flight) + Unstaged(t.region));
      }
    } else {
      if Kept(t) != [] {
        assert t.flight == [t.flight[0]];
        FlatOne(t.flight[0]);
        FlatOne(Kept(t)[0]);
      }
      assert Ledger(t) == front + Unstaged(t.region);
    }
  }

  lemma PublishKeeps(t: Tx, bytes: seq<byte>)
    requires Sound(t) && t.region.Region? && !t.refilling
    requires Bounded(t.region.(published := t.region.published + bytes))
    ensures Sound(Publish(t, bytes)) && Ledger(Publish(t, bytes)) == Ledger(t) + bytes
    ensures Publish(t, bytes).wire == t.wire
    ensures Same(t.region.(published := t.region.published + bytes), Publish(t, bytes).region)
  {
    var u := t.(region := t.region.(published := t.region.published + bytes));
    assert Unstaged(u.region) == Unstaged(t.region) + bytes;
    assert Ledger(u) == Ledger(t) + bytes;
    if !u.armed && Unstaged(u.region) != [] {
      PumpKeeps(u);
    }
  }

  lemma StoreKeeps(t: Tx, bytes: seq<byte>)
    requires Sound(t) && t.region.NoRegion?
    ensures Sound(Store(t, bytes)) && Store(t, bytes).wire == t.wire
    ensures Ledger(Store(t, bytes)) == Ledger(t) + bytes[..Room(t, |bytes|)]
  {
    var u := Store(t, bytes);
    assert Ledger(u) == t.wire + Flat(t.flight) + (t.ring + bytes[..Room(t, |bytes|)]);
    assert Ledger(t) == t.wire + Flat(t.flight) + t.ring;
  }

  lemma KickKeeps(t: Tx)
    requires Sound(t) && !t.refilling
    ensures Sound(Kick(t)) && Ledger(Kick(t)) == Ledger(t) && Kick(t).wire == t.wire
    ensures Same(t.region, Kick(t).region)
  {
    var u := t.(kickDue := false);
    if !u.armed && u.ring != [] {
      PumpKeeps(u);
    }
  }

  lemma SendKeeps(t: Tx)
    requires Sound(t) && t.latched == [] && t.flight != []
    ensures Sound(Send(t)) && Ledger(Send(t)) == Ledger(t)
    ensures Send(t).wire == t.wire + t.flight[0].data
  {
    var u := Send(t);
    FlatOne(t.flight[0]);
    assert t.flight == [t.flight[0]] + t.flight[1..];
    assert t.wire + (t.flight[0].data + Flat(t.flight[1..])) == u.wire + Flat(u.flight);
  }

  lemma CompleteIsPump(t: Tx) returns (u: Tx)
    requires Sound(t) && |t.latched| == 1 && !t.piped
    ensures u == t.(sent := t.sent + Credit(t.latched), latched := [])
    ensures Pumpable(u) && Ledger(u) == Ledger(t) && (Stuck(u) <==> Stuck(t)) && u.armed
    ensures Complete(t) == Pump(u)
  {
    u := t.(sent := t.sent + Credit(t.latched), latched := []);
    assert t.flight == [];
    if !Stuck(t) {
      PumpedRests(u);
    }
  }

  lemma CompleteSingle(t: Tx)
    requires Sound(t) && |t.latched| == 1 && !t.piped
    ensures if Stuck(t) then Replays(Complete(t)) && Complete(t).region == t.region
            else Pumped(t.(sent := t.sent + Credit(t.latched), latched := []), Complete(t))
    ensures Ledger(Complete(t)) == Ledger(t) && Complete(t).wire == t.wire
  {
    var u := CompleteIsPump(t);
    PumpKeeps(u);
  }

  // After tx_pump() the pumps that follow find either an armed endpoint or nothing to do.
  lemma PumpRests(t: Tx)
    requires Pumpable(t)
    ensures Bounded(Pump(t).region)
    ensures !Pump(t).armed ==> Pumpable(Pump(t))
    ensures var u := Pumps(Pump(t)); u.latched == [] && !u.refilling
  {
    PumpKeeps(t);
  }

  lemma PumpedRests(t: Tx)
    requires Pumpable(t) && !Stuck(t)
    ensures Pumps(Pump(t)) == Pump(t)
  {
    PumpKeeps(t);
    if t.ring != [] || Unstaged(t.region) != [] {
      assert Pump(t).armed;
    }
  }

  lemma CompletePaired(t: Tx)
    requires Sound(t) && |t.latched| == 1 && t.piped && !t.refilling
    ensures Sound(Complete(t)) && Same(t.region, Complete(t).region)
    ensures Ledger(Complete(t)) == Ledger(t) && Complete(t).wire == t.wire
  {
    assert t.flight == [t.flight[0]];
    assert t.latched == [t.latched[0]];
    FlatOne(t.flight[0]);
    FlatOne(t.latched[0]);
  }

  lemma KicksKeepLatched(t: Tx)
    requires Bounded(t.region)
    ensures KickRegion(t).latched == t.latched && KickRing(t).latched == t.latched
  {
  }

  // Completing a packet: the invariant survives unless the guard held the pump, and then the
  // old window goes out again.
  lemma CompleteKeeps(t: Tx)
    requires Sound(t) && |t.latched| == 1 && !t.refilling
    ensures Bounded(Complete(t).region) && Same(t.region, Complete(t).region)
    ensures if !t.piped && Stuck(t) then Replays(Complete(t)) else Sound(Complete(t))
    ensures Ledger(Complete(t)) == Ledger(t) && Complete(t).wire == t.wire
  {
    if t.piped {
      CompletePaired(t);
    } else {
      CompleteSingle(t);
    }
  }

  lemma FlightPlus(f: seq<Packet>, p: Packet)
    requires |f| <= 1
    ensures Flat(f + [p]) == Flat(f) + p.data
    ensures Credit(f + [p]) == Credit(f) + Credit([p])
  {
    if f == [] {
      assert f + [p] == [p];
      FlatOne(p);
    } else {
      assert f == [f[0]] && f + [p] == [f[0], p];
      FlatOne(f[0]);
      FlatTwo(f[0], p);
    }
  }

  lemma RefilledKeeps(t: Tx)
    requires Sound(t) && t.refilling
    ensures Sound(Refilled(t)) && Ledger(Refilled(t)) == Ledger(t) && Refilled(t).wire == t.wire
    ensures Same(t.region, Refilled(t).region) && Backlog(Refilled(t)) < Backlog(t)
  {
    var rest := Unstaged(t.region);
    var p := Packet(rest[..PKT], true);
    var u := Refilled(t);
    FlightPlus(t.flight, p);
    assert Unstaged(u.region) == rest[PKT..];
    assert Sound(u) by { FlatOne(p); }
    assert t.ring == [] && Bounded(u.region);
    hide Flat, Credit, Sound, Unstaged;
    assert rest == rest[..PKT] + rest[PKT..];
    MovesAcross(t.wire, Flat(t.flight), t.ring, rest[..PKT], rest[PKT..]);
  }

  lemma MovesAcross(w: seq<byte>, f: seq<byte>, r: seq<byte>, a: seq<byte>, b: seq<byte>)
    requires r == []
    ensures w + f + r + (a + b) == w + (f + a) + r + b
  {
  }

  // ------------------------------------------------------------------- whole runs

  datatype Step =
    | BeginStep(total: nat)            // bl_usb_tx_direct_begin()
    | PublishStep(bytes: seq<byte>)    // bl_usb_tx_direct_publish()
    | EndStep                          // bl_usb_tx_direct_end()
    | StoreStep(bytes: seq<byte>)      // one locked chunk of tx_queue()
    | KickStep                         // its closing kick
    | SendStep                         // the SIE completes the packet it was given
    | CompleteStep                     // the service routine takes that completion
    | RefillStep                       // and finishes filling the freed window
    | OtherStep                        // the service routine ran for another endpoint, or idly
    | FlushStep                        // session flush or bus reset

  // Thread-mode steps wait for the service routine, which runs to completion.
  ghost predicate Enabled(t: Tx, s: Step) {
    match s
    case BeginStep(total) => !t.refilling && total < 0x1_0000
    case PublishStep(bytes) =>
      !t.refilling && t.region.Region? && Bounded(t.region.(published := t.region.published + bytes))
    case EndStep => !t.refilling
    case StoreStep(_) => t.region.NoRegion?
    case KickStep => !t.refilling
    case SendStep => t.latched == [] && t.flight != []
    case CompleteStep => |t.latched| == 1 && !t.refilling
    case RefillStep => t.refilling
    case OtherStep => !t.refilling
    case FlushStep => !t.refilling
  }

  ghost function Next(t: Tx, s: Step): Tx
    requires Sound(t) && Enabled(t, s)
  {
    match s
    case BeginStep(total) => Nominate(t, Region(total, [], 0))
    case PublishStep(bytes) => Publish(t, bytes)
    case EndStep => Nominate(t, NoRegion)
    case StoreStep(bytes) => Store(t, bytes)
    case KickStep => Kick(t)
    case SendStep => Send(t)
    case CompleteStep => Complete(t)
    case RefillStep => Refilled(t)
    case OtherStep => Pumps(t)
    case FlushStep => Flush(t)
  }

  ghost predicate PublishesWhole(t: Tx, s: Step) {
    s.PublishStep? && t.region.Region? ==>
      Disciplined(t.region.(published := t.region.published + s.bytes))
  }

  // A begin, an end or a flush that drops nothing.
  ghost predicate DropsNothing(t: Tx, s: Step) {
    match s
    case BeginStep(_) => !t.piped && (t.region.Region? ==> t.region.pos == |t.region.published|)
    case EndStep => !t.piped && (t.region.Region? ==> t.region.pos == |t.region.published|)
    case FlushStep =>
      Flat(t.flight) == [] && t.ring == [] && (t.region.Region? ==> t.region.pos == |t.region.published|)
    case _ => true
  }

  // What a step adds to the ledger.
  function Accepted(t: Tx, s: Step): seq<byte> {
    match s
    case PublishStep(bytes) => bytes
    case StoreStep(bytes) => bytes[..Room(t, |bytes|)]
    case _ => []
  }

  ghost predicate StepOk(t: Tx, u: Tx, gained: seq<byte>, drops: bool)
    requires Bounded(t.region)
  {
    Inv(u) && t.wire <= u.wire && (!drops ==> Ledger(u) == Ledger(t) + gained)
  }

  lemma ProducerStepKeeps(t: Tx, s: Step)
    requires Inv(t) && Enabled(t, s) && PublishesWhole(t, s)
    requires s.BeginStep? || s.PublishStep? || s.EndStep?
    ensures StepOk(t, Next(t, s), Accepted(t, s), !DropsNothing(t, s))
  {
    match s
    case BeginStep(total) => NominateKeeps(t, Region(total, [], 0));
    case PublishStep(bytes) => PublishKeeps(t, bytes);
    case EndStep => NominateKeeps(t, NoRegion);
  }

  lemma LinkStepKeeps(t: Tx, s: Step)
    requires Inv(t) && Enabled(t, s)
    requires s.SendStep? || s.CompleteStep? || s.RefillStep?
    ensures StepOk(t, Next(t, s), [], false)
  {
    assert Ledger(t) + [] == Ledger(t);
    match s
    case SendStep => SendKeeps(t);
    case CompleteStep =>
      DisciplineNeverHolds(t.region);
      CompleteKeeps(t);
    case RefillStep => RefilledKeeps(t);
  }

  lemma QueueStepKeeps(t: Tx, s: Step)
    requires Inv(t) && Enabled(t, s)
    requires s.StoreStep? || s.KickStep? || s.OtherStep?
    ensures StepOk(t, Next(t, s), Accepted(t, s), false)
  {
    assert Ledger(t) + [] == Ledger(t);
    match s
    case StoreStep(bytes) => StoreKeeps(t, bytes);
    case KickStep => KickKeeps(t);
    case OtherStep =>
      DisciplineNeverHolds(t.region);
      if !t.armed && t.ring != [] {
        PumpKeeps(t);
      }
  }

  lemma FlushKeeps(t: Tx)
    requires Inv(t) && !t.refilling
    ensures StepOk(t, Flush(t), [], !DropsNothing(t, FlushStep)) && Ledger(Flush(t)) == t.wire
  {
    assert Ledger(Flush(t)) == t.wire + [] + [] + [] == t.wire;
    if DropsNothing(t, FlushStep) {
      assert Ledger(t) == t.wire + [] + [] + [] == t.wire == t.wire + [];
    }
  }

  // One step: the invariant, the wire and the ledger.
  lemma StepKeeps(t: Tx, s: Step)
    requires Inv(t) && Enabled(t, s) && PublishesWhole(t, s)
    ensures StepOk(t, Next(t, s), Accepted(t, s), !DropsNothing(t, s))
  {
    if s.BeginStep? || s.PublishStep? || s.EndStep? {
      ProducerStepKeeps(t, s);
    } else if s.SendStep? || s.CompleteStep? || s.RefillStep? {
      LinkStepKeeps(t, s);
    } else if s.FlushStep? {
      FlushKeeps(t);
    } else {
      QueueStepKeeps(t, s);
    }
  }

  // The ledger after any step: a withdrawal forgets what was not staged, a flush what was not sent.
  ghost function LedgerAfter(t: Tx, s: Step): seq<byte>
    requires Bounded(t.region)
  {
    match s
    case BeginStep(_) => t.wire + Flat(Kept(t)) + t.ring
    case EndStep => t.wire + Flat(Kept(t)) + t.ring
    case FlushStep => t.wire
    case _ => Ledger(t) + Accepted(t, s)
  }

  lemma LedgerMoves(t: Tx, s: Step)
    requires Inv(t) && Enabled(t, s) && PublishesWhole(t, s)
    ensures Inv(Next(t, s)) && Ledger(Next(t, s)) == LedgerAfter(t, s)
  {
    StepKeeps(t, s);
    match s
    case BeginStep(total) => NominateKeeps(t, Region(total, [], 0));
    case EndStep => NominateKeeps(t, NoRegion);
    case FlushStep => FlushKeeps(t);
    case _ =>
  }

  // A schedule: a step that is not enabled when its turn comes does not happen.
  ghost function Do(t: Tx, s: Step): Tx {
    if Sound(t) && Enabled(t, s) then Next(t, s) else t
  }

  ghost function Run(t: Tx, ss: seq<Step>): Tx
    decreases ss
  {
    if ss == [] then t else Run(Do(t, ss[0]), ss[1..])
  }

  // Every publication of the run is whole packets or the whole region.
  ghost predicate Orderly(t: Tx, ss: seq<Step>)
    decreases ss
  {
    ss == [] || ((Enabled(t, ss[0]) ==> PublishesWhole(t, ss[0])) && Orderly(Do(t, ss[0]), ss[1..]))
  }

  ghost predicate Lossless(t: Tx, ss: seq<Step>)
    decreases ss
  {
    ss == [] || ((Enabled(t, ss[0]) ==> DropsNothing(t, ss[0])) && Lossless(Do(t, ss[0]), ss[1..]))
  }

  ghost function Gained(t: Tx, s: Step): seq<byte> {
    if Enabled(t, s) then Accepted(t, s) else []
  }

  ghost function AllAccepted(t: Tx, ss: seq<Step>): seq<byte>
    decreases ss
  {
    if ss == [] then []
    else Gained(t, ss[0]) + AllAccepted(Do(t, ss[0]), ss[1..])
  }

  // In every interleaving the invariant holds and the wire only grows; and in one that drops
  // nothing, what is on the wire followed by what is still staged or waiting is exactly what
  // was accepted, in order: no byte is lost, repeated or stale.
  lemma {:induction false} EveryRunDelivers(t: Tx, ss: seq<Step>)
    requires Inv(t) && Orderly(t, ss)
    ensures Inv(Run(t, ss)) && t.wire <= Run(t, ss).wire
    ensures Lossless(t, ss) ==> Ledger(Run(t, ss)) == Ledger(t) + AllAccepted(t, ss)
    decreases ss
  {
    if ss == [] {
      assert Ledger(t) + [] == Ledger(t);
    } else {
      var u := DoKeeps(t, ss[0]);
      EveryRunDelivers(u, ss[1..]);
      AppendTwice(Ledger(t), Gained(t, ss[0]), AllAccepted(u, ss[1..]));
    }
  }

  lemma AppendTwice(a: seq<byte>, b: seq<byte>, c: seq<byte>)
    ensures a + (b + c) == (a + b) + c
  {
  }

  lemma DoKeeps(t: Tx, s: Step) returns (u: Tx)
    requires Inv(t) && (Enabled(t, s) ==> PublishesWhole(t, s))
    ensures u == Do(t, s)
    ensures StepOk(t, u, Gained(t, s), Enabled(t, s) && !DropsNothing(t, s))
  {
    u := Do(t, s);
    if Enabled(t, s) {
      StepKeeps(t, s);
    } else {
      assert Ledger(t) + [] == Ledger(t);
    }
  }

  // Nothing staged, nothing waiting to be kicked: then everything accepted is on the wire.
  lemma IdleMeansDelivered(t: Tx, ss: seq<Step>)
    requires Inv(t) && Orderly(t, ss) && Lossless(t, ss)
    requires !Run(t, ss).armed && !Run(t, ss).kickDue
    ensures Run(t, ss).wire == Ledger(t) + AllAccepted(t, ss)
  {
    EveryRunDelivers(t, ss);
    var u := Run(t, ss);
    DisciplineNeverHolds(u.region);
    assert Ledger(u) == u.wire + [] + [] + [];
  }

  // ------------------------------------------------- progress, and what the guard costs

  // The host keeps polling and the service routine keeps running, with no new work.
  ghost function DrainStep(t: Tx): Option<Step> {
    if t.refilling then Some(RefillStep)
    else if t.latched != [] then Some(CompleteStep)
    else if t.flight != [] then Some(SendStep)
    else if t.kickDue && !t.armed then Some(KickStep)
    else None
  }

  // What draining uses up: waiting bytes, then a terminator, a pairing, staged packets, a kick.
  ghost function Left(t: Tx): nat
    requires Bounded(t.region)
  {
    var terminator := if t.lastFull then 1 else 0;
    var pairing := if t.piped then 1 else 0;
    var kick := if t.kickDue then 1 else 0;
    2 * (8 * (4 * Backlog(t) + 2 * terminator + pairing) + 2 * |t.flight| + |t.latched|) + kick
  }

  ghost predicate Active(t: Tx) {
    t.armed || t.ring != []
  }

  ghost predicate Moved(t: Tx, u: Tx)
    requires Bounded(t.region)
  {
    && Bounded(u.region) && Same(t.region, u.region) && Ledger(u) == Ledger(t)
    && if Sound(u) then Left(u) < Left(t) && (Active(t) && !Active(u) ==> !Held(u.region))
                        && (!Active(t) ==> !Active(u))
       else Replays(u) && Held(u.region) && Active(t)
  }

  lemma CompleteMoves(t: Tx)
    requires Sound(t) && |t.latched| == 1 && !t.refilling
    ensures Moved(t, Complete(t))
  {
    if t.piped { CompletePaired(t); } else { CompleteSingle(t); }
  }

  lemma KickMoves(t: Tx)
    requires Sound(t) && !t.armed && t.kickDue
    ensures Moved(t, Kick(t))
  {
    KickKeeps(t);
    if t.ring != [] { PumpKeeps(t.(kickDue := false)); }
  }

  lemma DrainStepKeeps(t: Tx)
    requires Sound(t) && DrainStep(t).Some?
    ensures Enabled(t, DrainStep(t).value) && Moved(t, Next(t, DrainStep(t).value))
  {
    match DrainStep(t).value
    case RefillStep => RefilledKeeps(t);
    case CompleteStep => CompleteMoves(t);
    case SendStep => SendKeeps(t);
    case KickStep => KickMoves(t);
  }

  ghost function Plan(t: Tx): seq<Step>
    requires Bounded(t.region)
    decreases Left(t)
  {
    if !Sound(t) || DrainStep(t).None? then []
    else
      var s := DrainStep(t).value;
      DrainStepKeeps(t);
      [s] + (if Sound(Next(t, s)) then Plan(Next(t, s)) else [])
  }

  ghost predicate Outcome(t: Tx, u: Tx)
    requires Bounded(t.region)
  {
    && Bounded(u.region) && Ledger(u) == Ledger(t)
    && (Replays(u) <==> Active(t) && !Disciplined(t.region))
    && (Disciplined(t.region) ==> !u.armed && u.wire == Ledger(t))
  }

  lemma AtRest(t: Tx)
    requires Sound(t) && DrainStep(t).None?
    ensures Outcome(t, t)
  {
    if Disciplined(t.region) {
      DisciplineNeverHolds(t.region);
      assert Ledger(t) == t.wire + [] + [] + [];
    }
  }

  lemma OutcomeReplay(t: Tx, u: Tx)
    requires Sound(t) && Active(t) && Bounded(u.region) && Replays(u) && Held(u.region)
    requires Same(t.region, u.region) && Ledger(u) == Ledger(t)
    ensures Outcome(t, u)
  {
  }

  lemma OutcomeStep(t: Tx, u: Tx, v: Tx)
    requires Sound(t) && Sound(u) && Same(t.region, u.region) && Ledger(u) == Ledger(t)
    requires Active(t) && !Active(u) ==> !Held(u.region)
    requires !Active(t) ==> !Active(u)
    requires Outcome(u, v)
    ensures Outcome(t, v)
  {
  }

  lemma RunCons(t: Tx, s: Step, ss: seq<Step>)
    ensures Run(t, [s] + ss) == Run(Do(t, s), ss)
  {
    assert ([s] + ss)[1..] == ss;
  }

  lemma PlanMoves(t: Tx) returns (u: Tx)
    requires Sound(t) && DrainStep(t).Some?
    ensures Moved(t, u)
    ensures Run(t, Plan(t)) == if Sound(u) then Run(u, Plan(u)) else u
  {
    var s := DrainStep(t).value;
    DrainStepKeeps(t);
    u := Do(t, s);
    RunCons(t, s, if Sound(u) then Plan(u) else []);
  }

  // Left to itself the link always comes to rest with the ledger conserved: idle, or replaying an
  // old window.  It replays exactly when something was on its way and the producer's last
  // publication was neither a whole number of packets nor the whole region.
  lemma {:induction false} DrainsUnlessUndisciplined(t: Tx)
    requires Sound(t)
    ensures Outcome(t, Run(t, Plan(t)))
    decreases Left(t)
  {
    if DrainStep(t).None? {
      AtRest(t);
    } else {
      var u := PlanMoves(t);
      if Sound(u) {
        DrainsUnlessUndisciplined(u);
        OutcomeStep(t, u, Run(u, Plan(u)));
      } else {
        OutcomeReplay(t, u);
      }
    }
  }

  // The first packet of a 128-byte region, staged, with pub published.
  ghost function FirstStaged(a: seq<byte>, pub: seq<byte>): Tx {
    Start.(flight := [Packet(a, true)], region := Region(128, pub, PKT), armed := true, lastFull := true)
  }

  // Less than a packet of it published, and held back.
  ghost function Waiting(pub: seq<byte>): Tx {
    Start.(region := Region(128, pub, 0))
  }

  lemma WaitingSound(pub: seq<byte>)
    requires |pub| < PKT
    ensures Sound(Waiting(pub)) && Nominate(Start, Region(128, [], 0)) == Waiting([])
  {
  }

  lemma DoesBegin(t: Tx, total: nat)
    requires Sound(t) && Enabled(t, BeginStep(total))
    ensures Do(t, BeginStep(total)) == Nominate(t, Region(total, [], 0))
  {
    hide Sound, Nominate;
  }

  lemma DoesPublish(t: Tx, a: seq<byte>)
    requires Sound(t) && Enabled(t, PublishStep(a))
    ensures Do(t, PublishStep(a)) == Publish(t, a)
  {
    hide Sound, Publish;
  }

  lemma Nominated()
    ensures Do(Start, BeginStep(128)) == Waiting([])
  {
    hide Do, Sound, Nominate, Waiting;
    StartInv();
    DoesBegin(Start, 128);
    WaitingSound([]);
  }

  lemma Grows(pub: seq<byte>, x: seq<byte>)
    requires |pub| + |x| <= PKT && |pub| < PKT
    ensures Enabled(Waiting(pub), PublishStep(x))
    ensures |pub| + |x| < PKT ==> Publish(Waiting(pub), x) == Waiting(pub + x)
    ensures |pub| + |x| == PKT ==> Publish(Waiting(pub), x) == FirstStaged(pub + x, pub + x)
  {
    assert (pub + x)[0..] == pub + x && |pub| + |x| == PKT ==> (pub + x)[..PKT] == pub + x;
  }

  // Below a packet the guard holds every publication; the one that fills it is staged.
  lemma Published(pub: seq<byte>, x: seq<byte>)
    requires |pub| + |x| <= PKT && |pub| < PKT
    ensures Do(Waiting(pub), PublishStep(x)) ==
            if |pub| + |x| < PKT then Waiting(pub + x) else FirstStaged(pub + x, pub + x)
  {
    hide Do, Publish, Sound, Enabled, FirstStaged, Waiting;
    WaitingSound(pub);
    Grows(pub, x);
    DoesPublish(Waiting(pub), x);
  }

  lemma SecondPublished(a: seq<byte>, b: seq<byte>)
    requires |a| == PKT && |b| == 16
    ensures Do(FirstStaged(a, a), PublishStep(b)) == FirstStaged(a, a + b) && Sound(FirstStaged(a, a + b))
  {
    FlatOne(Packet(a, true));
  }

  lemma GuardHolds(a: seq<byte>, pub: seq<byte>)
    requires |a| == PKT && |pub| == 80 && Sound(FirstStaged(a, pub))
    ensures Do(Do(FirstStaged(a, pub), SendStep), CompleteStep) ==
            FirstStaged(a, pub).(wire := a, flight := [], sent := PKT)
  {
    var p := Packet(a, true);
    FlatOne(p);
    assert [] + a == a;
    assert Do(FirstStaged(a, pub), SendStep) == FirstStaged(a, pub).(wire := a, latched := [p], flight := []);
  }

  lemma {:induction false} RunSnoc(t: Tx, ss: seq<Step>, s: Step)
    ensures Run(t, ss + [s]) == Do(Run(t, ss), s)
    decreases ss
  {
    hide Do;
    if ss == [] {
      assert [] + [s] == [s] && [s][1..] == [];
    } else {
      assert (ss + [s])[1..] == ss[1..] + [s];
      RunSnoc(Do(t, ss[0]), ss[1..], s);
    }
  }

  // What a 128-byte read at step 16 publishes of a up to its k-th mark.
  ghost function Marks(a: seq<byte>, k: nat): seq<Step>
    requires 16 * k <= |a|
  {
    if k == 0 then [BeginStep(128)] else Marks(a, k - 1) + [PublishStep(a[16 * (k - 1)..16 * k])]
  }

  lemma {:induction false} MarksHeld(a: seq<byte>, k: nat)
    requires 16 * k <= |a| && k <= 4
    ensures Run(Start, Marks(a, k)) == if k < 4 then Waiting(a[..16 * k]) else FirstStaged(a[..PKT], a[..PKT])
  {
    hide Run, Do, Waiting, FirstStaged;
    if k == 0 {
      RunSnoc(Start, [], BeginStep(128));
      RunNone(Start);
      assert [] + [BeginStep(128)] == [BeginStep(128)] && a[..0] == [];
      Nominated();
    } else {
      MarksHeld(a, k - 1);
      var x := a[16 * (k - 1)..16 * k];
      RunSnoc(Start, Marks(a, k - 1), PublishStep(x));
      assert a[..16 * (k - 1)] + x == a[..16 * k];
      Published(a[..16 * (k - 1)], x);
    }
  }

  lemma RunNone(t: Tx)
    ensures Run(t, []) == t
  {
  }

  // The marks 16, 32, 48, 64 and 80 of a 128-byte read at step 16: the first packet goes out, what
  // is published beyond it is less than a packet, and the host is sent the first window again.
  lemma StepSixteenReplays(a: seq<byte>)
    requires |a| == 80
    ensures var u := Run(Start, Marks(a, 5) + [SendStep] + [CompleteStep]);
            Replays(u) && u.wire == a[..PKT] && u.region == Region(128, a, PKT)
  {
    hide Run, Do, Sound;
    var first, last := a[..PKT], a[PKT..];
    assert first + last == a && a[16 * 4..16 * 5] == last;
    RunSnoc(Start, Marks(a, 4), PublishStep(last));
    RunSnoc(Start, Marks(a, 5), SendStep);
    RunSnoc(Start, Marks(a, 5) + [SendStep], CompleteStep);
    MarksHeld(a, 4);
    SecondPublished(first, last);
    GuardHolds(first, a);
    assert Marks(a, 5) == Marks(a, 4) + [PublishStep(last)];
  }

  // ------------------------------------------------------- bl_usb_tx_direct_sent() is exact

  ghost predicate OnlyRegion(ps: seq<Packet>) {
    forall i :: 0 <= i < |ps| ==> ps[i].credit || ps[i].data == []
  }

  lemma {:induction false} OnlyRegionCredit(ps: seq<Packet>)
    requires OnlyRegion(ps)
    ensures Credit(ps) == |Flat(ps)|
  {
    if ps != [] {
      OnlyRegionCredit(ps[1..]);
    }
  }

  // base: what was owed when the region was nominated; `before' is that ledger.
  ghost predicate InRegion(t: Tx, before: seq<byte>) {
    && Inv(t) && t.region.Region?
    && Ledger(t) == before + t.region.published
    && (t.region.pos > 0 ==> t.ring == [] && OnlyRegion(t.flight) && OnlyRegion(t.latched))
  }

  predicate RegionStep(s: Step) {
    s.PublishStep? || s.KickStep? || s.SendStep? || s.CompleteStep? || s.RefillStep? || s.OtherStep?
  }

  lemma PumpInRegion(t: Tx, before: seq<byte>)
    requires Pumpable(t) && !Stuck(t) && Disciplined(t.region) && t.region.Region?
    requires Ledger(t) == before + t.region.published && (t.region.pos > 0 ==> t.ring == [])
    ensures InRegion(Pump(t), before)
  {
    PumpKeeps(t);
  }

  lemma PublishedLedger(t: Tx, bytes: seq<byte>, before: seq<byte>) returns (u: Tx)
    requires InRegion(t, before) && Enabled(t, PublishStep(bytes))
    ensures u == t.(region := t.region.(published := t.region.published + bytes))
    ensures Ledger(u) == before + u.region.published
  {
    u := t.(region := t.region.(published := t.region.published + bytes));
    var front := t.wire + Flat(t.flight) + t.ring;
    assert Ledger(t) == front + Unstaged(t.region);
    AppendTwice(front, Unstaged(t.region), bytes);
    AppendTwice(before, t.region.published, bytes);
    assert Unstaged(u.region) == Unstaged(t.region) + bytes;
  }

  lemma PublishInRegion(t: Tx, bytes: seq<byte>, before: seq<byte>)
    requires InRegion(t, before) && Enabled(t, PublishStep(bytes))
    requires PublishesWhole(t, PublishStep(bytes))
    ensures InRegion(Publish(t, bytes), before)
  {
    var u := PublishedLedger(t, bytes, before);
    if u.armed || Unstaged(u.region) == [] {
      assert Publish(t, bytes) == u;
    } else {
      DisciplineNeverHolds(u.region);
      PumpInRegion(u, before);
      assert Publish(t, bytes) == Pump(u);
    }
  }

  lemma CompleteInRegion(t: Tx, before: seq<byte>)
    requires InRegion(t, before) && Enabled(t, CompleteStep)
    ensures InRegion(Complete(t), before)
  {
    if t.piped {
      CompletePaired(t);
      assert OnlyRegion(Complete(t).flight);
    } else {
      DisciplineNeverHolds(t.region);
      var u := t.(sent := t.sent + Credit(t.latched), latched := []);
      PumpInRegion(u, before);
      assert Complete(t) == Pump(u);
    }
  }

  lemma InRegionStep(t: Tx, s: Step, before: seq<byte>)
    requires InRegion(t, before) && RegionStep(s) && Enabled(t, s) && PublishesWhole(t, s)
    ensures InRegion(Next(t, s), before)
  {
    DisciplineNeverHolds(t.region);
    match s
    case PublishStep(bytes) => PublishInRegion(t, bytes, before);
    case KickStep =>
      if !t.armed && t.ring != [] { PumpInRegion(t.(kickDue := false), before); }
    case OtherStep =>
      if !t.armed && t.ring != [] { PumpInRegion(t, before); }
    case CompleteStep => CompleteInRegion(t, before);
    case SendStep => SendKeeps(t);
    case RefillStep => RefilledKeeps(t);
  }

  lemma Cut(a: seq<byte>, b: seq<byte>, x: seq<byte>, y: seq<byte>)
    requires a + x == b + y && |x| == |y|
    ensures a == b
  {
    assert |a| == |b|;
    assert (a + x)[..|a|] == a && (b + y)[..|b|] == b;
  }

  // Up to the read position the region is on the wire or staged, whole.
  lemma FrontIsStaged(t: Tx, before: seq<byte>)
    requires InRegion(t, before)
    ensures t.region.pos <= |t.region.published|
    ensures t.wire + (Flat(t.flight) + t.ring) == before + t.region.published[..t.region.pos]
  {
    var r := t.region;
    assert r.pos <= |r.published|;
    hide Flat, Sound, Credit, OnlyRegion;
    var rest := r.published[r.pos..];
    assert r.published == r.published[..r.pos] + rest;
    AppendTwice(before, r.published[..r.pos], rest);
    AppendTwice(t.wire, Flat(t.flight), t.ring);
    Cut(t.wire + (Flat(t.flight) + t.ring), before + r.published[..r.pos], rest, rest);
  }

  lemma SentIsWire(t: Tx, before: seq<byte>)
    requires InRegion(t, before)
    ensures t.sent + Credit(t.latched) <= |t.region.published|
    ensures var d := t.sent + Credit(t.latched);
            if d == 0 then t.wire <= before else t.wire == before + t.region.published[..d]
  {
    var r, d := t.region, t.sent + Credit(t.latched);
    FrontIsStaged(t, before);
    assert before + r.published[..0] == before;
    if r.pos > 0 {
      OnlyRegionCredit(t.flight);
      OnlyRegionCredit(t.latched);
      var staged := r.published[..r.pos];
      assert staged == staged[..d] + staged[d..];
      AppendTwice(before, staged[..d], staged[d..]);
      Cut(t.wire, before + staged[..d], Flat(t.flight) + t.ring, staged[d..]);
    }
  }

  // From the nomination on, whatever the interleaving: bl_usb_tx_direct_sent() plus the
  // completion still latched counts the region bytes on the wire, and they are its first ones.
  lemma {:induction false} SentCountsDelivered(t: Tx, total: nat, ss: seq<Step>)
    requires Inv(t) && !t.refilling && total < 0x1_0000
    requires forall s :: s in ss ==> RegionStep(s)
    requires Orderly(Nominate(t, Region(total, [], 0)), ss)
    ensures var u := Run(Nominate(t, Region(total, [], 0)), ss);
            var before := t.wire + Flat(Kept(t)) + t.ring;
            var d := u.sent + Credit(u.latched);
            u.region.Region? && d <= |u.region.published|
            && if d == 0 then u.wire <= before else u.wire == before + u.region.published[..d]
  {
    var t0 := Nominate(t, Region(total, [], 0));
    var before := t.wire + Flat(Kept(t)) + t.ring;
    NominateKeeps(t, Region(total, [], 0));
    assert before + [] == before;
    RunInRegion(t0, ss, before);
    SentIsWire(Run(t0, ss), before);
  }

  lemma {:induction false} RunInRegion(t: Tx, ss: seq<Step>, before: seq<byte>)
    requires InRegion(t, before) && Orderly(t, ss) && forall s :: s in ss ==> RegionStep(s)
    ensures InRegion(Run(t, ss), before)
    decreases ss
  {
    if ss != [] {
      assert ss[0] in ss;
      if Enabled(t, ss[0]) {
        InRegionStep(t, ss[0], before);
      }
      RunInRegion(Do(t, ss[0]), ss[1..], before);
    }
  }
}
