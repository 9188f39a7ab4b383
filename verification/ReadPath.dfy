/** A ROM read from the cartridge to the host: do_cart_read() fills the reply and publishes it mark by
    mark while endpoint 2 sends it.  Whatever falls between the publications, once the sent counter
    reaches the length the host has the whole image, behind all it was owed before. */
module ReadPath {
  import opened Bytes
  import Q = TxQueue
  import S = Ep2Spec
  import A = AgbRead

  // Everything but a new region, its end and a session boundary.
  predicate During(op: S.Op) {
    !op.Begin? && !op.End? && !op.SessionFlush? && !op.BusReset?
  }

  // A publication that is taken shows the front of the image.
  ghost predicate Faithful(op: S.Op, s: S.State, image: seq<byte>) {
    op.Publish? && S.MayPublish(s, op.avail) && op.avail <= |image| ==> s.up.base[..op.avail] == image[..op.avail]
  }

  // The region is this read's, what is published of it is the front of the image, and what was owed
  // before it comes first.
  ghost predicate InRead(u: S.Up, before: seq<byte>, image: seq<byte>) {
    && S.Sound(u) && Q.InRegion(u.tx, before)
    && u.tx.region.total == |image| && u.tx.region.published <= image
  }

  // ------------------------------------------------------------------ one operation

  // No step but a publication or a new nomination changes what is published.
  lemma RegionStays(t: Q.Tx, s: Q.Step)
    requires Q.Inv(t) && Q.Enabled(t, s)
    requires s.KickStep? || s.SendStep? || s.CompleteStep? || s.RefillStep? || s.OtherStep?
    ensures Q.Same(t.region, Q.Next(t, s).region)
  {
    Q.DisciplineNeverHolds(t.region);
    match s
    case KickStep => Q.KickKeeps(t);
    case SendStep =>
    case CompleteStep => Q.CompleteKeeps(t);
    case RefillStep => Q.RefilledKeeps(t);
    case OtherStep =>
      if !t.armed {
        Q.IdleIsPumpable(t);
        Q.PumpKeeps(t);
      }
  }

  lemma StepsOn(u: S.Up, v: S.Up, s: Q.Step, before: seq<byte>, image: seq<byte>)
    requires InRead(u, before, image) && S.Sound(v) && Q.Enabled(u.tx, s) && v.tx == Q.Next(u.tx, s)
    requires s.KickStep? || s.SendStep? || s.CompleteStep? || s.RefillStep? || s.OtherStep?
    ensures InRead(v, before, image)
  {
    RegionStays(u.tx, s);
    hide Q.InRegion, Q.Next, Q.Enabled, Q.Inv;
    Regions(u.tx, before);
    Q.InRegionStep(u.tx, s, before);
    Regions(v.tx, before);
  }

  lemma Regions(t: Q.Tx, before: seq<byte>)
    requires Q.InRegion(t, before)
    ensures Q.Inv(t) && t.region.Region?
  {
  }

  lemma PublishesOn(s: S.State, u: S.State, avail: nat, before: seq<byte>, image: seq<byte>)
    requires InRead(s.up, before, image) && S.Sound(u.up)
    requires S.MovesProducer(S.Publish(avail), s, u) && Faithful(S.Publish(avail), s, image)
    ensures InRead(u.up, before, image)
  {
    hide InRead, Faithful, S.Sound, Q.InRegion, Q.Enabled, Q.Publish, Q.Inv;
    if S.MayPublish(s, avail) {
      var more := Shown(s, avail, before, image);
      Extends(s.up.tx, more, before);
      Published(u.up, before, image, s.up.tx.region.published + more);
    } else {
      SameQueue(s.up, u.up, before, image);
    }
  }

  lemma Shown(s: S.State, avail: nat, before: seq<byte>, image: seq<byte>) returns (more: seq<byte>)
    requires InRead(s.up, before, image) && S.MayPublish(s, avail) && Faithful(S.Publish(avail), s, image)
    ensures more == s.up.base[S.Published(s.up)..avail] && Q.InRegion(s.up.tx, before)
    ensures s.up.tx.region.total == |image|
    ensures var shown := s.up.tx.region.published + more; shown <= image && |shown| == avail
  {
    hide S.Sound, Q.InRegion;
    more := s.up.base[S.Published(s.up)..avail];
    Front(s.up.tx.region.published, more, s.up.base, image, avail);
  }

  lemma Published(u: S.Up, before: seq<byte>, image: seq<byte>, shown: seq<byte>)
    requires S.Sound(u) && Q.InRegion(u.tx, before) && shown <= image
    requires u.tx.region.total == |image| && u.tx.region.published == shown
    ensures InRead(u, before, image)
  {
  }

  lemma Front(pub: seq<byte>, more: seq<byte>, base: seq<byte>, image: seq<byte>, avail: nat)
    requires |pub| <= avail <= |base| && avail <= |image| && pub <= image && more == base[|pub|..avail]
    requires base[..avail] == image[..avail]
    ensures pub + more <= image && |pub + more| == avail
  {
    assert image[..avail] == image[..|pub|] + image[|pub|..avail];
    assert base[|pub|..avail] == base[..avail][|pub|..];
  }

  lemma Extends(t: Q.Tx, more: seq<byte>, before: seq<byte>)
    requires Q.InRegion(t, before) && Q.Enabled(t, Q.PublishStep(more))
    requires |t.region.published| + |more| == t.region.total || (|t.region.published| + |more|) % Q.PKT == 0
    ensures Q.InRegion(Q.Publish(t, more), before) && Q.Inv(Q.Publish(t, more))
    ensures Q.Same(t.region.(published := t.region.published + more), Q.Publish(t, more).region)
  {
    Q.InRegionStep(t, Q.PublishStep(more), before);
    Q.PublishKeeps(t, more);
  }

  lemma PumpedOn(u: S.Up, v: S.Up, before: seq<byte>, image: seq<byte>)
    requires InRead(u, before, image) && S.Sound(v) && !u.tx.refilling && v.tx == Q.Pumps(u.tx)
    ensures InRead(v, before, image)
  {
    hide InRead, S.Sound, Q.Inv, Q.Pumps;
    StepsOn(u, v, Q.OtherStep, before, image);
  }

  lemma CompletedOn(u: S.Up, v: S.Up, before: seq<byte>, image: seq<byte>)
    requires InRead(u, before, image) && S.Sound(v) && !u.tx.refilling && |u.tx.latched| == 1
    requires v.tx == Q.Complete(u.tx)
    ensures InRead(v, before, image)
  {
    hide InRead, S.Sound, Q.Inv, Q.Complete;
    StepsOn(u, v, Q.CompleteStep, before, image);
  }

  lemma RefilledOn(u: S.Up, v: S.Up, before: seq<byte>, image: seq<byte>)
    requires InRead(u, before, image) && S.Sound(v) && u.tx.refilling && v.tx == Q.Refilled(u.tx)
    ensures InRead(v, before, image)
  {
    hide InRead, S.Sound, Q.Refilled;
    StepsOn(u, v, Q.RefillStep, before, image);
  }

  lemma ServesOn(s: S.State, u: S.State, before: seq<byte>, image: seq<byte>)
    requires InRead(s.up, before, image) && S.Sound(u.up) && S.Served(s, u)
    ensures InRead(u.up, before, image)
  {
    hide InRead, S.Sound, Q.Inv, Q.Pumps, Q.Complete, S.PickedUp, S.Rested;
    if u.up.tx == s.up.tx {
      SameQueue(s.up, u.up, before, image);
    } else if s.down.flag || s.up.tx.latched == [] {
      PumpedOn(s.up, u.up, before, image);
    } else {
      Latches(s.up, before, image);
      CompletedOn(s.up, u.up, before, image);
    }
  }

  lemma AdvancesOn(s: S.State, u: S.State, before: seq<byte>, image: seq<byte>)
    requires InRead(s.up, before, image) && S.Sound(u.up) && S.Advanced(s, u)
    ensures InRead(u.up, before, image)
  {
    hide InRead, S.Sound, Q.Inv, Q.Pumps, Q.Refilled, S.Rested, S.CopiedOut;
    if u.up.tx == s.up.tx {
      SameQueue(s.up, u.up, before, image);
    } else if s.up.tx.refilling {
      RefilledOn(s.up, u.up, before, image);
    } else {
      PumpedOn(s.up, u.up, before, image);
    }
  }

  lemma Latches(u: S.Up, before: seq<byte>, image: seq<byte>)
    requires InRead(u, before, image)
    ensures |u.tx.latched| <= 1
  {
  }

  lemma SameQueue(u: S.Up, v: S.Up, before: seq<byte>, image: seq<byte>)
    requires InRead(u, before, image) && S.Sound(v) && v.tx == u.tx
    ensures InRead(v, before, image)
  {
  }

  // Whatever neither stages nor sends: the callers of bl_usb_rx(), the host's OUT, the producer's
  // own writes, and tx_queue(), which takes nothing while a region is nominated.
  lemma StillOn(op: S.Op, s: S.State, u: S.State, before: seq<byte>, image: seq<byte>)
    requires InRead(s.up, before, image) && S.Sound(u.up) && S.Moves(op, s, u) && During(op)
    requires !op.Interrupt? && !op.Advance? && !op.Idle? && !op.Publish? && !op.Kick? && !op.InToken?
    ensures InRead(u.up, before, image)
  {
    Regions(s.up.tx, before);
    hide S.Sound, Q.Inv, Q.InRegion, S.Served, S.Advanced;
    assert u.up.tx == s.up.tx;
  }

  lemma PollsOn(s: S.State, u: S.State, lost: bool, before: seq<byte>, image: seq<byte>)
    requires InRead(s.up, before, image) && S.Sound(u.up) && S.Moves(S.InToken(lost), s, u)
    ensures InRead(u.up, before, image)
  {
    hide InRead, S.Sound, Q.Inv, S.Served, S.Advanced, S.MovesProducer, S.MovesTaker;
    if S.Free(s) && s.up.tx.flight != [] && !lost {
      StepsOn(s.up, u.up, Q.SendStep, before, image);
    } else {
      SameQueue(s.up, u.up, before, image);
    }
  }

  lemma PumpsOn(op: S.Op, s: S.State, u: S.State, before: seq<byte>, image: seq<byte>)
    requires InRead(s.up, before, image) && S.Sound(u.up) && S.Moves(op, s, u) && (op.Idle? || op.Kick?)
    ensures InRead(u.up, before, image)
  {
    hide InRead, S.Sound, Q.Inv, Q.Pumps, Q.Kick, S.Rested, S.Served, S.Advanced, S.MovesTaker;
    if u.up.tx == s.up.tx {
      SameQueue(s.up, u.up, before, image);
    } else {
      StepsOn(s.up, u.up, if op.Idle? then Q.OtherStep else Q.KickStep, before, image);
    }
  }

  lemma MovesOn(op: S.Op, s: S.State, u: S.State, before: seq<byte>, image: seq<byte>)
    requires InRead(s.up, before, image) && S.Sound(u.up) && S.Moves(op, s, u)
    requires During(op) && Faithful(op, s, image)
    ensures InRead(u.up, before, image)
  {
    hide InRead, Faithful, S.Sound, S.Served, S.Advanced, S.MovesProducer, S.MovesTaker, Q.Inv, During;
    match op
    case Interrupt => ServesOn(s, u, before, image);
    case Advance => AdvancesOn(s, u, before, image);
    case Publish(avail) => PublishesOn(s, u, avail, before, image);
    case Kick => PumpsOn(op, s, u, before, image);
    case Idle => PumpsOn(op, s, u, before, image);
    case InToken(lost) => PollsOn(s, u, lost, before, image);
    case _ => StillOn(op, s, u, before, image);
  }

  // ------------------------------------------------------------------ the whole read

  lemma Opens(base: seq<byte>, s: S.State, u: S.State, image: seq<byte>)
    requires S.Sound(s.up) && S.Sound(u.up) && S.Moves(S.Begin(base, |image|), s, u)
    requires S.Runs(s) && |image| <= |base| && |image| < 0x1_0000
    ensures InRead(u.up, u.up.queued, image) && s.up.got <= u.up.queued
  {
    assert u.up.queued + [] == u.up.queued;
    S.CutsTail(s, u, S.Begin(base, |image|));
  }

  // A run that opens a read and goes on with anything else, its publications faithful to the image.
  ghost predicate Reading(ops: seq<S.Op>, hist: seq<S.State>, image: seq<byte>) {
    && S.Trace(ops, hist) && |ops| > 0
    && ops[0].Begin? && ops[0].total == |image| <= |ops[0].base| && |image| < 0x1_0000 && S.Runs(hist[0])
    && forall i :: 1 <= i < |ops| ==> During(ops[i]) && Faithful(ops[i], hist[i], image)
  }

  lemma {:induction false} ReadStands(ops: seq<S.Op>, hist: seq<S.State>, image: seq<byte>, n: nat)
    requires Reading(ops, hist, image) && 0 < n <= |ops|
    ensures InRead(hist[n].up, hist[1].up.queued, image) && hist[0].up.got <= hist[1].up.queued
    decreases n
  {
    hide InRead, S.Moves, Faithful;
    assert S.Promised(hist[n - 1]) && S.Promised(hist[n]) && S.Moves(ops[n - 1], hist[n - 1], hist[n]);
    if n == 1 {
      Opens(ops[0].base, hist[0], hist[1], image);
    } else {
      ReadStands(ops, hist, image, n - 1);
      assert During(ops[n - 1]) && Faithful(ops[n - 1], hist[n - 1], image);
      MovesOn(ops[n - 1], hist[n - 1], hist[n], hist[1].up.queued, image);
    }
  }

  // The counter has reached the length: nothing of the region is staged any more.
  lemma AllSent(u: S.Up, before: seq<byte>, image: seq<byte>)
    requires InRead(u, before, image) && u.tx.sent == |image| > 0
    ensures u.got == before + image
  {
    var t := u.tx;
    Q.SentIsWire(t, before);
    assert t.region.published[..|image|] == image;
    Q.OnlyRegionCredit(t.flight);
    if !u.same {
      assert Q.Flat(t.flight) == t.flight[0].data + Q.Flat(t.flight[1..]);
      assert t.flight[0].data == [];
    }
  }

  // In every interleaving: when bl_usb_tx_direct_sent() says the read is out, the host has exactly
  // the image, behind what it had or was still owed when the read began.
  lemma ReadArrives(ops: seq<S.Op>, hist: seq<S.State>, image: seq<byte>)
    requires Reading(ops, hist, image) && hist[|ops|].up.tx.sent == |image| > 0
    ensures hist[|ops|].up.got == hist[1].up.queued + image && hist[0].up.got <= hist[1].up.queued
  {
    ReadStands(ops, hist, image, |ops|);
    AllSent(hist[|ops|].up, hist[1].up.queued, image);
  }

  // ------------------------------------------------------------------ do_cart_read()'s publications

  // Its publications, made with the reply as it stood at each mark, are faithful to the image.
  ghost predicate Publishes(ops: seq<S.Op>, hist: seq<S.State>, marks: seq<nat>, shown: seq<seq<byte>>)
    requires |hist| == |ops| + 1 && |shown| == |marks|
  {
    forall i :: 0 <= i < |ops| && ops[i].Publish? ==>
      exists j :: 0 <= j < |marks| && ops[i].avail == marks[j] <= |hist[i].up.base|
                  && hist[i].up.base[..marks[j]] == shown[j]
  }

  lemma ImageFront(rom: A.Rom, hwaddr: nat, m: nat, len: nat)
    requires m <= len && (m % 2 == 0 || m == len)
    ensures A.Image(rom, hwaddr, len)[..m] == A.Image(rom, hwaddr, m)
  {
    if m < len {
      A.RomJoins(rom, hwaddr, m / 2, len / 2 - m / 2);
    } else {
      assert A.Image(rom, hwaddr, len)[..len] == A.Image(rom, hwaddr, len);
    }
  }

  // CartRead's contract is what ReadArrives needs: the marks are fit, so each is taken when thread
  // mode runs, and each shows the front of the image.
  lemma CartReadArrives(ops: seq<S.Op>, hist: seq<S.State>, rom: A.Rom, hwaddr: nat, len: nat,
                        marks: seq<nat>, shown: seq<seq<byte>>)
    requires S.Trace(ops, hist) && |ops| > 0 && S.Runs(hist[0])
    requires ops[0].Begin? && ops[0].total == len <= |ops[0].base| && 0 < len < 0x1_0000
    requires forall i :: 1 <= i < |ops| ==> During(ops[i])
    requires A.AllFit(marks, len) && A.Showed(rom, hwaddr, marks, shown) && Publishes(ops, hist, marks, shown)
    requires hist[|ops|].up.tx.sent == len
    ensures hist[|ops|].up.got == hist[1].up.queued + A.Image(rom, hwaddr, len)
    ensures hist[0].up.got <= hist[1].up.queued
  {
    var image := A.Image(rom, hwaddr, len);
    forall i | 1 <= i < |ops| ensures Faithful(ops[i], hist[i], image) {
      MarkFaithful(ops, hist, i, rom, hwaddr, len, marks, shown);
    }
    ReadArrives(ops, hist, image);
  }

  lemma MarkFaithful(ops: seq<S.Op>, hist: seq<S.State>, i: nat, rom: A.Rom, hwaddr: nat, len: nat,
                     marks: seq<nat>, shown: seq<seq<byte>>)
    requires |hist| == |ops| + 1 && i < |ops|
    requires A.AllFit(marks, len) && A.Showed(rom, hwaddr, marks, shown) && Publishes(ops, hist, marks, shown)
    ensures Faithful(ops[i], hist[i], A.Image(rom, hwaddr, len))
  {
    hide A.Image, S.MayPublish;
    if ops[i].Publish? {
      var j :| 0 <= j < |marks| && ops[i].avail == marks[j] <= |hist[i].up.base|
               && hist[i].up.base[..marks[j]] == shown[j];
      assert A.Fit(marks[j], len);
      if marks[j] <= len {
        EvenMark(marks[j]);
        ImageFront(rom, hwaddr, marks[j], len);
      }
    }
  }

  lemma EvenMark(m: nat)
    ensures m % Q.PKT == 0 ==> m % 2 == 0
  {
    if m % Q.PKT == 0 {
      assert m == 2 * (32 * (m / Q.PKT));
    }
  }

  // A fit mark is taken whenever thread mode runs.
  lemma FitIsTaken(s: S.State, mark: nat, before: seq<byte>, image: seq<byte>)
    requires InRead(s.up, before, image) && S.Runs(s) && |image| <= |s.up.base|
    requires A.Fit(mark, |image|) && S.Published(s.up) <= mark <= |image|
    ensures S.MayPublish(s, mark)
  {
  }
}
