/** Endpoint 2 as a whole: both directions over one transfer flag, the service routine that may be
    caught with the bus already released, thread-mode callers, and a host that alternates its data
    PIDs and repeats a transaction whose handshake it lost (section 8.6 of the USB 2.0
    specification).  Each operation of Link happens if its turn can come now and does nothing
    otherwise, so Run covers every interleaving; Ep2Spec says what each one changes. */
module Ep2Link {
  import opened Bytes
  import Q = TxQueue
  import T = TxEngine
  import R = RxEngine
  import S = Ep2Spec

  class Link {
    const tx: T.Engine
    const rx: R.Engine
    var ep0Latched: bool         // RB_UIF_TRANSFER is set for another endpoint

    // the host's end of the two pipes
    var outNow: Option<seq<byte>>
    var outTog: bool
    var inTog: bool
    ghost var outDone: seq<byte>   // packets it saw acknowledged
    ghost var inGot: seq<byte>     // bytes it accepted

    // the callers' end
    ghost var gone: seq<byte>      // OUT bytes from before the last flush or reset
    ghost var taken: seq<byte>     // what bl_usb_rx() has returned since, call after call
    ghost var queued: seq<byte>    // what was queued or published, in order, and not withdrawn

    ghost predicate Valid()
      reads this, tx, tx.port, tx.acct, rx, rx.ring, rx.ring.buf
      ensures Valid() ==> UpValid() && DownValid()
    {
      UpValid() && DownValid() && !(tx.port.filling && rx.copying)
    }

    ghost predicate UpValid()
      reads `inTog, `inGot, `queued, tx, tx.port, tx.acct
      ensures UpValid() ==> tx.Valid() && Q.Inv(tx.View()) && Q.Ledger(tx.View()) == queued
      ensures UpValid() && inTog != tx.port.tog ==> tx.port.flight != []
    {
      && tx.Valid() && Q.Ledger(tx.View()) == queued
      && S.InInStep(tx.View(), inTog == tx.port.tog, inGot)
    }

    // The host's OUT toggle is the device's, or the device is one acknowledged packet ahead.
    ghost predicate DownValid()
      reads `outNow, `outTog, `outDone, `gone, `taken, rx, rx.ring, rx.ring.buf
      ensures DownValid() ==> rx.Valid()
    {
      && rx.Valid()
      && (outNow.Some? ==> |outNow.value| <= R.WINDOW)
      && (if outTog == rx.rTog then rx.accepted == outDone
          else outNow.Some? && rx.accepted == outDone + outNow.value)
      && rx.delivered == gone + taken
    }

    ghost function UpNow(): S.Up
      reads `inTog, `inGot, `queued, tx, tx.port, tx.acct
      requires UpValid()
    {
      S.Up(tx.View(), tx.dirBase, if tx.port.filling then tx.port.k else 0, inTog == tx.port.tog, inGot, queued)
    }

    ghost function DownNow(): S.Down
      reads `outNow, `outTog, `outDone, `gone, `taken, rx, rx.ring, rx.ring.buf
      requires DownValid()
    {
      S.Down(rx.rAck, rx.flag, rx.InHand(), rx.copying,
             if rx.copying then rx.k else 0, if rx.copying then rx.len else 0, rx.Used(),
             rx.taking, rx.n, rx.out, outTog != rx.rTog, outNow, outDone, rx.accepted, gone, taken)
    }

    ghost function Now(): S.State
      reads this, tx, tx.port, tx.acct, rx, rx.ring, rx.ring.buf
      requires Valid()
    {
      S.State(rx.lean, rx.dbuf, ep0Latched, UpNow(), DownNow())
    }

    constructor (lean: bool, shadow: bool, dbuf: bool)
      ensures Valid() && Now() == S.PowerOn(lean, dbuf)
      ensures fresh(tx) && fresh(tx.port) && fresh(tx.acct)
      ensures fresh(rx) && fresh(rx.ring) && fresh(rx.ring.buf)
      ensures tx.acct.lean == lean && tx.port.shadow == shadow
    {
      hide *;
      tx := new T.Engine(lean, shadow);
      rx := new R.Engine(lean, dbuf);
      ep0Latched := false;
      outNow, outTog, inTog := None, false, false;
      outDone, inGot, gone, taken, queued := [], [], [], [], [];
      new;
      Started();
    }

    lemma Started()
      requires tx.Valid() && rx.Valid() && tx.View() == Q.Start && !tx.port.tog && tx.dirBase == []
      requires !rx.rTog && !rx.copying && rx.accepted == [] && rx.delivered == []
      requires rx.rAck && !rx.flag && !rx.taking && rx.n == 0 && rx.out == [] && rx.Used() == 0
      requires !ep0Latched && outNow == None && !outTog && !inTog && outDone == [] && inGot == []
      requires gone == [] && taken == [] && queued == []
      ensures Valid() && Now() == S.PowerOn(rx.lean, rx.dbuf)
    {
      hide T.Engine.Valid, R.Engine.Valid, Q.Inv;
    }

    // RB_UC_INT_BUSY: a set transfer flag holds the SIE off.
    predicate BusFree()
      reads this, tx, rx
    {
      !tx.inLatched && !rx.flag && !ep0Latched
    }

    // Thread mode runs only while the service routine is not inside a copy.
    predicate ThreadRuns()
      reads tx, tx.port, rx
    {
      !tx.port.filling && !rx.copying
    }

    // The guards, as Ep2Spec words them.
    lemma AsSeen()
      requires Valid()
      ensures S.Free(Now()) <==> BusFree()
      ensures S.Runs(Now()) <==> ThreadRuns()
      ensures Now().up.tx.latched == [] <==> !tx.inLatched
      ensures BusFree() ==> (Now().up.tx.flight != [] <==> tx.port.ack)
      ensures Now().down.flag == rx.flag && Now().down.taking == rx.taking
      ensures Now().up.same <==> inTog == tx.port.tog
    {
      hide Valid, T.Engine.Valid, R.Engine.Valid, Q.Inv;
      Front();
    }

    // One step of the transmit queue, seen from the host and from the callers.
    lemma Booked(t: Q.Tx, s: Q.Step, same: bool)
      requires Q.Inv(t) && Q.Enabled(t, s) && Q.PublishesWhole(t, s) && !s.SendStep?
      requires S.InInStep(t, same, inGot) && (s.FlushStep? ==> same)
      ensures Q.Inv(Q.Next(t, s)) && S.InInStep(Q.Next(t, s), same, inGot)
      ensures Q.Ledger(Q.Next(t, s)) == Q.LedgerAfter(t, s)
      ensures s.KickStep? || s.CompleteStep? || s.RefillStep? || s.OtherStep? ==>
                Q.Ledger(Q.Next(t, s)) == Q.Ledger(t)
    {
      hide Q.Inv, Q.Ledger, Q.Enabled, Q.Next, S.InInStep;
      S.FrontStays(t, s, same, inGot);
      Q.LedgerMoves(t, s);
      assert Q.Ledger(t) + [] == Q.Ledger(t);
    }

    // ------------------------------------------------------------------ the host and the SIE

    method Submit(data: seq<byte>)
      requires Valid()
      modifies `outNow
      ensures Valid() && S.Moves(S.Submit(data), old(Now()), Now())
    {
      hide UpValid, R.Engine.Valid, Q.Inv, S.Served, S.Advanced, S.MovesProducer, S.MovesTaker;
      if outNow.None? && |data| <= R.WINDOW {
        outNow := Some(data);
      }
    }

    method OutToken(lost: bool)
      requires Valid()
      modifies `outNow, `outDone, `outTog, rx, rx.ring, rx.ring.buf
      ensures Valid() && S.Moves(S.OutToken(lost), old(Now()), Now())
    {
      hide UpValid, UpNow, DownValid, Q.Inv, R.Engine.InHand, S.Received, S.Served, S.Advanced,
           S.MovesProducer, S.MovesTaker;
      AsSeen();
      if BusFree() && rx.rAck && outNow.Some? {
        Exchange(lost);
      }
    }

    method Exchange(lost: bool)
      requires DownValid() && !rx.flag && rx.rAck && outNow.Some?
      modifies `outNow, `outDone, `outTog, rx, rx.ring, rx.ring.buf
      ensures DownValid() && rx.copying == old(rx.copying)
      ensures DownNow() == S.Received(old(DownNow()), old(outNow).value, lost)
    {
      hide DownValid, R.Engine.InHand;
      Receive();
      if !lost {
        Acknowledged();
      }
    }

    method Receive()
      requires DownValid() && !rx.flag && rx.rAck && outNow.Some?
      modifies rx, rx.ring, rx.ring.buf
      ensures DownValid() && DownNow() == S.Received(old(DownNow()), outNow.value, true)
    {
      hide R.Engine.Valid, R.Engine.InHand, R.Ring.Used;
      rx.SieOut(outNow.value, outTog);
    }

    // Our handshake reaches the host.
    method Acknowledged()
      requires DownValid() && outNow.Some? && outTog != rx.rTog
      modifies `outNow, `outDone, `outTog
      ensures DownValid()
      ensures DownNow() == old(DownNow()).(ahead := false, now := None, done := old(outDone) + old(outNow).value)
    {
      hide R.Engine.Valid;
      outDone := outDone + outNow.value;
      outTog, outNow := !outTog, None;
    }

    // The host reads the window our toggle names and ignores a PID it has seen.
    method InToken(lost: bool)
      requires Valid()
      modifies `inGot, `inTog, tx, tx.port, tx.acct
      ensures Valid() && S.Moves(S.InToken(lost), old(Now()), Now())
    {
      hide UpValid, UpNow, DownValid, DownNow, Q.Inv, S.Served, S.Advanced, S.MovesProducer, S.MovesTaker;
      AsSeen();
      if BusFree() && tx.port.ack {
        Poll(lost);
      }
    }

    method Poll(lost: bool)
      requires UpValid() && !tx.inLatched && tx.port.ack
      modifies `inGot, `inTog, tx, tx.port, tx.acct
      ensures UpValid() && old(UpNow()).tx.flight != [] && UpNow() == S.Polled(old(UpNow()), lost)
      ensures tx.port.filling == old(tx.port.filling)
    {
      hide UpValid, Q.Inv, Q.Ledger;
      Front();
      if inTog == tx.port.tog {
        Take();
      }
      if !lost {
        Handshake();
      }
    }

    method Take()
      requires UpValid() && !tx.inLatched && tx.port.ack && inTog == tx.port.tog && tx.port.flight != []
      modifies `inGot, `inTog
      ensures UpValid() && UpNow() == old(UpNow()).(got := old(inGot) + tx.port.flight[0].data, same := false)
    {
      hide T.Engine.Valid, Q.Inv, Q.Ledger;
      Front();
      inGot := inGot + tx.port.Win(tx.port.tog)[..tx.port.len];
      inTog := !inTog;
    }

    // The host has the packet and its handshake reaches the SIE, which moves on.
    method Handshake()
      requires UpValid() && !tx.inLatched && tx.port.flight != [] && inTog != tx.port.tog
      modifies tx, tx.port, tx.acct
      ensures UpValid() && UpNow() == old(UpNow()).(tx := Q.Send(old(tx.View())), same := true)
      ensures tx.port.filling == old(tx.port.filling)
    {
      hide T.Engine.Valid, Q.Inv;
      Front();
      ghost var t := tx.View();
      Q.SendKeeps(t);
      tx.SieSend();
    }

    lemma Front()
      requires tx.Valid()
      ensures !tx.inLatched ==> tx.port.latched == [] && (tx.port.ack <==> tx.port.flight != [])
      ensures !tx.inLatched && tx.port.ack ==>
                tx.port.len <= |tx.port.Win(tx.port.tog)|
                && tx.port.flight[0].data == tx.port.Win(tx.port.tog)[..tx.port.len]
    {
    }

    method Ep0Token()
      requires Valid()
      modifies `ep0Latched
      ensures Valid() && S.Moves(S.Ep0Token, old(Now()), Now())
    {
      hide UpValid, UpNow, DownValid, DownNow, Q.Inv, S.Served, S.Advanced, S.MovesProducer, S.MovesTaker;
      AsSeen();
      if BusFree() {
        ep0Latched := true;
      }
    }

    // ------------------------------------------------------------------ the service routine

    // From its entry to its return, or to the first byte of a copy it makes with the bus released
    // or held.
    method Interrupt()
      requires Valid()
      modifies `ep0Latched, tx, tx.port, tx.acct, rx, rx.ring, rx.ring.buf
      ensures Valid() && S.Moves(S.Interrupt, old(Now()), Now())
    {
      hide UpValid, UpNow, DownValid, Q.Inv, S.Rested, S.PickedUp, S.Pumps, Q.Complete, S.Advanced,
           S.MovesProducer, S.MovesTaker;
      AsSeen();
      if ThreadRuns() {
        if rx.flag {
          ServeOut();
        } else if tx.inLatched {
          ServeIn();
        } else if ep0Latched {
          ServeEp0();
        }
      }
    }

    method ServeOut()
      requires Valid() && rx.flag && ThreadRuns()
      modifies tx, tx.port, tx.acct, rx, rx.ring, rx.ring.buf
      ensures Valid() && S.PickedUp(old(Now()), DownNow())
      ensures Now() == old(Now()).(up := if DownNow().copying then old(UpNow()) else S.Pumps(old(UpNow())),
                                   down := DownNow())
    {
      hide UpValid, UpNow, DownValid, Q.Inv, S.PickedUp, S.Pumps;
      PickUp();
      if !rx.copying {
        TxPumps();
      }
    }

    // The receive side of ServeOut.
    method PickUp()
      requires Valid() && rx.flag && !rx.copying
      modifies rx, rx.ring, rx.ring.buf
      ensures DownValid() && S.PickedUp(old(Now()), DownNow())
    {
      hide UpValid, R.Engine.Valid, R.Ring.Used;
      rx.Service();
    }

    method ServeEp0()
      requires Valid() && ThreadRuns() && !rx.flag && !tx.inLatched && ep0Latched
      modifies `ep0Latched, tx, tx.port, tx.acct, rx, rx.ring, rx.ring.buf
      ensures Valid() && S.Rested(rx.lean, old(DownNow()), DownNow())
      ensures Now() == old(Now()).(ep0 := false, up := S.Pumps(old(UpNow())), down := DownNow())
    {
      hide UpValid, UpNow, DownValid, DownNow, Q.Inv, S.Rested, S.Pumps;
      TxPumps();
      RxPumps();
      ep0Latched := false;
    }

    method ServeIn()
      requires Valid() && tx.inLatched && !rx.flag && ThreadRuns()
      modifies tx, tx.port, tx.acct, rx, rx.ring, rx.ring.buf
      ensures Valid() && |old(UpNow()).tx.latched| == 1
      ensures Now() == old(Now()).(up := old(UpNow()).(tx := Q.Complete(old(UpNow()).tx), fill := 0),
                                   down := DownNow())
      ensures if UpNow().tx.refilling then DownNow() == old(DownNow())
              else S.Rested(rx.lean, old(DownNow()), DownNow())
    {
      hide UpValid, DownValid, DownNow, Q.Inv, Q.Complete, S.Rested;
      Complete();
      if !tx.port.filling {
        RxPumps();
      }
    }

    method Complete()
      requires UpValid() && tx.inLatched && !tx.port.filling
      modifies tx, tx.port, tx.acct
      ensures UpValid() && |old(UpNow()).tx.latched| == 1
      ensures UpNow() == old(UpNow()).(tx := Q.Complete(old(UpNow()).tx), fill := 0)
    {
      hide T.Engine.Valid, Q.Inv, Q.Ledger, Q.Complete, S.InInStep;
      Latched();
      Booked(tx.View(), Q.CompleteStep, inTog == tx.port.tog);
      tx.Complete();
    }

    lemma Latched()
      requires tx.Valid() && tx.inLatched
      ensures |tx.port.latched| == 1
    {
    }

    // usb_pumps()
    method TxPumps()
      requires UpValid() && !tx.port.filling
      modifies tx, tx.port, tx.acct
      ensures UpValid() && !tx.port.filling && UpNow() == S.Pumps(old(UpNow()))
    {
      hide T.Engine.Valid, Q.Inv, Q.Ledger, Q.Pumps, S.InInStep;
      ghost var t := tx.View();
      Booked(t, Q.OtherStep, inTog == tx.port.tog);
      Q.PumpsLatched(t);
      tx.OtherService();
    }

    method RxPumps()
      requires DownValid() && !rx.copying
      modifies rx, rx.ring, rx.ring.buf
      ensures DownValid() && !rx.copying && S.Rested(rx.lean, old(DownNow()), DownNow())
    {
      hide R.Engine.Valid, R.Engine.InHand, R.Ring.Used;
      rx.OtherService();
    }

    // One byte of the copy the service routine is in; after the last one it finishes and returns.
    method Advance()
      requires Valid()
      modifies tx, tx.port, tx.acct, rx, rx.ring, rx.ring.buf
      ensures Valid() && S.Moves(S.Advance, old(Now()), Now())
    {
      hide UpValid, DownValid, Q.Inv, Q.Refilled, S.Rested, S.Pumps, S.Served, S.MovesProducer, S.MovesTaker;
      Bounds();
      if tx.port.filling {
        Refill();
      } else if rx.copying {
        CopyOut();
      }
    }

    lemma Bounds()
      requires Valid()
      ensures tx.port.filling ==> tx.port.k <= Q.PKT && !rx.copying
      ensures rx.copying ==> rx.k <= rx.len && (!rx.dbuf ==> rx.InHand() == 0)
    {
    }

    method Refill()
      requires Valid() && tx.port.filling && tx.port.k <= Q.PKT && !rx.copying
      modifies tx, tx.port, tx.acct, rx, rx.ring, rx.ring.buf
      ensures Valid() && S.Advanced(old(Now()), Now())
    {
      hide UpValid, DownValid, DownNow, Q.Inv, Q.Refilled, S.Rested;
      if tx.port.k < Q.PKT {
        RefillByte();
      } else {
        RefillDone();
        RxPumps();
      }
    }

    method RefillByte()
      requires UpValid() && tx.port.filling && tx.port.k < Q.PKT
      modifies tx, tx.port, tx.acct
      ensures UpValid() && tx.port.filling && UpNow() == old(UpNow()).(fill := old(tx.port.k) + 1)
    {
      hide T.Engine.Valid, Q.Inv, Q.Ledger, S.InInStep;
      tx.RefillByte();
    }

    method RefillDone()
      requires UpValid() && tx.port.filling && tx.port.k == Q.PKT
      modifies tx, tx.port, tx.acct
      ensures UpValid() && !tx.port.filling
      ensures UpNow() == old(UpNow()).(tx := Q.Refilled(old(tx.View())), fill := 0)
    {
      hide T.Engine.Valid, Q.Inv, Q.Ledger, Q.Pumps, S.InInStep;
      ghost var t := tx.View();
      Booked(t, Q.RefillStep, inTog == tx.port.tog);
      Q.PumpsLatched(Q.Refill(t));
      tx.RefillDone();
    }

    method CopyOut()
      requires Valid() && rx.copying && rx.k <= rx.len && (!rx.dbuf ==> rx.InHand() == 0) && !tx.port.filling
      modifies tx, tx.port, tx.acct, rx, rx.ring, rx.ring.buf
      ensures Valid() && S.Advanced(old(Now()), Now())
    {
      hide UpValid, DownValid, Q.Inv, S.Pumps;
      if rx.k < rx.len {
        CopyByte();
      } else {
        CopyEnd();
      }
    }

    method CopyEnd()
      requires Valid() && rx.copying && rx.k == rx.len && (!rx.dbuf ==> rx.InHand() == 0) && !tx.port.filling
      modifies tx, tx.port, tx.acct, rx, rx.ring, rx.ring.buf
      ensures Valid() && !tx.port.filling && (DownNow().ack <==> S.Room(DownNow()))
      ensures Now() == old(Now()).(up := S.Pumps(old(UpNow())), down := S.CopiedOut(old(Now()), DownNow().ack))
    {
      hide UpValid, UpNow, DownValid, Q.Inv, S.Pumps, S.CopiedOut;
      CopyDone();
      TxPumps();
    }

    method CopyByte()
      requires DownValid() && rx.copying && rx.k < rx.len
      modifies rx, rx.ring, rx.ring.buf
      ensures DownValid() && DownNow() == old(DownNow()).(k := old(rx.k) + 1)
    {
      hide R.Engine.Valid, R.Engine.InHand;
      rx.CopyByte();
    }

    method CopyDone()
      requires Valid() && rx.copying && rx.k == rx.len && (!rx.dbuf ==> rx.InHand() == 0)
      modifies rx, rx.ring, rx.ring.buf
      ensures DownValid() && !rx.copying && DownNow() == S.CopiedOut(old(Now()), rx.rAck)
      ensures rx.rAck <==> S.Room(DownNow())
    {
      hide UpValid, UpNow, R.Engine.Valid, R.Ring.Used;
      rx.CopyDone();
    }

    method Idle()
      requires Valid()
      modifies tx, tx.port, tx.acct, rx, rx.ring, rx.ring.buf
      ensures Valid() && S.Moves(S.Idle, old(Now()), Now())
    {
      hide UpValid, UpNow, DownValid, DownNow, Q.Inv, S.Rested, S.Pumps, S.Served, S.Advanced, S.MovesProducer,
           S.MovesTaker;
      AsSeen();
      if BusFree() && ThreadRuns() {
        TxPumps();
        RxPumps();
      }
    }

    // ------------------------------------------------------------------ thread mode

    method Begin(base: seq<byte>, total: nat)
      requires Valid()
      modifies `queued, tx, tx.port, tx.acct
      ensures Valid() && S.Moves(S.Begin(base, total), old(Now()), Now())
    {
      hide UpValid, UpNow, DownValid, DownNow, Q.Inv, S.Served, S.Advanced, S.MovesTaker, Q.Nominate, Q.Kept, Q.Flat;
      AsSeen();
      if ThreadRuns() && total <= |base| && total < 0x1_0000 {
        Nominate(base, total);
      }
    }

    method Nominate(base: seq<byte>, total: nat)
      requires UpValid() && !tx.port.filling && total <= |base| && total < 0x1_0000
      modifies `queued, tx, tx.port, tx.acct
      ensures UpValid() && !tx.port.filling
      ensures UpNow() == S.Nominated(old(UpNow()), Q.Region(total, [], 0)).(base := base)
    {
      hide T.Engine.Valid, Q.Inv, Q.Ledger, S.InInStep, Q.Kept, Q.Flat;
      ghost var t := tx.View();
      Booked(t, Q.BeginStep(total), inTog == tx.port.tog);
      tx.DirectBegin(base, total);
      queued := t.wire + Q.Flat(Q.Kept(t)) + t.ring;
    }

    method Produce(at: nat, b: byte)
      requires Valid()
      modifies tx, tx.port, tx.acct
      ensures Valid() && S.Moves(S.Produce(at, b), old(Now()), Now())
    {
      hide UpValid, DownValid, DownNow, Q.Inv, S.Served, S.Advanced, S.MovesTaker;
      if tx.dirAvail <= at < |tx.dirBase| {
        Write(at, b);
      }
    }

    method Write(at: nat, b: byte)
      requires UpValid() && tx.dirAvail <= at < |tx.dirBase|
      modifies tx, tx.port, tx.acct
      ensures UpValid() && UpNow() == old(UpNow()).(base := old(tx.dirBase)[at := b])
    {
      hide T.Engine.Valid, Q.Inv, Q.Ledger, S.InInStep;
      tx.Produce(at, b);
    }

    // Whole packets, or all that is left.
    method Publish(avail: nat)
      requires Valid()
      modifies `queued, tx, tx.port, tx.acct
      ensures Valid() && S.Moves(S.Publish(avail), old(Now()), Now())
    {
      hide UpValid, DownValid, DownNow, Q.Inv, Q.Enabled, Q.Publish, S.Served, S.Advanced, S.MovesTaker;
      AsSeen();
      if && ThreadRuns() && tx.dirOpen && tx.dirAvail <= avail <= tx.dirTotal
         && (avail % Q.PKT == 0 || avail == tx.dirTotal)
      {
        PublishTo(avail);
      }
    }

    method PublishTo(avail: nat)
      requires UpValid() && !tx.port.filling && tx.dirOpen && tx.dirAvail <= avail <= tx.dirTotal
      requires avail % Q.PKT == 0 || avail == tx.dirTotal
      modifies `queued, tx, tx.port, tx.acct
      ensures UpValid() && !tx.port.filling
      ensures var u, more := old(UpNow()), old(tx.dirBase[tx.dirAvail..avail]);
              Q.Enabled(u.tx, Q.PublishStep(more))
              && UpNow() == u.(tx := Q.Publish(u.tx, more), queued := u.queued + more)
    {
      hide T.Engine.Valid, Q.Inv, Q.Ledger, S.InInStep, Q.Publish, Q.Enabled;
      ghost var more := Ready(avail);
      tx.DirectPublish(avail);
      queued := queued + more;
    }

    lemma Ready(avail: nat) returns (more: seq<byte>)
      requires UpValid() && !tx.port.filling && tx.dirOpen && tx.dirAvail <= avail <= tx.dirTotal
      requires avail % Q.PKT == 0 || avail == tx.dirTotal
      ensures more == tx.dirBase[tx.dirAvail..avail] && Q.Enabled(tx.View(), Q.PublishStep(more))
      ensures var u := Q.Publish(tx.View(), more);
              Q.Inv(u) && S.InInStep(u, inTog == tx.port.tog, inGot) && Q.Ledger(u) == queued + more && !u.refilling
    {
      hide T.Engine.Valid, Q.Inv, Q.Ledger, S.InInStep, Q.Publish;
      more := tx.dirBase[tx.dirAvail..avail];
      tx.PublishedView(avail);
      Booked(tx.View(), Q.PublishStep(more), inTog == tx.port.tog);
      PublishStays(tx.View(), more);
    }

    static lemma PublishStays(t: Q.Tx, more: seq<byte>)
      requires Q.Inv(t) && Q.Enabled(t, Q.PublishStep(more))
      ensures Q.Publish(t, more).refilling == t.refilling
    {
      Q.PublishKeeps(t, more);
    }

    method End()
      requires Valid()
      modifies `queued, tx, tx.port, tx.acct
      ensures Valid() && S.Moves(S.End, old(Now()), Now())
    {
      hide UpValid, UpNow, DownValid, DownNow, Q.Inv, S.Served, S.Advanced, S.MovesTaker, Q.Nominate, Q.Kept, Q.Flat;
      AsSeen();
      if ThreadRuns() {
        Withdraw();
      }
    }

    method Withdraw()
      requires UpValid() && !tx.port.filling
      modifies `queued, tx, tx.port, tx.acct
      ensures UpValid() && !tx.port.filling && UpNow() == S.Nominated(old(UpNow()), Q.NoRegion)
    {
      hide T.Engine.Valid, Q.Inv, Q.Ledger, S.InInStep, Q.Kept, Q.Flat;
      ghost var t := tx.View();
      Booked(t, Q.EndStep, inTog == tx.port.tog);
      tx.DirectEnd();
      queued := t.wire + Q.Flat(Q.Kept(t)) + t.ring;
    }

    // One locked chunk of tx_queue().
    method Queue(buf: seq<byte>)
      requires Valid()
      modifies `queued, tx, tx.port, tx.acct
      ensures Valid() && S.Moves(S.Queue(buf), old(Now()), Now())
    {
      hide UpValid, DownValid, DownNow, Q.Inv, S.Served, S.Advanced, S.MovesTaker, Q.Store, Q.Room;
      AsSeen();
      if ThreadRuns() && !tx.dirOpen {
        Store(buf);
      }
    }

    method Store(buf: seq<byte>)
      requires UpValid() && !tx.dirOpen
      modifies `queued, tx, tx.port, tx.acct
      ensures UpValid() && UpNow() == S.Stored(old(UpNow()), buf)
    {
      hide T.Engine.Valid, Q.Inv, Q.Ledger, Q.Room, S.InInStep;
      ghost var t := tx.View();
      Booked(t, Q.StoreStep(buf), inTog == tx.port.tog);
      var n := tx.StoreChunk(buf);
      queued := queued + buf[..n];
    }

    method Kick()
      requires Valid()
      modifies tx, tx.port, tx.acct
      ensures Valid() && S.Moves(S.Kick, old(Now()), Now())
    {
      hide UpValid, DownValid, DownNow, Q.Inv, Q.Kick, S.Served, S.Advanced, S.MovesTaker;
      AsSeen();
      if ThreadRuns() {
        KickRing();
      }
    }

    method KickRing()
      requires UpValid() && !tx.port.filling
      modifies tx, tx.port, tx.acct
      ensures UpValid() && !tx.port.filling && UpNow() == old(UpNow()).(tx := Q.Kick(old(tx.View())))
    {
      hide T.Engine.Valid, Q.Inv, Q.Ledger, S.InInStep, Q.Kick;
      ghost var t := tx.View();
      Booked(t, Q.KickStep, inTog == tx.port.tog);
      KickStays(t);
      tx.Kick();
    }

    static lemma KickStays(t: Q.Tx)
      requires Q.Inv(t) && !t.refilling
      ensures !Q.Kick(t).refilling
    {
      Q.KickKeeps(t);
    }

    // bl_usb_rx(), which an interrupt may enter between any two of its bytes.
    method TakeBegin(max: nat)
      requires Valid()
      modifies rx, rx.ring, rx.ring.buf
      ensures Valid() && S.Moves(S.TakeBegin(max), old(Now()), Now())
    {
      hide UpValid, DownValid, Q.Inv, S.Served, S.Advanced, S.MovesProducer;
      if ThreadRuns() && !rx.taking {
        StartTake(max);
      }
    }

    method StartTake(max: nat)
      requires DownValid() && !rx.copying && !rx.taking
      modifies rx, rx.ring, rx.ring.buf
      ensures DownValid()
      ensures DownNow() == old(DownNow()).(taking := true, out := [], n := Min(old(rx.Used()), max))
    {
      hide R.Engine.Valid, R.Engine.InHand, R.Ring.Used;
      rx.TakeBegin(max);
    }

    method TakeByte()
      requires Valid()
      modifies rx, rx.ring, rx.ring.buf
      ensures Valid() && S.Moves(S.TakeByte, old(Now()), Now())
    {
      hide UpValid, DownValid, Q.Inv, S.TookOne, S.Served, S.Advanced, S.MovesProducer;
      if ThreadRuns() && rx.taking && |rx.out| < rx.n {
        TakeOne();
      }
    }

    method TakeOne()
      requires DownValid() && !rx.copying && rx.taking && |rx.out| < rx.n
      modifies rx, rx.ring, rx.ring.buf
      ensures DownValid() && DownNow() == old(DownNow()).(out := rx.out) && S.TookOne(old(DownNow()), rx.out)
    {
      hide R.Engine.Valid, R.Engine.InHand, R.Ring.Used;
      rx.TakeByte();
      TakenSoFar();
    }

    lemma TakenSoFar()
      requires rx.Valid() && rx.taking
      ensures rx.n <= rx.Used()
      ensures |rx.delivered| + |rx.out| <= |rx.accepted|
      ensures rx.out == rx.accepted[|rx.delivered|..|rx.delivered| + |rx.out|]
    {
      var d, i := rx.delivered, |rx.out|;
      assert rx.accepted[|d|..|d| + i] == rx.owed[..i];
    }

    method TakeDone()
      requires Valid()
      modifies `taken, rx, rx.ring, rx.ring.buf
      ensures Valid() && S.Moves(S.TakeDone, old(Now()), Now())
    {
      hide UpValid, DownValid, Q.Inv, S.Served, S.Advanced, S.MovesProducer;
      TakesWhatIsThere();
      if ThreadRuns() && rx.taking && |rx.out| == rx.n {
        FinishTake();
      }
    }

    lemma TakesWhatIsThere()
      requires Valid()
      ensures rx.taking ==> rx.n <= rx.Used()
    {
    }

    method FinishTake()
      requires DownValid() && !rx.copying && rx.taking && |rx.out| == rx.n <= rx.Used()
      modifies `taken, rx, rx.ring, rx.ring.buf
      ensures DownValid()
      ensures DownNow() == old(DownNow()).(taking := false, taken := old(taken) + rx.out,
                                           used := old(rx.Used()) - old(rx.n))
    {
      hide R.Engine.Valid, R.Engine.Used, R.Engine.InHand;
      rx.TakeDone();
      assert gone + (taken + rx.out) == gone + taken + rx.out;
      taken := taken + rx.out;
    }

    method Credit()
      requires Valid()
      modifies rx, rx.ring, rx.ring.buf
      ensures Valid() && S.Moves(S.Credit, old(Now()), Now())
    {
      hide UpValid, DownValid, Q.Inv, S.Served, S.Advanced, S.MovesProducer;
      if ThreadRuns() {
        Grant();
      }
    }

    method Grant()
      requires DownValid() && !rx.copying
      modifies rx, rx.ring, rx.ring.buf
      ensures DownValid() && DownNow() == old(DownNow()).(ack := S.Room(old(DownNow())))
    {
      hide R.Engine.Valid, R.Engine.InHand, R.Ring.Used;
      rx.Credit();
    }

    // ------------------------------------------------------------------ session boundaries

    // usb_session_flush(): the toggles survive.
    method SessionFlush()
      requires Valid()
      modifies `queued, `gone, `taken, `outTog, tx, tx.port, tx.acct, rx, rx.ring, rx.ring.buf
      ensures Valid() && S.Moves(S.SessionFlush, old(Now()), Now())
    {
      hide Valid, Now, Q.Inv, S.Served, S.Advanced, S.MovesProducer, S.MovesTaker;
      AsSeen();
      if !tx.inLatched && !rx.flag && ThreadRuns() && !rx.taking && inTog == tx.port.tog {
        FlushBoth();
      }
    }

    method FlushBoth()
      requires Valid() && !tx.inLatched && !rx.flag && ThreadRuns() && !rx.taking && inTog == tx.port.tog
      modifies `queued, `gone, `taken, `outTog, tx, tx.port, tx.acct, rx, rx.ring, rx.ring.buf
      ensures Valid()
      ensures var s := old(Now()); Now() == s.(up := S.FlushedUp(s.up), down := S.FlushedDown(s.down))
    {
      hide UpValid, UpNow, DownValid, DownNow, Q.Inv, Q.Flush;
      FlushIn();
      FlushOut(false);
    }

    method FlushIn()
      requires UpValid() && !tx.inLatched && !tx.port.filling && inTog == tx.port.tog
      modifies `queued, tx, tx.port, tx.acct
      ensures UpValid() && !tx.port.filling && UpNow() == S.FlushedUp(old(UpNow()))
    {
      hide T.Engine.Valid, Q.Inv, Q.Ledger, S.InInStep;
      ghost var t := tx.View();
      Booked(t, Q.FlushStep, true);
      tx.SessionFlush();
      queued := t.wire;
    }

    // Both ends are back at DATA0 after a reset, and where they were after a flush.
    method FlushOut(reset: bool)
      requires DownValid() && !rx.flag && !rx.copying && !rx.taking && (reset ==> outTog == rx.rTog)
      modifies `gone, `taken, `outTog, rx, rx.ring, rx.ring.buf
      ensures DownValid() && DownNow() == S.FlushedDown(old(DownNow()))
    {
      hide R.Engine.Valid, R.Ring.Used;
      rx.Flush(reset);
      outTog := outTog && !reset;
      gone, taken := rx.accepted, [];
      assert gone + taken == rx.accepted;
    }

    // usb_bus_reset(), which sets both ends back to DATA0 and takes the host's packet with it.
    method BusReset()
      requires Valid()
      modifies `queued, `gone, `taken, `inTog, `outTog, `outNow, `outDone,
               tx, tx.port, tx.acct, rx, rx.ring, rx.ring.buf
      ensures Valid() && S.Moves(S.BusReset, old(Now()), Now())
    {
      hide Valid, Now, Q.Inv, S.Served, S.Advanced, S.MovesProducer, S.MovesTaker;
      AsSeen();
      if BusFree() && ThreadRuns() && !rx.taking {
        Restart();
      }
    }

    method Restart()
      requires Valid() && BusFree() && ThreadRuns() && !rx.taking
      modifies `queued, `gone, `taken, `inTog, `outTog, `outNow, `outDone,
               tx, tx.port, tx.acct, rx, rx.ring, rx.ring.buf
      ensures Valid()
      ensures var s := old(Now()); Now() == s.(up := S.ResetUp(s.up), down := S.ResetDown(s.down))
    {
      hide UpValid, UpNow, DownValid, DownNow, Q.Inv, Q.Flush, Q.Send;
      ResetIn();
      ResetOut();
    }

    method ResetIn()
      requires UpValid() && !tx.inLatched && !tx.port.filling
      modifies `queued, `inTog, tx, tx.port, tx.acct
      ensures UpValid() && !tx.port.filling && UpNow() == S.ResetUp(old(UpNow()))
    {
      hide T.Engine.Valid, Q.Inv, Q.Ledger;
      ghost var t, heard := tx.View(), inTog != tx.port.tog;
      FlushedLedger(if heard then Q.Send(t) else t);
      tx.BusReset(heard);
      inTog := false;
      queued := inGot;
    }

    static lemma FlushedLedger(t: Q.Tx)
      ensures Q.Ledger(Q.Flush(t)) == t.wire
    {
      assert t.wire + [] + [] + [] == t.wire;
    }

    method ResetOut()
      requires DownValid() && !rx.flag && !rx.copying && !rx.taking
      modifies `gone, `taken, `outTog, `outNow, `outDone, rx, rx.ring, rx.ring.buf
      ensures DownValid() && DownNow() == S.ResetDown(old(DownNow()))
    {
      hide R.Engine.Valid;
      outTog, outNow, outDone := rx.rTog, None, rx.accepted;
      FlushOut(true);
    }

    // ------------------------------------------------------------------ whole runs

    lemma InKept()
      requires UpValid()
      ensures inGot <= queued
      ensures !tx.txArmed && !tx.kickDue ==> inGot == queued
    {
      var t := tx.View();
      S.GotIsFront(t, inTog == tx.port.tog, inGot);
      if !t.armed && !t.kickDue {
        Q.DisciplineNeverHolds(t.region);
        assert t.wire + [] + [] + [] == t.wire;
      }
    }

    lemma OutKept()
      requires DownValid()
      ensures gone + taken <= rx.accepted == outDone + S.Owed(DownNow())
      ensures rx.Used() == 0 && !rx.copying && !rx.flag ==> gone + taken == rx.accepted
    {
    }

    lemma Kept()
      requires Valid()
      ensures S.Promised(Now())
    {
      hide T.Engine.Valid, R.Engine.Valid, Q.Inv, Q.Ledger, S.InInStep;
      InKept();
      OutKept();
    }

    method Apply(op: S.Op)
      requires Valid()
      modifies this, tx, tx.port, tx.acct, rx, rx.ring, rx.ring.buf
      ensures Valid() && S.Moves(op, old(Now()), Now())
    {
      hide Valid, S.Moves, Now;
      match op
      case Submit(data) => Submit(data);
      case OutToken(lost) => OutToken(lost);
      case InToken(lost) => InToken(lost);
      case Ep0Token => Ep0Token();
      case Interrupt => Interrupt();
      case Advance => Advance();
      case Idle => Idle();
      case Begin(base, total) => Begin(base, total);
      case Produce(at, b) => Produce(at, b);
      case Publish(avail) => Publish(avail);
      case End => End();
      case Queue(buf) => Queue(buf);
      case Kick => Kick();
      case TakeBegin(max) => TakeBegin(max);
      case TakeByte => TakeByte();
      case TakeDone => TakeDone();
      case Credit => Credit();
      case SessionFlush => SessionFlush();
      case BusReset => BusReset();
    }

    // One operation, and the record of the run one state longer.
    method Log(op: S.Op, ghost ops: seq<S.Op>, ghost was: seq<S.State>) returns (ghost hist: seq<S.State>)
      requires Valid() && S.Trace(ops, was) && was[|ops|] == Now()
      modifies this, tx, tx.port, tx.acct, rx, rx.ring, rx.ring.buf
      ensures Valid() && hist == was + [Now()] && S.Trace(ops + [op], hist)
    {
      hide Valid, S.Moves, S.Promised, Now;
      Apply(op);
      Kept();
      S.TraceGrows(ops, was, op, Now());
      hist := was + [Now()];
    }
  }

  // Every interleaving, in every build, across flushes and resets: each operation moves the link as
  // Ep2Spec says, and after each of them both pipes have delivered each byte once and in order.
  method Run(lean: bool, shadow: bool, dbuf: bool, ops: seq<S.Op>) returns (l: Link, ghost hist: seq<S.State>)
    ensures l.Valid() && l.tx.acct.lean == lean && l.tx.port.shadow == shadow
    ensures S.Trace(ops, hist) && hist[0] == S.PowerOn(lean, dbuf) && hist[|ops|] == l.Now()
  {
    hide *;
    l := new Link(lean, shadow, dbuf);
    l.Kept();
    hist := [l.Now()];
    S.TraceStarts(l.Now());
    assert ops[..0] == [];
    for i := 0 to |ops|
      invariant l.Valid() && fresh(l) && fresh(l.tx) && fresh(l.tx.port) && fresh(l.tx.acct)
      invariant fresh(l.rx) && fresh(l.rx.ring) && fresh(l.rx.ring.buf)
      invariant l.tx.acct.lean == lean && l.tx.port.shadow == shadow
      invariant |hist| == i + 1 && hist[0] == S.PowerOn(lean, dbuf) && hist[i] == l.Now()
      invariant S.Trace(ops[..i], hist)
    {
      hist := l.Log(ops[i], ops[..i], hist);
      assert ops[..i + 1] == ops[..i] + [ops[i]];
    }
    assert ops[..|ops|] == ops;
  }
}
