/** Bulk IN on endpoint 2 as src/usb.c drives it: the linear staging ring, the region sent without
    a copy, and the pipelined path that releases the bus before it refills the freed window.  The
    service routine is cut where it leaves the bus released, down to single bytes of the refill, so
    that the SIE can be scheduled there.  Every method is a step of the queue in TxQueue. */
module TxEngine {
  import opened Bytes
  import Q = TxQueue
  import P = TxPort

  class Engine {
    const port: P.Port
    const acct: P.Account

    var txBuf: seq<byte>
    var txHead: nat
    var txTail: nat
    var txArmed: bool
    var txLastFull: bool
    var kickDue: bool
    var inLatched: bool    // RB_UIF_TRANSFER is set and names an IN on endpoint 2
    var dirOpen: bool      // tx_dir_base is not null
    var dirBase: seq<byte>
    var dirAvail: nat
    var dirPos: nat
    var dirTotal: nat
    var dirSent: nat
    ghost var wire: seq<byte>

    ghost function View(): Q.Tx
      reads this, port
      requires txTail <= txHead <= |txBuf| && dirAvail <= |dirBase|
    {
      Q.Tx(wire, port.latched, port.flight, txBuf[txTail..txHead], txHead,
           if dirOpen then Q.Region(dirTotal, dirBase[..dirAvail], dirPos) else Q.NoRegion,
           dirSent, txArmed, port.paired, txLastFull, port.filling, kickDue)
    }

    ghost predicate Shape()
      reads this, port, acct
      ensures Shape() ==> txTail <= txHead <= |txBuf| && dirPos <= dirAvail <= |dirBase|
    {
      Fits() && Accounted()
    }

    ghost predicate Fits()
      reads this, port, acct
      ensures Fits() ==> txTail <= txHead <= |txBuf| && dirPos <= dirAvail <= |dirBase|
    {
      && port.Valid() && acct.Valid()
      && |txBuf| == Q.RING_SIZE && txTail <= txHead <= Q.RING_SIZE
      && dirPos <= dirAvail <= |dirBase| && (dirOpen ==> dirAvail <= dirTotal <= |dirBase|)
      && (!dirOpen ==> dirAvail == 0)
      && port.ack == txArmed
      && (port.paired && acct.lean ==> acct.outstanding > 0)
      && (port.filling ==> dirPos + Q.PKT <= dirAvail
                           && port.incoming == dirBase[dirPos..dirPos + Q.PKT])
    }

    ghost predicate Valid()
      reads this, port, acct
      ensures Valid() ==> txTail <= txHead <= |txBuf| && dirAvail <= |dirBase| && Q.Inv(View())
      ensures Valid() && dirOpen ==> dirAvail <= dirTotal <= |dirBase|
      ensures Valid() ==> inLatched == (port.latched != []) && port.ack == txArmed && (!dirOpen ==> dirAvail == 0)
    {
      Shape() && inLatched == (port.latched != []) && Q.Inv(View())
    }

    static ghost function Worth(p: Q.Packet): nat {
      if p.credit then |p.data| else 0
    }

    // The account agrees with what the SIE has been given, oldest first.
    ghost predicate Accounted()
      reads port, acct
    {
      && |port.latched| <= 1 && |port.flight| <= 2
      && |acct.worth| == |port.latched| + |port.flight|
      && (port.latched != [] ==> acct.worth[0] == Worth(port.latched[0]))
      && (|port.flight| >= 1 ==> acct.worth[|port.latched|] == Worth(port.flight[0]))
      && (|port.flight| == 2 ==> acct.worth[|port.latched| + 1] == Worth(port.flight[1]))
    }

    // The same with the completion just credited taken out.
    ghost predicate AccountedFlight()
      reads port, acct
    {
      && |acct.worth| == |port.flight| <= 2
      && (|port.flight| >= 1 ==> acct.worth[0] == Worth(port.flight[0]))
      && (|port.flight| == 2 ==> acct.worth[1] == Worth(port.flight[1]))
    }

    constructor (lean: bool, shadow: bool)
      ensures Valid() && fresh(port) && fresh(acct)
      ensures acct.lean == lean && port.shadow == shadow
      ensures View() == Q.Start && !port.tog && dirBase == []
    {
      port := new P.Port(shadow);
      acct := new P.Account(lean);
      txBuf, txHead, txTail := seq(Q.RING_SIZE, _ => 0), 0, 0;
      txArmed, txLastFull, kickDue, inLatched := false, false, false, false;
      dirOpen, dirBase, dirAvail, dirPos, dirTotal, dirSent := false, [], 0, 0, 0, 0;
      wire := [];
      new;
      Q.StartInv();
      assert View() == Q.Start;
    }

    function DirectReady(): nat
      reads this
      requires dirPos <= dirAvail
    {
      dirAvail - dirPos
    }

    static lemma Slice(s: seq<byte>, pos: nat, avail: nat, i: nat, j: nat)
      requires i <= j <= avail - pos && avail <= |s|
      ensures s[..avail][pos..][i..j] == s[pos + i..pos + j]
    {
      var a, b := s[..avail][pos..][i..j], s[pos + i..pos + j];
      forall x | 0 <= x < |a| ensures a[x] == b[x] {
        assert s[..avail][pos..][i + x] == s[pos + i + x];
      }
    }

    static lemma Slices(s: seq<byte>, pos: nat, avail: nat)
      requires pos + 2 * Q.PKT <= avail <= |s|
      ensures s[..avail][pos..][..Q.PKT] == s[pos..pos + Q.PKT]
      ensures s[..avail][pos..][Q.PKT..2 * Q.PKT] == s[pos + Q.PKT..pos + 2 * Q.PKT]
    {
      Slice(s, pos, avail, 0, Q.PKT);
      Slice(s, pos, avail, Q.PKT, 2 * Q.PKT);
    }

    ghost predicate Idle()
      reads this, port, acct
    {
      Shape() && Q.Pumpable(View())
    }

    method PumpPair()
      requires Idle() && txHead == txTail && dirOpen && DirectReady() >= 2 * Q.PKT
      modifies `txArmed, `txLastFull, `dirPos, port, acct
      ensures Shape() && View() == Q.StagePair(old(View())) && port.tog == old(port.tog)
    {
      Slices(dirBase, dirPos, dirAvail);
      port.StagePair(Q.Packet(dirBase[dirPos..dirPos + Q.PKT], true),
                     Q.Packet(dirBase[dirPos + Q.PKT..dirPos + 2 * Q.PKT], true));
      acct.PushPair();
      dirPos := dirPos + 2 * Q.PKT;
      txArmed, txLastFull := true, true;
    }

    // One packet into the window the toggle names, and its entry in the account.
    method Arm(p: Q.Packet)
      requires Idle() && |p.data| <= Q.PKT
      modifies `txArmed, port, acct
      ensures Shape() && !port.filling && View() == old(View()).(flight := [p], armed := true)
      ensures port.tog == old(port.tog)
    {
      hide Q.Inv;
      port.StageOne(p);
      acct.Push(|p.data|, p.credit);
      txArmed := true;
    }

    method PumpRegion(m: nat)
      requires Idle() && txHead == txTail && dirOpen && 0 < m <= DirectReady() && m <= Q.PKT
      modifies `txArmed, `txLastFull, `dirPos, port, acct
      ensures Shape() && View() == Q.StageRegion(old(View()), m) && port.tog == old(port.tog)
    {
      hide Accounted, P.Port.Valid, P.Account.Valid;
      Slice(dirBase, dirPos, dirAvail, 0, m);
      Arm(Q.Packet(dirBase[dirPos..dirPos + m], true));
      dirPos := dirPos + m;
      txLastFull := m == Q.PKT;
    }

    method PumpRing(n: nat)
      requires Idle() && 0 < n <= txHead - txTail && n <= Q.PKT
      modifies `txTail, `txArmed, `txLastFull, port, acct
      ensures Shape() && View() == Q.StageRing(old(View()), n) && port.tog == old(port.tog)
    {
      hide Accounted, P.Port.Valid, P.Account.Valid;
      assert txBuf[txTail..txHead][..n] == txBuf[txTail..txTail + n];
      assert txBuf[txTail..txHead][n..] == txBuf[txTail + n..txHead];
      Arm(Q.Packet(txBuf[txTail..txTail + n], false));
      txTail := txTail + n;
      txLastFull := n == Q.PKT;
    }

    // Nothing to send: a full last packet is closed by an empty one, then the endpoint parks.
    method PumpNothing()
      requires Idle() && txHead == txTail && DirectReady() == 0
      modifies `txHead, `txTail, `txArmed, `txLastFull, `dirPos, port, acct
      ensures Shape() && View() == Q.Pump(old(View())) && port.tog == old(port.tog)
      ensures if old(txLastFull) then txArmed && !txLastFull && port.flight == [Q.Packet([], false)]
              else !txArmed && !txLastFull && port.flight == []
    {
      hide Shape, Idle, Q.Inv;
      Empties();
      if txLastFull {
        Terminate();
      } else {
        Park();
      }
    }

    lemma Empties()
      requires Idle() && txHead == txTail && DirectReady() == 0
      ensures View().ring == [] && Q.Unstaged(View().region) == [] && View().flight == [] && !View().refilling
      ensures txTail <= txHead <= |txBuf| && dirPos <= dirAvail <= |dirBase|
    {
      assert |Q.Unstaged(View().region)| == 0;
    }

    method Terminate()
      requires Idle()
      modifies `txArmed, `txLastFull, port, acct
      ensures Shape() && port.tog == old(port.tog)
      ensures View() == old(View()).(flight := [Q.Packet([], false)], armed := true, lastFull := false)
    {
      hide Q.Inv;
      port.StageOne(Q.Packet([], false));
      acct.PushTerminator();
      txLastFull, txArmed := false, true;
    }

    method Park()
      requires Idle() && txHead == txTail
      modifies `txHead, `txTail, `txArmed, port
      ensures Shape() && port.tog == old(port.tog) && View() == old(View()).(used := 0, armed := false)
    {
      hide Q.Inv, P.Account.Valid;
      txHead, txTail := 0, 0;
      port.Park();
      txArmed := false;
    }

    // tx_pump(): the ring goes first, then the region, then a terminator, then nothing.
    method TxPump()
      requires Idle()
      modifies `txHead, `txTail, `txArmed, `txLastFull, `dirPos, port, acct
      ensures Shape() && View() == Q.Pump(old(View())) && port.tog == old(port.tog)
      ensures old(txHead == txTail && dirPos == dirAvail) ==>
                if old(txLastFull) then txArmed && !txLastFull && port.flight == [Q.Packet([], false)]
                else !txArmed && !txLastFull && port.flight == []
    {
      hide Q.StagePair, Q.StageRegion, Q.StageRing, Q.Ledger, Q.Inv;
      ghost var t := View();
      assert |t.ring| == txHead - txTail && |Q.Unstaged(t.region)| == DirectReady();
      var n := txHead - txTail;
      if n == 0 {
        var m := DirectReady();
        if m != 0 {
          if m > Q.PKT {
            m := Q.PKT;
          }
          if m < Q.PKT && dirPos + m != dirTotal {
            return;
          }
          if m == Q.PKT && DirectReady() >= 2 * Q.PKT {
            PumpPair();
          } else {
            PumpRegion(m);
          }
          return;
        }
      }
      if n != 0 {
        if n > Q.PKT {
          n := Q.PKT;
        }
        PumpRing(n);
      } else {
        PumpNothing();
      }
    }

    // The transmit half of usb_pumps().
    method Pumps()
      requires Shape() && Q.Bounded(View().region)
      requires !txArmed ==> Q.Pumpable(View())
      modifies `txHead, `txTail, `txArmed, `txLastFull, `dirPos, port, acct
      ensures Shape() && View() == Q.Pumps(old(View())) && port.tog == old(port.tog)
    {
      assert |View().ring| == txHead - txTail;
      assert |Q.Unstaged(View().region)| == DirectReady();
      if !txArmed && (txHead != txTail || DirectReady() != 0) {
        TxPump();
      }
    }

    // begin, end and flush forget what in flight belonged to the region.
    method DropRegion()
      requires Valid() && !port.filling
      modifies `dirOpen, `dirAvail, `dirPos, `dirTotal, `dirSent, port, acct
      ensures Shape() && inLatched == (port.latched != []) && !port.filling && !dirOpen && dirPos == 0
      ensures View() == Q.Nominate(old(View()), Q.NoRegion)
      ensures port.tog == old(port.tog)
    {
      hide Shape, Valid, Q.Inv;
      Orphan();
      Forget();
    }

    method Orphan()
      requires Valid() && !port.filling
      modifies port, acct
      ensures Shape() && inLatched == (port.latched != []) && !port.filling && port.tog == old(port.tog)
      ensures View() == old(View()).(latched := Q.Uncredited(old(View()).latched), flight := Q.Kept(old(View())),
                                     piped := false)
    {
      hide P.Port.Valid, P.Account.Valid;
      ghost var t := View();
      Disown(Q.Uncredited(t.latched), Q.Kept(t));
    }

    method Forget()
      requires Shape() && !port.filling
      modifies `dirOpen, `dirAvail, `dirPos, `dirTotal, `dirSent
      ensures Shape() && !dirOpen && dirPos == 0 && View() == old(View()).(region := Q.NoRegion, sent := 0)
    {
      hide P.Port.Valid, P.Account.Valid, Accounted;
      dirOpen, dirAvail, dirPos, dirTotal, dirSent := false, 0, 0, 0, 0;
    }

    // The state is whole again once the latch and the queue's invariant are known.
    lemma Sealed()
      requires Shape() && inLatched == (port.latched != []) && Q.Inv(View())
      ensures Valid()
    {
    }

    // tx_direct_reset(): what stays in flight is nobody's.
    method Disown(ghost l: seq<Q.Packet>, ghost f: seq<Q.Packet>)
      requires port.Valid() && acct.Valid() && !port.filling
      requires |l| <= |port.latched| && |f| <= |port.flight| && |l| + |f| <= 2
      requires forall i :: 0 <= i < |f| ==> f[i].data == port.flight[i].data
      requires forall i :: 0 <= i < |l| ==> !l[i].credit
      requires forall i :: 0 <= i < |f| ==> !f[i].credit
      modifies port, acct
      ensures Accounted() && port.Valid() && acct.Valid()
      ensures port.latched == l && port.flight == f && !port.paired && !port.filling
      ensures port.ack == old(port.ack) && port.tog == old(port.tog)
    {
      port.Unpair();
      port.Retire(l, f);
      acct.Reset(|l| + |f|);
    }

    // bl_usb_tx_direct_begin(): nominate base[0 .. total).  Nothing is published yet.
    method DirectBegin(base: seq<byte>, total: nat)
      requires Valid() && !port.filling && total <= |base| && total < 0x1_0000
      modifies `dirBase, `dirOpen, `dirAvail, `dirPos, `dirTotal, `dirSent, port, acct
      ensures Valid() && View() == Q.Nominate(old(View()), Q.Region(total, [], 0))
      ensures port.tog == old(port.tog) && dirBase == base
    {
      NominateReady(Q.Region(total, [], 0));
      hide Shape, Valid, Q.Inv;
      DropRegion();
      Open(base, total);
      Sealed();
    }

    lemma NominateReady(r: Q.Region)
      requires Valid() && !port.filling
      requires r == Q.NoRegion || (r.Region? && r.published == [] && r.pos == 0 && r.total < 0x1_0000)
      ensures Q.Inv(Q.Nominate(View(), r))
      ensures Q.Nominate(Q.Nominate(View(), Q.NoRegion), r).region == r
      ensures Q.Nominate(View(), Q.NoRegion).(region := r) == Q.Nominate(View(), r)
    {
      Q.NominateKeeps(View(), r);
    }

    method Open(base: seq<byte>, total: nat)
      requires Shape() && !port.filling && !dirOpen && dirPos == 0 && total <= |base|
      modifies `dirBase, `dirOpen, `dirTotal
      ensures Shape() && dirBase == base && View() == old(View()).(region := Q.Region(total, [], 0))
    {
      hide P.Port.Valid, P.Account.Valid, Accounted;
      dirOpen, dirBase, dirTotal := true, base, total;
      assert base[..0] == [];
    }

    // bl_usb_tx_direct_end(): withdraw the region.
    method DirectEnd()
      requires Valid() && !port.filling
      modifies `dirOpen, `dirAvail, `dirPos, `dirTotal, `dirSent, port, acct
      ensures Valid() && View() == Q.Nominate(old(View()), Q.NoRegion)
      ensures port.tog == old(port.tog)
    {
      NominateReady(Q.NoRegion);
      hide Shape, Valid, Q.Inv;
      DropRegion();
      Sealed();
    }

    // The producer writes the region beyond what it has published.
    method Produce(i: nat, b: byte)
      requires Valid() && dirAvail <= i < |dirBase|
      modifies `dirBase
      ensures Valid() && View() == old(View()) && dirBase == old(dirBase)[i := b]
    {
      assert dirBase[..dirAvail] == dirBase[i := b][..dirAvail];
      assert dirBase[i := b][..dirAvail][dirPos..] == dirBase[..dirAvail][dirPos..];
      if port.filling {
        assert dirBase[i := b][dirPos..dirPos + Q.PKT] == dirBase[dirPos..dirPos + Q.PKT];
      }
      dirBase := dirBase[i := b];
    }

    // bl_usb_tx_direct_publish(): publish base[0 .. avail) and kick.
    method DirectPublish(avail: nat)
      requires Valid() && !port.filling && dirOpen && dirAvail <= avail <= dirTotal
      requires avail % Q.PKT == 0 || avail == dirTotal
      modifies `txHead, `txTail, `txArmed, `txLastFull, `dirPos, `dirAvail, port, acct
      ensures Valid()
      ensures View() == Q.Publish(old(View()), old(dirBase)[old(dirAvail)..avail])
      ensures port.tog == old(port.tog)
    {
      ghost var t := View();
      ghost var more := dirBase[dirAvail..avail];
      PublishReady(avail);
      hide Shape, Valid, Q.Inv, Q.Pump, Q.Pumpable, Q.KickRegion, Q.Bounded;
      Extend(avail);
      KickRegion();
      Sealed();
    }

    method Extend(avail: nat)
      requires Valid() && !port.filling && dirOpen && dirAvail <= avail <= dirTotal
      modifies `dirAvail
      ensures Shape() && View() == Q.Extend(old(View()), dirBase[old(dirAvail)..avail])
    {
      hide P.Port.Valid, P.Account.Valid, Accounted, Q.Inv;
      assert dirBase[..dirAvail] + dirBase[dirAvail..avail] == dirBase[..avail];
      dirAvail := avail;
    }

    lemma PublishReady(avail: nat)
      requires Valid() && !port.filling && dirOpen && dirAvail <= avail <= dirTotal
      requires avail % Q.PKT == 0 || avail == dirTotal
      ensures var u := Q.Extend(View(), dirBase[dirAvail..avail]);
              u == View().(region := Q.Region(dirTotal, dirBase[..avail], dirPos))
              && Q.Bounded(u.region) && (!u.armed ==> Q.Pumpable(u))
              && Q.Inv(Q.KickRegion(u)) && Q.KickRegion(u).latched == port.latched
    {
      ghost var more := dirBase[dirAvail..avail];
      PublishedView(avail);
      Q.StepKeeps(View(), Q.PublishStep(more));
      Q.KicksKeepLatched(Q.Extend(View(), more));
    }

    lemma PublishedView(avail: nat)
      requires Valid() && !port.filling && dirOpen && dirAvail <= avail <= dirTotal
      requires avail % Q.PKT == 0 || avail == dirTotal
      ensures var u := Q.Extend(View(), dirBase[dirAvail..avail]);
              u == View().(region := Q.Region(dirTotal, dirBase[..avail], dirPos))
              && Q.Enabled(View(), Q.PublishStep(dirBase[dirAvail..avail]))
              && Q.PublishesWhole(View(), Q.PublishStep(dirBase[dirAvail..avail]))
              && (!u.armed ==> Q.Pumpable(u))
    {
      assert dirBase[..dirAvail] + dirBase[dirAvail..avail] == dirBase[..avail];
      if !txArmed {
        Q.IdleIsPumpable(View());
      }
    }

    method KickRegion()
      requires Shape() && Q.Bounded(View().region) && (!txArmed ==> Q.Pumpable(View()))
      modifies `txHead, `txTail, `txArmed, `txLastFull, `dirPos, port, acct
      ensures Shape() && View() == Q.KickRegion(old(View()))
      ensures port.tog == old(port.tog)
    {
      assert |Q.Unstaged(View().region)| == DirectReady();
      if !txArmed && DirectReady() != 0 {
        TxPump();
      }
    }

    // One locked chunk of tx_queue().  Returns how many bytes were taken.
    method StoreChunk(buf: seq<byte>) returns (want: nat)
      requires Valid() && !dirOpen
      modifies `txBuf, `txHead, `kickDue
      ensures Valid() && want == Q.Room(old(View()), |buf|)
      ensures View() == Q.Store(old(View()), buf)
    {
      StoreKeeps(buf);
      hide Q.Inv, Shape, Valid;
      NoneStored();
      want := |buf|;
      if want > Q.LOCK_CHUNK {
        want := Q.LOCK_CHUNK;
      }
      var room := Q.RING_SIZE - txHead;
      if want > room {
        want := room;
      }
      if want != 0 {
        Append(buf[..want]);
      }
      Sealed();
    }

    lemma NoneStored()
      requires Valid()
      ensures Shape() && txHead <= Q.RING_SIZE == |txBuf| && View().ring + [] == View().ring
      ensures inLatched == (port.latched != [])
    {
      hide P.Port.Valid, P.Account.Valid, Accounted;
    }

    method Append(x: seq<byte>)
      requires Shape() && x != [] && txHead + |x| <= Q.RING_SIZE
      modifies `txBuf, `txHead, `kickDue
      ensures Shape()
      ensures View() == old(View()).(ring := old(View()).ring + x, used := old(txHead) + |x|, kickDue := true)
    {
      hide P.Port.Valid, P.Account.Valid, Accounted;
      Stored(txBuf, txTail, txHead, x);
      txBuf := txBuf[..txHead] + x + txBuf[txHead + |x|..];
      txHead := txHead + |x|;
      kickDue := true;
    }

    lemma StoreKeeps(buf: seq<byte>)
      requires Valid() && !dirOpen
      ensures Q.Inv(Q.Store(View(), buf))
    {
      Q.StepKeeps(View(), Q.StoreStep(buf));
    }

    static lemma Stored(b: seq<byte>, tail: nat, head: nat, x: seq<byte>)
      requires tail <= head && head + |x| <= |b|
      ensures var c := b[..head] + x + b[head + |x|..];
              |c| == |b| && c[tail..head + |x|] == b[tail..head] + x
    {
    }

    // The kick that closes tx_queue().
    method Kick()
      requires Valid() && !port.filling
      modifies `txHead, `txTail, `txArmed, `txLastFull, `dirPos, `kickDue, port, acct
      ensures Valid() && View() == Q.Kick(old(View()))
      ensures port.tog == old(port.tog)
    {
      KickReady();
      hide Q.Inv, Q.Pump, Q.Pumpable, Q.KickRing;
      kickDue := false;
      KickRing();
    }

    lemma KickReady()
      requires Valid() && !port.filling
      ensures var u := View().(kickDue := false);
              Q.Bounded(u.region) && (!txArmed ==> Q.Pumpable(u))
              && Q.Inv(Q.KickRing(u)) && Q.KickRing(u).latched == port.latched
    {
      Q.StepKeeps(View(), Q.KickStep);
      Q.KicksKeepLatched(View().(kickDue := false));
      if !txArmed {
        Q.IdleIsPumpable(View());
      }
    }

    method KickRing()
      requires Shape() && Q.Bounded(View().region) && (!txArmed ==> Q.Pumpable(View()))
      modifies `txHead, `txTail, `txArmed, `txLastFull, `dirPos, port, acct
      ensures Shape() && View() == Q.KickRing(old(View()))
      ensures port.tog == old(port.tog)
    {
      assert |View().ring| == txHead - txTail;
      if !txArmed && txHead != txTail {
        TxPump();
      }
    }

    // The SIE completes one IN transaction and latches it.  It is held off while one is latched.
    method SieSend()
      requires Valid() && !inLatched && port.flight != []
      modifies `wire, `inLatched, port
      ensures Valid() && View() == Q.Send(old(View())) && port.tog == !old(port.tog)
      ensures port.k == old(port.k)
    {
      SendReady();
      hide Q.Inv;
      Deliver();
      inLatched := true;
    }

    lemma SendReady()
      requires Valid() && !inLatched && port.flight != []
      ensures Q.Inv(Q.Send(View())) && port.latched == [] && port.ack
    {
      Q.StepKeeps(View(), Q.SendStep);
    }

    method Deliver()
      requires Shape() && port.ack && port.latched == [] && port.flight != []
      modifies `wire, port
      ensures Shape() && View() == Q.Send(old(View())) && port.tog == !old(port.tog)
      ensures port.k == old(port.k) && port.latched != []
    {
      var data := port.Send();
      wire := wire + data;
    }

    // The service routine's IN arm: credit the packet, then either release the bus and go on to
    // refill the freed window, or stage the next packet with the bus still held.
    method Complete()
      requires Valid() && inLatched && !port.filling
      modifies `txHead, `txTail, `txArmed, `txLastFull, `dirPos, `dirSent, `inLatched, port, acct
      ensures Valid() && View() == Q.Complete(old(View()))
      ensures port.tog == old(port.tog)
      ensures port.filling ==> port.k == 0 && !inLatched && port.freed != port.tog
    {
      hide Q.Pump; hide Q.Pumps; hide Q.Pumpable; hide Q.Inv;
      ghost var t := View();
      CreditFirst();
      if port.paired {
        CompletePaired();
      } else {
        CompleteSingle();
      }
    }

    // Credit the packet only if it was the region's; before any branch.
    method CreditFirst()
      requires Valid() && inLatched && !port.filling
      modifies `dirSent, acct
      ensures Fits() && AccountedFlight() && inLatched
      ensures View() == old(View()).(sent := old(View()).sent + Q.Credit(port.latched))
      ensures Q.Inv(Q.Complete(old(View()))) && Q.Bounded(View().region)
      ensures port.paired ==> txArmed && |port.latched| == 1 && |port.flight| == 1
      ensures !port.paired ==> Q.Pumpable(View().(latched := [])) && port.flight == []
    {
      CreditReady();
      hide Valid, Shape, Q.Inv, Q.Complete, Q.Pumpable, Q.Bounded;
      CreditOne();
    }

    lemma CreditReady()
      requires Valid() && inLatched && !port.filling
      ensures Shape() && |port.latched| == 1 && Q.Inv(Q.Complete(View())) && Q.Bounded(View().region)
      ensures port.paired ==> txArmed && |port.flight| == 1
      ensures !port.paired ==> port.flight == []
      ensures !port.paired ==> Q.Pumpable(View().(sent := View().sent + Q.Credit(port.latched), latched := []))
    {
      hide Q.Pump, Q.Pumps, Q.Ledger;
      Q.StepKeeps(View(), Q.CompleteStep);
    }

    method CreditOne()
      requires Shape() && |port.latched| == 1 && !port.filling && (port.paired ==> |port.flight| == 1)
      modifies `dirSent, acct
      ensures Fits() && AccountedFlight()
      ensures View() == old(View()).(sent := old(View()).sent + Q.Credit(port.latched))
    {
      assert port.latched == [port.latched[0]];
      Q.FlatOne(port.latched[0]);
      var n := acct.Pop();
      dirSent := dirSent + n;
    }

    // Outside the pipeline the bus stays held until the next packet is staged.
    method CompleteSingle()
      requires Fits() && acct.worth == [] && Q.Pumpable(View().(latched := []))
      requires Q.Bounded(View().region) && !port.paired && port.flight == []
      modifies `txHead, `txTail, `txArmed, `txLastFull, `dirPos, `inLatched, port, acct
      ensures Shape() && !inLatched && port.latched == [] && !port.filling
      ensures View() == Q.Pumps(Q.Pump(old(View()).(latched := [])))
      ensures port.tog == old(port.tog)
    {
      ghost var t := View().(latched := []);
      assert !port.filling;
      hide *;
      Credited();
      Restage(t);
      Acknowledge();
    }

    // The completed packet is nobody's any more.
    ghost method Credited()
      requires Fits() && acct.worth == [] && !port.paired && port.flight == [] && !port.filling
      modifies port
      ensures Shape() && port.latched == [] && !port.filling && port.tog == old(port.tog)
      ensures View() == old(View()).(latched := [])
    {
      port.Retire([], []);
    }

    method Restage(ghost t: Q.Tx)
      requires Shape() && View() == t && Q.Pumpable(t)
      modifies `txHead, `txTail, `txArmed, `txLastFull, `dirPos, port, acct
      ensures Shape() && View() == Q.Pumps(Q.Pump(t)) && port.tog == old(port.tog)
      ensures port.latched == [] && !port.filling
    {
      hide Q.Pump, Q.Pumps, Q.Inv;
      TxPump();
      Q.PumpRests(t);
      Pumps();
    }

    method Acknowledge()
      requires Shape()
      modifies `inLatched
      ensures Shape() && View() == old(View()) && !inLatched
    {
      inLatched := false;
    }

    // Release first: the window the SIE sends next was staged last round.
    method CompletePaired()
      requires Fits() && AccountedFlight() && Q.Bounded(View().region)
      requires txArmed && port.paired && !port.filling && |port.latched| == 1 && |port.flight| == 1
      modifies `txHead, `txTail, `txArmed, `txLastFull, `dirPos, `inLatched, port, acct
      ensures Shape() && !inLatched && port.latched == []
      ensures var u := old(View()).(latched := []);
              View() == if |Q.Unstaged(u.region)| >= Q.PKT then u.(refilling := true)
                        else Q.Pumps(u.(piped := false))
      ensures port.tog == old(port.tog)
      ensures port.filling ==> port.k == 0 && port.freed != port.tog
    {
      Unstaged();
      hide *;
      ReleaseBus();
      var left := DirectReady();
      if left >= Q.PKT {
        StartRefill();
      } else {
        WindDown();
      }
    }

    lemma Unstaged()
      requires dirPos <= dirAvail <= |dirBase| && txTail <= txHead <= |txBuf| && (!dirOpen ==> dirAvail == 0)
      ensures Q.Bounded(View().region) ==> |Q.Unstaged(View().region)| == DirectReady() == dirAvail - dirPos
      ensures DirectReady() >= Q.PKT ==> dirPos + Q.PKT <= dirAvail
    {
    }

    // Work out the freed window, then clear the transfer flag.
    method ReleaseBus()
      requires Fits() && AccountedFlight() && port.paired && !port.filling
      requires |port.latched| == 1 && |port.flight| == 1
      modifies `inLatched, port
      ensures Shape() && port.paired && !port.filling && |port.flight| == 1 && port.latched == []
      ensures !inLatched && port.freed != port.tog && port.tog == old(port.tog)
      ensures View() == old(View()).(latched := [])
    {
      port.Release();
      inLatched := false;
    }

    method StartRefill()
      requires Shape() && port.paired && !port.filling && port.latched == [] && |port.flight| == 1
      requires port.freed != port.tog && dirPos + Q.PKT <= dirAvail
      modifies port
      ensures Shape() && port.filling && port.k == 0 && port.freed != port.tog && port.latched == []
      ensures View() == old(View()).(refilling := true) && port.tog == old(port.tog)
    {
      port.StartFill(dirBase[dirPos..dirPos + Q.PKT]);
    }

    method WindDown()
      requires Shape() && txArmed && port.paired && !port.filling && port.latched == []
      requires Q.Bounded(View().region)
      modifies `txHead, `txTail, `txArmed, `txLastFull, `dirPos, port, acct
      ensures Shape() && !port.filling && port.latched == [] && port.tog == old(port.tog)
      ensures View() == Q.Pumps(old(View()).(piped := false))
    {
      hide Q.Pump;
      port.WindDown();
      Pumps();
    }

    // One byte of the refill.  The SIE may be sending the other window, and only that one.
    method RefillByte()
      requires Valid() && port.filling && port.k < Q.PKT
      modifies port
      ensures Valid() && View() == old(View()) && port.k == old(port.k) + 1
      ensures port.tog == old(port.tog)
      ensures !inLatched ==> port.freed != port.tog
    {
      port.FillByte(dirBase[dirPos + port.k]);
    }

    // The refill is complete; the pumps run last.
    method RefillDone()
      requires Valid() && port.filling && port.k == Q.PKT
      modifies `txHead, `txTail, `txArmed, `txLastFull, `dirPos, port, acct
      ensures Valid() && View() == Q.Refilled(old(View()))
      ensures port.tog == old(port.tog)
    {
      RefillReady();
      hide Q.Inv, Q.Pump, Q.Pumps, Q.Pumpable;
      StageRefill();
      Pumps();
    }

    lemma RefillReady()
      requires Valid() && port.filling
      ensures |Q.Unstaged(View().region)| >= Q.PKT && Q.Sound(View())
      ensures Q.Bounded(Q.Refill(View()).region)
      ensures Q.Inv(Q.Refilled(View())) && Q.Refilled(View()).latched == port.latched
    {
      hide Q.Pump, Q.Pumps;
      Q.StepKeeps(View(), Q.RefillStep);
      Q.PumpsLatched(Q.Refill(View()));
    }

    method StageRefill()
      requires Shape() && Q.Sound(View()) && port.filling && port.k == Q.PKT
      modifies `dirPos, port, acct
      ensures Shape() && View() == Q.Refill(old(View())) && txArmed && port.tog == old(port.tog)
    {
      hide Q.Pump, Q.Ledger;
      ghost var t := View();
      Slice(dirBase, dirPos, dirAvail, 0, Q.PKT);
      port.FillDone(true);
      dirPos := dirPos + Q.PKT;
      acct.PushFull();
      assert View() == Q.Refill(t);
    }

    // The service routine ran for another endpoint, or found nothing.
    method OtherService()
      requires Valid() && !port.filling
      modifies `txHead, `txTail, `txArmed, `txLastFull, `dirPos, port, acct
      ensures Valid() && View() == Q.Pumps(old(View())) && port.tog == old(port.tog)
    {
      ghost var t := View();
      OtherKeeps();
      hide Q.Inv, Q.Pump, Q.Pumps;
      Pumps();
    }

    lemma OtherKeeps()
      requires Valid() && !port.filling
      ensures Q.Bounded(View().region) && (!txArmed ==> Q.Pumpable(View()))
      ensures Q.Inv(Q.Pumps(View())) && Q.Pumps(View()).latched == port.latched
    {
      hide Q.Pump, Q.Pumps;
      Q.StepKeeps(View(), Q.OtherStep);
      Q.PumpsLatched(View());
      if !txArmed {
        Q.IdleIsPumpable(View());
      }
    }

    // usb_session_flush(): cancel everything owed; the toggles survive.
    method SessionFlush()
      requires Valid() && !inLatched && !port.filling
      modifies `txHead, `txTail, `txArmed, `dirOpen, `dirAvail, `dirPos, `dirTotal, `dirSent, port, acct
      ensures Valid() && View() == Q.Flush(old(View())) && port.tog == old(port.tog)
    {
      Cancel();
    }

    // The transmit half of usb_bus_reset(): as a flush, and back to DATA0.  heard: the host has the
    // oldest packet already, though its handshake never came.
    method BusReset(ghost heard: bool)
      requires Valid() && !inLatched && !port.filling && (heard ==> port.flight != [])
      modifies `txHead, `txTail, `txArmed, `dirOpen, `dirAvail, `dirPos, `dirTotal, `dirSent, `wire, port, acct
      ensures Valid() && !port.tog
      ensures View() == Q.Flush(if heard then Q.Send(old(View())) else old(View()))
    {
      ghost var w := if heard then wire + port.flight[0].data else wire;
      Cancel();
      wire := w;
      port.ClearToggle();
    }

    method Cancel()
      requires Valid() && !inLatched && !port.filling
      modifies `txHead, `txTail, `txArmed, `dirOpen, `dirAvail, `dirPos, `dirTotal, `dirSent, port, acct
      ensures Valid() && View() == Q.Flush(old(View())) && port.tog == old(port.tog)
    {
      ghost var t := View();
      Q.StepKeeps(t, Q.FlushStep);
      DropRegion();
      Empty();
    }

    // Nothing staged, nothing owed: tx_head, tx_tail and tx_armed go to zero.
    method Empty()
      requires Shape() && !port.paired && !inLatched && port.latched == []
      modifies `txHead, `txTail, `txArmed, port, acct
      ensures Shape() && port.latched == [] && port.tog == old(port.tog)
      ensures View() == old(View()).(latched := [], flight := [], ring := [], used := 0,
                                     armed := false, piped := false, refilling := false)
    {
      port.Retire([], []);
      port.Park();
      acct.Reset(0);
      txHead, txTail, txArmed := 0, 0, false;
      assert txBuf[0..0] == [];
    }
  }
}
