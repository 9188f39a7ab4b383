/** Bulk OUT on endpoint 2 as src/usb.c drives it: two windows selected by the receive toggle, a
    ring with free-running 16-bit indices, and credit that opens or closes the endpoint.  Both
    builds are covered: FW_RX_DBUF releases the bus before it copies a packet out, the other one
    closes the endpoint, copies, and releases the bus last.  Copies in the service routine and in
    bl_usb_rx() are cut at every byte, so that the SIE and the interrupt can be scheduled there. */
module RxEngine {
  import opened Bytes

  const RING := 512          // BL_USB_RX_BUF_SIZE
  const WINDOW := 64         // EP2_RX_WINDOW
  const CREDIT := 64         // RX_CREDIT_BYTES
  const WRAP := 0x1_0000

  // rx_used(): sixteen-bit subtraction.
  function Occupancy(head: nat, tail: nat): nat
    requires head < WRAP && tail < WRAP
  {
    (head + WRAP - tail) % WRAP
  }

  function Slot(index: nat): nat { index % RING }

  // Advancing an index past 65535 keeps the ring slots of everything it counts.
  lemma WrapKeepsSlots(index: nat, n: nat)
    requires index < WRAP && n <= RING
    ensures Slot((index + n) % WRAP) == Slot(index + n)
  {
  }

  lemma SlotShift(a: nat, b: nat, n: nat)
    requires Slot(a) == Slot(b)
    ensures Slot(a + n) == Slot(b + n)
  {
  }

  lemma SlotsDiffer(a: nat, b: nat)
    requires a < b < a + RING
    ensures Slot(a) != Slot(b)
  {
  }

  lemma DropUses(head: nat, tail: nat, n: nat)
    requires head < WRAP && tail < WRAP && n <= Occupancy(head, tail)
    ensures Occupancy(head, (tail + n) % WRAP) == Occupancy(head, tail) - n
  {
  }

  /** rx_buf with its free-running indices.  cells is what lies from the tail on: first what the
      head has made visible, then the bytes of a packet still being copied in. */
  class Ring {
    const buf: array<byte>
    var head: nat
    var tail: nat
    ghost var cells: seq<byte>

    function Used(): nat
      reads this
      requires head < WRAP && tail < WRAP
    {
      Occupancy(head, tail)
    }

    ghost predicate Valid()
      reads this, buf
      ensures Valid() ==> buf.Length == RING && head < WRAP && tail < WRAP && Used() <= |cells| <= RING
    {
      && buf.Length == RING && head < WRAP && tail < WRAP
      && Used() <= |cells| <= RING
      && forall i :: 0 <= i < |cells| ==> buf[Slot(tail + i)] == cells[i]
    }

    ghost function Content(): seq<byte>
      reads this, buf
      requires Valid()
    {
      cells[..Used()]
    }

    constructor ()
      ensures Valid() && fresh(buf) && cells == [] && head == tail == 0
    {
      buf := new byte[RING](_ => 0);
      head, tail, cells := 0, 0, [];
    }

    // rx_free()
    function Free(): nat
      reads this
      requires head < WRAP && tail < WRAP
    {
      (RING + WRAP - Used()) % WRAP
    }

    method Put(k: nat, b: byte)
      requires Valid() && k == |cells| - Used() && |cells| < RING
      modifies `cells, buf
      ensures Valid() && cells == old(cells) + [b]
    {
      PutSlot(k);
      buf[Slot(head + k)] := b;
      forall i | 0 <= i < |cells| ensures buf[Slot(tail + i)] == cells[i] {
        SlotsDiffer(tail + i, tail + |cells|);
      }
      cells := cells + [b];
    }

    lemma PutSlot(k: nat)
      requires Valid() && k == |cells| - Used() && k < RING
      ensures Slot(head + k) == Slot(tail + |cells|)
    {
      assert head == (tail + Used()) % WRAP;
      WrapKeepsSlots(tail, Used());
      SlotShift(head, tail + Used(), k);
    }

    // One store makes the whole packet visible.
    method Commit(n: nat)
      requires Valid() && n == |cells| - Used()
      modifies `head
      ensures Valid() && Used() == |cells| && head == (old(head) + n) % WRAP
    {
      head := (head + n) % WRAP;
    }

    method Get(j: nat) returns (b: byte)
      requires Valid() && j < |cells|
      ensures b == cells[j]
    {
      b := buf[Slot(tail + j)];
    }

    method Drop(n: nat)
      requires Valid() && n <= Used()
      modifies `tail, `cells
      ensures Valid() && cells == old(cells)[n..] && Used() == old(Used()) - n
    {
      hide Occupancy;
      var was := tail;
      tail := (tail + n) % WRAP;
      WrapKeepsSlots(was, n);
      DropUses(head, was, n);
      ghost var rest := cells[n..];
      forall i | 0 <= i < |rest| ensures buf[Slot(tail + i)] == rest[i] {
        SlotShift(tail, was + n, i);
        assert Slot(was + (n + i)) == Slot(tail + i) && rest[i] == cells[n + i];
      }
      cells := rest;
    }

    method Clear()
      requires Valid()
      modifies `head, `tail, `cells
      ensures Valid() && cells == [] && Used() == 0 && head == 0 && tail == 0
    {
      head, tail, cells := 0, 0, [];
    }
  }

  class Engine {
    const lean: bool      // FW_USB_ISR_LEAN
    const dbuf: bool      // FW_RX_DBUF

    // receive registers and windows
    var rAck: bool        // R_RES is ACK
    var rTog: bool        // RB_UEP_R_TOG: the window the next OUT is written to
    var flag: bool        // RB_UIF_TRANSFER is set and names an OUT on endpoint 2
    var togOk: bool       // RB_UIS_TOG_OK
    var rxLen: nat        // R8_USB_RX_LEN
    var win0: seq<byte>
    var win1: seq<byte>

    // the driver's statics
    const ring: Ring
    var creditDirty: bool

    // where the service routine stands inside rx_deliver_at()
    var copying: bool
    var off: bool
    var len: nat
    var k: nat

    // where bl_usb_rx() stands
    var taking: bool
    var n: nat
    var out: seq<byte>

    // history: in-sequence bytes the SIE acknowledged, and bytes bl_usb_rx() handed over; what lies
    // between is owed: the ring's content, then the packet being copied, then the one just latched
    ghost var accepted: seq<byte>
    ghost var delivered: seq<byte>
    ghost var owed: seq<byte>

    function Win(w: bool): seq<byte>
      reads this
    {
      if w then win1 else win0
    }

    function Used(): nat
      reads ring
      requires ring.head < WRAP && ring.tail < WRAP
    {
      ring.Used()
    }

    // The latched packet has not been picked up by the service routine yet.
    ghost predicate Waiting()
      reads `flag, `togOk, `copying
    {
      flag && togOk && (dbuf || !copying)
    }

    ghost function InHand(): nat
      reads `flag, `togOk, `copying, `rxLen
    {
      if Waiting() then rxLen else 0
    }

    ghost function InCopy(): nat
      reads this
    {
      if copying then len else 0
    }

    // The packets in the windows are where the service routine will look for them.
    ghost predicate WindowsHold(used: nat)
      reads this
    {
      && |win0| == WINDOW && |win1| == WINDOW && rxLen <= WINDOW && len <= WINDOW
      && |owed| == used + InCopy() + InHand()
      && (copying ==> Win(off)[..len] == owed[used..used + len])
      && (Waiting() ==> Win(!rTog)[..rxLen] == owed[|owed| - rxLen..])
      && (copying && !dbuf ==> flag && togOk)
      && (copying && dbuf ==> (off == rTog <==> flag && togOk))
    }

    ghost predicate Valid()
      reads this, ring, ring.buf
      ensures Valid() ==> ring.head < WRAP && ring.tail < WRAP
    {
      && ring.Valid() && ring.head < WRAP && ring.tail < WRAP && WindowsHold(Used())
      && Used() + InCopy() <= RING
      && (copying ==> k <= len)
      && ring.cells == owed[..Used() + (if copying then k else 0)]
      && creditDirty == (copying && lean)
      // credit: an open endpoint has room for one more full packet beyond the one in hand
      && (rAck || Waiting() ==> RING - Used() - InCopy() >= CREDIT)
      && (taking ==> |out| <= n <= Used() && out == owed[..|out|])
      && accepted == delivered + owed
    }

    constructor (lean: bool, dbuf: bool)
      ensures Valid() && fresh(ring) && fresh(ring.buf) && this.lean == lean && this.dbuf == dbuf
      ensures rAck && !rTog && !flag && !copying && !taking && accepted == [] && delivered == []
      ensures n == 0 && out == [] && Used() == 0
    {
      this.lean, this.dbuf := lean, dbuf;
      rAck, rTog, flag, togOk, rxLen := true, false, false, false, 0;
      win0, win1 := seq(WINDOW, _ => 0), seq(WINDOW, _ => 0);
      ring := new Ring();
      creditDirty := false;
      copying, off, len, k := false, false, 0, 0;
      taking, n, out := false, 0, [];
      accepted, delivered, owed := [], [], [];
    }

    // The SIE acknowledges an OUT and latches it.  A packet whose PID does not match the toggle is
    // a retransmission: it is stored like any other but the toggle stays and TOG_OK reads 0.
    method SieOut(data: seq<byte>, pid: bool)
      requires Valid() && !flag && rAck && |data| <= WINDOW
      modifies `win0, `win1, `rxLen, `flag, `togOk, `rTog, `owed, `accepted
      ensures Valid() && flag && togOk == (pid == old(rTog))
      ensures accepted == if pid == old(rTog) then old(accepted) + data else old(accepted)
      ensures rTog == if pid == old(rTog) then !old(rTog) else old(rTog)
      ensures InHand() == if pid == old(rTog) then |data| else 0
    {
      if pid == rTog {
        Accept(data);
      } else {
        Ignore(data);
      }
    }

    method Accept(data: seq<byte>)
      requires Valid() && !flag && rAck && |data| <= WINDOW
      modifies `win0, `win1, `rxLen, `flag, `togOk, `rTog, `owed, `accepted
      ensures Valid() && flag && togOk && rTog == !old(rTog) && accepted == old(accepted) + data
    {
      hide Ring.Valid, Occupancy, WindowsHold;
      ghost var was := owed;
      Ahead();
      PrefixStays(was, data, 0, |ring.cells|);
      if taking {
        PrefixStays(was, data, 0, |out|);
      }
      AcceptWindow(data, Used());
      assert delivered + owed == delivered + was + data;
    }

    lemma Ahead()
      requires Valid()
      ensures |ring.cells| == Used() + (if copying then k else 0) <= |owed|
    {
    }

    method AcceptWindow(data: seq<byte>, ghost used: nat)
      requires WindowsHold(used) && !flag && |data| <= WINDOW
      modifies `win0, `win1, `rxLen, `flag, `togOk, `rTog, `owed, `accepted
      ensures WindowsHold(used) && Waiting() && flag && togOk && rTog == !old(rTog)
      ensures owed == old(owed) + data && accepted == old(accepted) + data
    {
      ghost var was := owed;
      PrefixStays(was, data, used, |was|);
      Store(data);
      rxLen, flag, togOk, rTog := |data|, true, true, !rTog;
      owed, accepted := was + data, accepted + data;
      assert Win(!rTog)[..rxLen] == owed[|owed| - rxLen..];
    }

    method Ignore(data: seq<byte>)
      requires Valid() && !flag && rAck && |data| <= WINDOW
      modifies `win0, `win1, `rxLen, `flag, `togOk
      ensures Valid() && flag && !togOk
    {
      hide Ring.Valid, Occupancy;
      Store(data);
      rxLen, flag, togOk := |data|, true, false;
    }

    static lemma PrefixStays(s: seq<byte>, t: seq<byte>, i: nat, j: nat)
      requires i <= j <= |s|
      ensures (s + t)[i..j] == s[i..j]
    {
    }

    // The window R_TOG names takes the packet; the other one is not touched.
    method Store(data: seq<byte>)
      requires |win0| == WINDOW && |win1| == WINDOW && |data| <= WINDOW
      modifies `win0, `win1
      ensures Win(!rTog) == old(Win(!rTog)) && |Win(rTog)| == WINDOW && Win(rTog)[..|data|] == data
    {
      if rTog {
        win1 := data + win1[|data|..];
      } else {
        win0 := data + win0[|data|..];
      }
    }

    // rx_credit_update_n(): open or close OUT purely on receive-buffer space.
    method CreditUpdate(pending: nat)
      requires ring.head < WRAP && ring.tail < WRAP && Used() <= RING
      modifies `rAck
      ensures rAck <==> RING - Used() - pending >= CREDIT
    {
      var space := ring.Free();
      var p := if pending > space then space else pending;
      var want := space - p >= CREDIT;
      if rAck != want {
        rAck := want;
      }
    }

    // The receive half of usb_pumps().
    method Pumps()
      requires ring.head < WRAP && ring.tail < WRAP && Used() <= RING
      modifies `rAck, `creditDirty
      ensures creditDirty == (old(creditDirty) && !lean)
      ensures rAck <==> if old(creditDirty) || !lean then RING - Used() >= CREDIT else old(rAck)
    {
      if lean {
        if creditDirty {
          creditDirty := false;
          CreditUpdate(0);
        }
      } else {
        CreditUpdate(0);
      }
    }

    // The service routine's OUT arm, up to the first byte of the copy.
    method Service()
      requires Valid() && flag && !copying
      modifies `rAck, `creditDirty, `flag, `copying, `off, `len, `k
      ensures Valid()
      // the whole packet is taken and delivered once; a retransmission is dropped
      ensures (copying <==> old(InHand()) != 0) && (copying ==> len == old(InHand()) && k == 0)
      // with FW_RX_DBUF the bus is released before the first byte is copied
      ensures flag == (copying && !dbuf)
      // credit is exact again, except after a retransmission in the lean close-then-copy build
      ensures !copying ==> (rAck <==> RING - Used() >= CREDIT && (dbuf || togOk || !lean))
    {
      if dbuf {
        ServiceReleased();
      } else {
        ServiceHeld();
      }
    }

    // FW_RX_DBUF: window, length and credit are settled before the release, the copy comes after.
    method ServiceReleased()
      requires Valid() && flag && !copying && dbuf
      modifies `rAck, `creditDirty, `flag, `copying, `off, `len, `k
      ensures Valid() && !flag && (copying <==> old(InHand()) != 0)
      ensures copying ==> len == old(InHand()) && k == 0
      ensures !copying ==> (rAck <==> RING - Used() >= CREDIT)
    {
      hide Valid, Claimed, Ring.Used, Occupancy;
      var rx := Release();
      if rx != 0 {
        StartCopy(rx);
      } else {
        Settle();
      }
    }

    // Otherwise the endpoint is closed first and the bus stays held throughout.
    method ServiceHeld()
      requires Valid() && flag && !copying && !dbuf
      modifies `rAck, `creditDirty, `flag, `copying, `off, `len, `k
      ensures Valid() && (flag <==> copying) && (copying <==> old(InHand()) != 0)
      ensures copying ==> len == old(InHand()) && k == 0
      ensures !copying ==> (rAck <==> RING - Used() >= CREDIT && (togOk || !lean))
    {
      hide Valid, Claimed, Ring.Used, Occupancy;
      var rx := Close();
      if rx != 0 {
        StartCopy(rx);
      } else {
        Settle();
      }
    }

    // The packet in hand has been picked up, rx bytes of it to be copied, and credit accounts for it.
    ghost predicate Claimed(rx: nat)
      reads this, ring, ring.buf
      ensures Claimed(rx) ==> ring.head < WRAP && ring.tail < WRAP && Used() <= RING
    {
      && ring.Valid() && ring.head < WRAP && ring.tail < WRAP
      && |win0| == WINDOW && |win1| == WINDOW && rxLen <= WINDOW && len <= WINDOW
      && |owed| == Used() + rx && rx <= WINDOW && Used() <= RING && !copying
      && ring.cells == owed[..Used()]
      && (rx > 0 ==> off == !rTog && Used() + CREDIT <= RING && Win(off)[..rx] == owed[Used()..Used() + rx])
      && flag == !dbuf && (flag && rx > 0 ==> togOk) && (flag && rx == 0 ==> InHand() == 0)
      && (creditDirty ==> lean) && (rAck ==> RING - Used() - rx >= CREDIT)
      && (taking ==> |out| <= n <= Used() && out == owed[..|out|])
      && accepted == delivered + owed
    }

    lemma HeldInWindow()
      requires Valid() && flag && !copying
      ensures InHand() <= WINDOW
      ensures InHand() > 0 ==> InHand() == rxLen && Used() + CREDIT <= RING && Win(!rTog)[..rxLen] == owed[Used()..Used() + rxLen]
    {
      hide Ring.Valid, Occupancy;
    }

    // All that the next packet may overwrite is read first: what is in hand, its window, its credit.
    method Release() returns (rx: nat)
      requires Valid() && flag && !copying && dbuf
      modifies `rAck, `flag, `off
      ensures Claimed(rx) && rx == old(InHand()) && !flag
      ensures rAck <==> RING - Used() - rx >= CREDIT
    {
      hide Ring.Valid, Occupancy;
      HeldInWindow();
      off, rx := !rTog, 0;
      if togOk {
        rx := Min(rxLen, WINDOW);
      }
      CreditUpdate(rx);
      flag := false;
    }

    // NAK before the copy, and the window and length of what is in hand.
    method Close() returns (rx: nat)
      requires Valid() && flag && !copying && !dbuf
      modifies `rAck, `creditDirty, `off
      ensures Claimed(rx) && rx == old(InHand()) && !rAck && (rx == 0 ==> creditDirty == (lean && togOk))
    {
      hide Ring.Valid, Occupancy;
      HeldInWindow();
      rAck, rx := false, 0;
      if togOk {
        off, rx := !rTog, rxLen;
        creditDirty := lean;
      }
    }

    // rx_deliver_at() up to its copies.  Neither clamp cuts: credit has kept the room.
    method StartCopy(rx: nat)
      requires Claimed(rx) && rx > 0
      modifies `creditDirty, `copying, `len, `k
      ensures Valid() && copying && k == 0 && len == rx
    {
      hide Ring.Valid, Occupancy;
      creditDirty := lean || creditDirty;
      var space := ring.Free();
      len := Min(Min(rx, WINDOW), space);
      copying, k := true, 0;
    }

    // Nothing to copy: the pumps run, and a bus still held is released.
    method Settle()
      requires Claimed(0)
      modifies `rAck, `creditDirty, `flag
      ensures Valid() && !flag
      ensures rAck <==> if old(creditDirty) || !lean then RING - Used() >= CREDIT else old(rAck)
    {
      hide Ring.Valid, Occupancy;
      Pumps();
      if !dbuf {
        flag := false;
      }
    }

    // One byte out of the window and into the ring, split at the wrap by the index mask.
    method CopyByte()
      requires Valid() && copying && k < len
      modifies `k, ring`cells, ring.buf
      ensures Valid() && k == old(k) + 1
      ensures dbuf && !flag ==> off != rTog
    {
      hide Ring.Valid, Occupancy;
      NextByte();
      ring.Put(k, Win(off)[k]);
      k := k + 1;
    }

    // What is copied next is the next byte owed, and the ring has room for it.
    lemma NextByte()
      requires Valid() && copying && k < len
      ensures |ring.cells| == Used() + k < RING && k < |Win(off)|
      ensures Used() + k < |owed| && ring.cells + [Win(off)[k]] == owed[..Used() + k + 1]
    {
      hide Ring.Valid, Ring.Used, Occupancy;
      var u := Used();
      assert Win(off)[k] == Win(off)[..len][k] == owed[u..u + len][k] == owed[u + k];
    }

    // The packet becomes visible to the consumer in one store; the pumps run last.
    method CopyDone()
      requires Valid() && copying && k == len
      modifies `rAck, `creditDirty, `flag, `copying, ring`head
      ensures Valid() && !copying && Used() == old(Used() + len)
      ensures flag == (old(flag) && dbuf)
      ensures rAck <==> RING - Used() >= CREDIT
    {
      hide Ring.Valid, Occupancy;
      ring.Commit(len);
      copying := false;
      Pumps();
      if !dbuf {
        flag := false;
      }
    }

    // The service routine ran for another endpoint, or found nothing.
    method OtherService()
      requires Valid() && !copying
      modifies `rAck, `creditDirty
      ensures Valid() && (rAck <==> if lean then old(rAck) else RING - Used() >= CREDIT)
    {
      Pumps();
    }

    // bl_usb_rx(): how much to take is read once.
    method TakeBegin(max: nat)
      requires Valid() && !taking && !copying
      modifies `taking, `n, `out
      ensures Valid() && taking && out == [] && n == Min(Used(), max)
    {
      n := Used();
      if n > max {
        n := max;
      }
      taking, out := true, [];
    }

    // One byte of its copy.  Packets may be arriving behind it.
    method TakeByte()
      requires Valid() && taking && |out| < n && !copying
      modifies `out
      ensures Valid() && |out| == old(|out|) + 1 && out == ring.cells[..|out|]
    {
      var b := ring.Get(|out|);
      out := out + [b];
    }

    // Its tail update, which is not locked: what it returns leaves the ring.
    method TakeDone()
      requires Valid() && taking && |out| == n && !copying
      modifies `taking, ring`tail, ring`cells, `delivered, `owed
      ensures Valid() && !taking && delivered == old(delivered) + out
      ensures out == old(ring.Content())[..n] && ring.Content() == old(ring.Content())[n..]
      ensures Used() == old(Used()) - n
    {
      hide Ring.Valid, Occupancy;
      Oldest();
      ghost var rest := owed[n..];
      ring.Drop(n);
      delivered := delivered + out;
      owed := rest;
      taking := false;
    }

    // What was taken is the front of what is owed; what is behind it only moves up.
    lemma Oldest()
      requires Valid() && taking && |out| == n && !copying
      ensures n <= Used() == |ring.cells| <= |owed| && out == owed[..n] == ring.cells[..n]
      ensures ring.cells[n..] == owed[n..][..Used() - n] && accepted == delivered + out + owed[n..]
      ensures Waiting() ==> rxLen <= |owed| - n && owed[|owed| - rxLen..] == owed[n..][|owed| - n - rxLen..]
    {
      hide Ring.Valid, Occupancy;
      assert owed == owed[..n] + owed[n..];
    }

    // Its credit, under the lock.
    method Credit()
      requires Valid() && !copying
      modifies `rAck
      ensures Valid() && (rAck <==> RING - Used() >= CREDIT)
    {
      CreditUpdate(0);
    }

    // Session flush and bus reset run between calls of bl_usb_rx(); what the ring held is dropped.
    method Flush(reset: bool)
      requires Valid() && !flag && !copying && !taking
      modifies ring`head, ring`tail, ring`cells, `rAck, `rTog, `delivered, `owed
      ensures Valid() && rAck && ring.Content() == [] && Used() == 0 && delivered == accepted
      ensures rTog == (old(rTog) && !reset)
    {
      ring.Clear();
      delivered, owed := accepted, [];
      if reset {
        rAck, rTog := true, false;
      } else {
        CreditUpdate(0);
      }
    }
  }

  // Why the flush may not fall inside bl_usb_rx(): n bytes were being taken, the flush sets both
  // indices to zero and opens the endpoint, m bytes arrive, and then the tail moves by n.  The
  // occupancy is out of the ring's range exactly if fewer arrived than were being taken; and the ring
  // holds just what arrived exactly if nothing was.
  lemma FlushInsideTakeBreaks(n: nat, m: nat)
    requires n <= RING && m <= RING
    ensures Occupancy(m, n) <= RING <==> n <= m
    ensures Occupancy(m, n) == m <==> n == 0
  {
  }

  // The tail update of bl_usb_rx() after such a flush: the first n bytes that arrived since are
  // skipped unread, while the call returns n bytes from before it.
  method TailAfterFlush(r: Ring, n: nat, arrived: seq<byte>)
    requires r.Valid() && n <= r.Used() && |arrived| <= RING
    modifies r, r.buf
    ensures r.head < WRAP && r.tail < WRAP
    ensures r.Used() <= RING <==> n <= |arrived|
    ensures n <= |arrived| ==> r.Valid() && r.Content() == arrived[n..]
  {
    hide Occupancy;
    r.Clear();
    for i := 0 to |arrived|
      invariant r.Valid() && r.cells == arrived[..i] && r.Used() == 0 && r.head == 0 && r.tail == 0
    {
      r.Put(i, arrived[i]);
      assert arrived[..i + 1] == arrived[..i] + [arrived[i]];
    }
    assert arrived[..|arrived|] == arrived;
    r.Commit(|arrived|);
    Wraps(|arrived|, n);
    if n <= |arrived| {
      r.Drop(n);
    } else {
      r.tail := (r.tail + n) % WRAP;
    }
  }

  lemma Wraps(m: nat, n: nat)
    requires m <= RING && n <= RING
    ensures m % WRAP == m && n % WRAP == n && (n > m ==> Occupancy(m, n) > RING) && Occupancy(m, 0) == m
  {
  }
}
