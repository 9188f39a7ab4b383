/** The two halves of the transmit driver that can go wrong on their own: the windows the SIE reads,
    and the account of which completed packets belong to the nominated region. */
module TxPort {
  import opened Bytes
  import Q = TxQueue

  const STAGE_SLOTS := 4  // TX_STAGE_SLOTS

  // usb_copy(): 16-byte blocks, then words, then bytes, as far as both ends are aligned.
  method UsbCopy(dst: array<byte>, d: nat, src: array<byte>, s: nat, n: nat)
    requires dst != src && d + n <= dst.Length && s + n <= src.Length
    modifies dst
    ensures dst[..] == old(dst[..d]) + src[s..s + n] + old(dst[d + n..])
  {
    var i := 0;
    if d % 4 == 0 && s % 4 == 0 {
      while n - i >= 16
        invariant 0 <= i <= n && CopiedSoFar(dst, old(dst[..]), d, src, s, i)
      {
        CopyStride(dst, d, src, s, i, 16, old(dst[..]));
        i := i + 16;
      }
      while n - i >= 4
        invariant 0 <= i <= n && CopiedSoFar(dst, old(dst[..]), d, src, s, i)
      {
        CopyStride(dst, d, src, s, i, 4, old(dst[..]));
        i := i + 4;
      }
    }
    while i < n
      invariant 0 <= i <= n && CopiedSoFar(dst, old(dst[..]), d, src, s, i)
    {
      dst[d + i] := src[s + i];
      i := i + 1;
    }
  }

  ghost predicate CopiedSoFar(dst: array<byte>, was: seq<byte>, d: nat, src: array<byte>, s: nat, i: nat)
    requires d + i <= dst.Length == |was| && s + i <= src.Length
    reads dst, src
  {
    forall j :: 0 <= j < dst.Length ==>
      dst[j] == if d <= j < d + i then src[s + (j - d)] else was[j]
  }

  // One LDM/STM block or one word.
  method CopyStride(dst: array<byte>, d: nat, src: array<byte>, s: nat, i: nat, w: nat, ghost was: seq<byte>)
    requires dst != src && d + i + w <= dst.Length == |was| && s + i + w <= src.Length
    requires CopiedSoFar(dst, was, d, src, s, i)
    modifies dst
    ensures CopiedSoFar(dst, was, d, src, s, i + w)
  {
    forall j | d + i <= j < d + i + w { dst[j] := src[s + (j - d)]; }
  }

  /** Endpoint 2's transmit registers and its two windows, with the driver's prediction of the
      window that is freed next.  flight and latched are what the SIE has been given. */
  class Port {
    const shadow: bool   // FW_USB_TX_TOG_SHADOW
    var ack: bool        // T_RES is ACK
    var tog: bool        // RB_UEP_T_TOG: the window the next IN reads
    var len: nat         // R8_UEP2_T_LEN, one for both windows
    var win0: seq<byte>  // ep2_buf + EP2_DBUF_TX0_OFF
    var win1: seq<byte>  // ep2_buf + EP2_DBUF_TX1_OFF
    var paired: bool     // tx_pipe_armed
    var togPred: bool
    var togValid: bool
    var filling: bool    // the bus is released and window `freed' is being written
    var freed: bool
    var k: nat

    ghost var latched: seq<Q.Packet>
    ghost var flight: seq<Q.Packet>
    ghost var incoming: seq<byte>

    function Win(w: bool): seq<byte>
      reads this
    {
      if w then win1 else win0
    }

    // The window whose packet completes next.
    ghost function Oldest(): bool
      reads this
    {
      if latched != [] then !tog else tog
    }

    // Every packet in flight lies in the window its turn will read and T_LEN fits them all; a
    // predicted window is the right one; a window being filled is not one the SIE may read.
    ghost predicate Valid()
      reads this
    {
      && |win0| == Q.PKT && |win1| == Q.PKT && len <= Q.PKT
      && |latched| + |flight| <= 2 && |latched| <= 1
      && (|flight| >= 1 ==> flight[0].data == Win(tog)[..len])
      && (|flight| == 2 ==> flight[1].data == Win(!tog)[..len])
      && (flight != [] ==> ack)
      && (paired ==> ack && len == Q.PKT)
      && (paired && shadow ==> togValid && togPred == Oldest())
      && (filling ==> paired && |latched| + |flight| == 1 && freed == !Oldest()
                      && k <= Q.PKT == |incoming| && Win(freed)[..k] == incoming[..k])
    }

    constructor (shadow: bool)
      ensures Valid() && this.shadow == shadow
      ensures !ack && !tog && !paired && !filling && latched == [] && flight == []
    {
      this.shadow := shadow;
      ack, tog, len, paired := false, false, 0, false;
      win0, win1 := seq(Q.PKT, _ => 0), seq(Q.PKT, _ => 0);
      togPred, togValid, filling, freed, k := false, false, false, false, 0;
      latched, flight, incoming := [], [], [];
    }

    method Load(w: bool, data: seq<byte>)
      requires |win0| == Q.PKT && |win1| == Q.PKT && |data| <= Q.PKT
      modifies `win0, `win1
      ensures |win0| == Q.PKT && |win1| == Q.PKT
      ensures Win(w) == data + old(Win(w))[|data|..] && Win(!w) == old(Win(!w))
    {
      if w { win1 := data + win1[|data|..]; } else { win0 := data + win0[|data|..]; }
    }

    // tx_pump(): one packet into the window the toggle names.
    method StageOne(p: Q.Packet)
      requires Valid() && latched == [] && flight == [] && !paired && |p.data| <= Q.PKT
      modifies `win0, `win1, `len, `ack, `flight
      ensures Valid() && ack && !paired && !filling && flight == [p] && latched == [] && tog == old(tog)
    {
      Load(tog, p.data);
      len := |p.data|;
      ack := true;
      flight := [p];
    }

    // tx_pump(): two full packets, one in each window; they share one T_LEN.
    method StagePair(p: Q.Packet, q: Q.Packet)
      requires Valid() && latched == [] && flight == [] && !paired
      requires |p.data| == Q.PKT && |q.data| == Q.PKT
      modifies `win0, `win1, `len, `ack, `flight, `paired, `togPred, `togValid
      ensures Valid() && ack && paired && !filling && flight == [p, q] && latched == []
      ensures tog == old(tog)
    {
      if shadow {
        togPred, togValid := tog, true;
      }
      Load(tog, p.data);
      Load(!tog, q.data);
      len := Q.PKT;
      ack, paired := true, true;
      flight := [p, q];
    }

    // The drained endpoint: NAK, zero length.
    method Park()
      requires Valid() && latched == [] && flight == [] && !paired
      modifies `len, `ack
      ensures Valid() && !ack && !paired && !filling && flight == [] && latched == [] && tog == old(tog)
    {
      len := 0;
      ack := false;
    }

    // The SIE answers one IN from the window its toggle names, then moves the toggle.
    method Send() returns (data: seq<byte>)
      requires Valid() && ack && latched == [] && flight != []
      modifies `tog, `latched, `flight
      ensures Valid() && data == old(flight)[0].data
      ensures latched == [old(flight)[0]] && flight == old(flight)[1..] && tog == !old(tog)
      ensures ack && paired == old(paired) && filling == old(filling) && k == old(k)
      ensures incoming == old(incoming)
    {
      data := Win(tog)[..len];
      tog := !tog;
      latched := [flight[0]];
      flight := flight[1..];
    }

    // ep2_tx_other()
    function Other(): bool
      reads this
    {
      !tog
    }

    // Completion of one packet of a pair: work out the freed window, then release the bus.  What
    // the SIE may send from here on is the other window, staged last round.
    method Release()
      requires Valid() && paired && !filling && |latched| == 1 && |flight| == 1
      modifies `freed, `togPred, `latched
      ensures Valid() && latched == [] && freed != tog
    {
      if shadow && togValid {
        freed := togPred;
        togPred := !togPred;
      } else {
        freed := Other();
      }
      latched := [];
    }

    method StartFill(ghost next: seq<byte>)
      requires Valid() && paired && !filling && latched == [] && |flight| == 1 && freed != tog
      requires |next| == Q.PKT
      modifies `filling, `k, `incoming
      ensures Valid() && filling && k == 0 && incoming == next
    {
      filling, k := true, 0;
      incoming := next;
    }

    // No full packet is left for the freed window: back to tx_pump() after this pair.
    method WindDown()
      requires Valid() && !filling
      modifies `paired
      ensures Valid() && !paired
    {
      paired := false;
    }

    // The refill, one byte at a time, with the SIE free to send the other window meanwhile.
    method FillByte(b: byte)
      requires Valid() && filling && k < Q.PKT && b == incoming[k]
      modifies `win0, `win1, `k
      ensures Valid() && k == old(k) + 1
      ensures latched == [] ==> freed != tog
    {
      if freed { win1 := win1[k := b]; } else { win0 := win0[k := b]; }
      k := k + 1;
    }

    method FillDone(credit: bool)
      requires Valid() && filling && k == Q.PKT
      modifies `filling, `flight
      ensures Valid() && !filling && paired && ack && latched == old(latched)
      ensures flight == old(flight) + [Q.Packet(old(incoming), credit)]
      ensures tog == old(tog)
    {
      assert Win(freed)[..len] == incoming;
      filling := false;
      flight := flight + [Q.Packet(incoming, credit)];
    }

    // A completion outside the pipeline, or a session boundary: only ghost bookkeeping.
    ghost method Retire(l: seq<Q.Packet>, f: seq<Q.Packet>)
      requires Valid() && !paired && |l| <= |latched| && |f| <= |flight|
      requires forall i :: 0 <= i < |f| ==> f[i].data == flight[i].data
      modifies `latched, `flight
      ensures Valid() && latched == l && flight == f
    {
      latched, flight := l, f;
    }

    // A bus reset writes R8_UEP2_CTRL whole: the next packet is DATA0.
    method ClearToggle()
      requires Valid() && latched == [] && flight == [] && !paired
      modifies `tog
      ensures Valid() && !tog
    {
      tog := false;
    }

    // tx_direct_reset(): the region is gone; both windows may still hold its bytes.
    method Unpair()
      requires Valid() && !filling
      modifies `paired, `togValid
      ensures Valid() && !paired
    {
      paired, togValid := false, false;
    }
  }

  /** Which completions belong to the nominated region.  worth[i] is what the i-th packet in flight
      adds to bl_usb_tx_direct_sent(). */
  class Account {
    const lean: bool       // FW_USB_ISR_LEAN
    var outstanding: nat   // tx_pipe_outstanding
    var stageLen: seq<nat>
    var stageDir: seq<bool>
    var head: nat
    var tail: nat
    ghost var worth: seq<nat>

    function Count(): nat
      reads this
      requires head < STAGE_SLOTS && tail < STAGE_SLOTS
    {
      if head >= tail then head - tail else head + STAGE_SLOTS - tail
    }

    function Slot(i: nat): nat
      reads this
      requires |stageLen| == STAGE_SLOTS && |stageDir| == STAGE_SLOTS
    {
      var at := if tail + i < STAGE_SLOTS then tail + i else (tail + i) % STAGE_SLOTS;
      if stageDir[at] then stageLen[at] else 0
    }

    ghost predicate Valid()
      reads this
    {
      && |stageLen| == STAGE_SLOTS && |stageDir| == STAGE_SLOTS
      && head < STAGE_SLOTS && tail < STAGE_SLOTS && |worth| <= 2
      && if outstanding > 0 then
           lean && outstanding == |worth| && Count() == 0
           && forall i :: 0 <= i < |worth| ==> worth[i] == Q.PKT
         else if Count() == 0 then forall i :: 0 <= i < |worth| ==> worth[i] == 0
         else Count() == |worth| && forall i :: 0 <= i < |worth| ==> worth[i] == Slot(i)
    }

    constructor (lean: bool)
      ensures Valid() && this.lean == lean && worth == []
    {
      this.lean := lean;
      outstanding, head, tail := 0, 0, 0;
      stageLen, stageDir := [0, 0, 0, 0], [false, false, false, false];
      worth := [];
    }

    // tx_stage_push()
    method Push(len: nat, isDirect: bool)
      requires Valid() && outstanding == 0 && |worth| <= 1 && Count() == |worth|
      modifies `stageLen, `stageDir, `head, `worth
      ensures Valid() && outstanding == 0 && Count() == |worth|
      ensures worth == old(worth) + [if isDirect then len else 0]
    {
      stageLen := stageLen[head := len];
      stageDir := stageDir[head := isDirect];
      head := (head + 1) % STAGE_SLOTS;
      worth := worth + [if isDirect then len else 0];
    }

    method PushPair()
      requires Valid() && worth == []
      modifies this
      ensures Valid() && worth == [Q.PKT, Q.PKT] && (lean ==> outstanding == 2)
    {
      if lean {
        outstanding := outstanding + 2;
        worth := [Q.PKT, Q.PKT];
      } else {
        Push(Q.PKT, true);
        Push(Q.PKT, true);
      }
    }

    // The refilled window of a pair joins the packet still outstanding.
    method PushFull()
      requires Valid() && worth == [Q.PKT] && (lean ==> outstanding > 0)
      modifies this
      ensures Valid() && worth == [Q.PKT, Q.PKT] && (lean ==> outstanding == 2)
    {
      if lean {
        outstanding := outstanding + 1;
        worth := [Q.PKT, Q.PKT];
      } else {
        assert worth[0] == Q.PKT;
        Push(Q.PKT, true);
      }
    }

    // A CDC terminator is staged without an entry.
    ghost method PushTerminator()
      requires Valid() && worth == []
      modifies `worth
      ensures Valid() && worth == [0]
    {
      worth := [0];
    }

    // The credit of a completed packet: the lean count first, then tx_stage_pop().
    method Pop() returns (n: nat)
      requires Valid() && worth != []
      modifies this
      ensures Valid() && n == old(worth)[0] && worth == old(worth)[1..]
      ensures outstanding == if old(outstanding) > 0 then old(outstanding) - 1 else 0
    {
      if outstanding != 0 {
        outstanding := outstanding - 1;
        n := Q.PKT;
      } else if head == tail {
        n := 0;
      } else {
        n := if stageDir[tail] then stageLen[tail] else 0;
        tail := (tail + 1) % STAGE_SLOTS;
      }
      worth := worth[1..];
    }

    // begin, end and flush: whatever is still in flight is nobody's.
    method Reset(ghost n: nat)
      requires Valid() && n <= 2
      modifies this
      ensures Valid() && worth == (if n == 0 then [] else if n == 1 then [0] else [0, 0])
    {
      outstanding, head, tail := 0, 0, 0;
      worth := if n == 0 then [] else if n == 1 then [0] else [0, 0];
    }
  }
}
