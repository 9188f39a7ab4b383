/** Reading an AGB cartridge ROM: the strobes of fw_cart_agb_read_leaf() on a cartridge that advances
    its own address, and do_cart_read() over it.  However the read is cut into latch groups, the
    reply is the ROM's halfwords in order; what is published is only what has been written, and
    whether the publications are fit for the pipelined transmitter is decided exactly. */
module AgbRead {
  import opened Bytes
  import opened Bits
  import Q = TxQueue

  const SPAN := 0x100_0000      // 24 address lines
  const REPLY := 0x2000         // sizeof(g_reply)
  const LONG := 0x1_0000_0000

  type Half = x: int | 0 <= x < 0x1_0000
  type Rom = nat -> Half

  // n halfwords from hwaddr on, little-endian.
  function RomBytes(rom: Rom, hwaddr: nat, n: nat): (s: seq<byte>)
    ensures |s| == 2 * n
  {
    if n == 0 then []
    else RomBytes(rom, hwaddr, n - 1) + HalfBytes(rom((hwaddr + n - 1) % SPAN))
  }

  function HalfBytes(h: Half): (s: seq<byte>)
    ensures |s| == 2
  {
    [h % 0x100, h / 0x100]
  }

  // The i-th halfword of s, its low octet first.
  function HalfAt(s: seq<byte>, i: nat): nat
    requires 2 * i + 1 < |s|
  {
    s[2 * i] as int + 0x100 * (s[2 * i + 1] as int)
  }

  // n halfwords of s are the ROM's from hwaddr on.
  ghost predicate Halves(s: seq<byte>, rom: Rom, hwaddr: nat, n: nat) {
    |s| >= 2 * n && forall i :: 0 <= i < n ==> HalfAt(s, i) == rom((hwaddr + i) % SPAN)
  }

  lemma {:induction false} RomHalves(rom: Rom, hwaddr: nat, n: nat)
    ensures Halves(RomBytes(rom, hwaddr, n), rom, hwaddr, n)
  {
    if n > 0 {
      RomHalves(rom, hwaddr, n - 1);
      var s, t := RomBytes(rom, hwaddr, n), RomBytes(rom, hwaddr, n - 1);
      forall i | 0 <= i < n ensures HalfAt(s, i) == rom((hwaddr + i) % SPAN) {
        if i < n - 1 { assert HalfAt(s, i) == HalfAt(t, i); }
      }
    }
  }

  lemma {:induction false} RomJoins(rom: Rom, hwaddr: nat, n: nat, m: nat)
    ensures RomBytes(rom, hwaddr, n + m) == RomBytes(rom, hwaddr, n) + RomBytes(rom, hwaddr + n, m)
  {
    if m > 0 {
      RomJoins(rom, hwaddr, n, m - 1);
      assert (hwaddr + (n + m) - 1) % SPAN == (hwaddr + n + m - 1) % SPAN;
    }
  }

  lemma {:induction false} RomWraps(rom: Rom, hwaddr: nat, n: nat)
    ensures RomBytes(rom, hwaddr % LONG, n) == RomBytes(rom, hwaddr, n)
  {
    if n > 0 {
      RomWraps(rom, hwaddr, n - 1);
      var q := hwaddr / LONG;
      assert hwaddr == hwaddr % LONG + q * 256 * SPAN;
      SameSlot(hwaddr % LONG + n - 1, q * 256);
    }
  }

  lemma SameSlot(a: nat, k: nat)
    ensures (a + k * SPAN) % SPAN == a % SPAN
  {
    ModIs(a + k * SPAN, a / SPAN + k, SPAN, a % SPAN);
  }

  function Next(line: nat): nat { (line + 1) % SPAN }

  lemma NextLine(a: nat)
    ensures Next(a % SPAN) == (a + 1) % SPAN
  {
  }

  /** The cartridge edge.  A falling /CS latches the address on the AD lines and A16..A23; each /RD
      puts the halfword on AD and its rising edge moves the cartridge on. */
  class Bus {
    const rom: Rom
    var pa: nat          // PA_OUT on the AD lines
    var high: nat        // A16..A23 in PB_OUT
    var driven: bool     // AD and A16..A23 are outputs
    var csLow: bool
    var rdLow: bool
    var latched: nat     // the cartridge's own address

    constructor (rom: Rom)
      ensures this.rom == rom && !csLow && !rdLow
    {
      this.rom := rom;
      pa, high, driven, csLow, rdLow, latched := 0, 0, false, false, false, 0;
    }

    // The latch phase: both parks, the address, /CS, and the turnaround.
    method Latch(hwaddr: nat)
      requires !csLow && !rdLow && hwaddr < LONG
      modifies this
      ensures csLow && !rdLow && !driven && latched == hwaddr % SPAN
    {
      pa := 0;
      high := 0;
      driven := true;
      pa := hwaddr % 0x1_0000;
      high := 0;
      high := hwaddr / 0x1_0000 % 0x100;
      csLow := true;
      latched := high * 0x1_0000 + pa;
      assert latched == hwaddr % SPAN by { Split(hwaddr); }
      pa := 0;
      driven := false;
    }

    static lemma Split(a: nat)
      requires a < LONG
      ensures a / 0x1_0000 % 0x100 * 0x1_0000 + a % 0x1_0000 == a % SPAN
    {
    }

    // /RD low, sample, /RD high.
    method Strobe() returns (w: Half)
      requires csLow && !rdLow && !driven
      modifies `rdLow, `latched
      ensures !rdLow && w == rom(old(latched)) && latched == Next(old(latched))
    {
      rdLow := true;
      w := rom(latched);
      rdLow := false;
      latched := Next(latched);
    }

    method Deselect()
      requires csLow
      modifies `csLow
      ensures !csLow
    {
      csLow := false;
    }
  }

  // The leaf's n = min(grp, left) on 32-bit registers: subtract, turn the borrow into a mask, keep
  // the difference or nothing, add the group back.
  function BranchlessMin(grp: nat, left: nat): nat
    requires grp < LONG && left < LONG
  {
    var r5 := (left + LONG - grp) % LONG;
    var r4 := if left < grp then LONG - 1 else 0;
    (And(r5, r4) + grp) % LONG
  }

  lemma BranchlessMinIsMin(grp: nat, left: nat)
    requires grp < LONG && left < LONG
    ensures BranchlessMin(grp, left) == Min(grp, left)
  {
    Word32();
    AllOnes((left + LONG - grp) % LONG, 32);
  }

  // s with x laid over it from `at' on.
  function Patch(s: seq<byte>, at: nat, x: seq<byte>): (t: seq<byte>)
    requires at + |x| <= |s|
    ensures |t| == |s|
  {
    s[..at] + x + s[at + |x|..]
  }

  lemma PatchNone(s: seq<byte>, at: nat)
    requires at <= |s|
    ensures Patch(s, at, []) == s
  {
  }

  lemma PatchJoins(s: seq<byte>, at: nat, x: seq<byte>, y: seq<byte>)
    requires at + |x| + |y| <= |s|
    ensures Patch(Patch(s, at, x), at + |x|, y) == Patch(s, at, x + y)
  {
    var t := Patch(s, at, x);
    assert t[..at + |x|] == s[..at] + x;
    assert t[at + |x| + |y|..] == s[at + |x| + |y|..];
  }

  // strh
  method StoreHalf(reply: array<byte>, at: nat, w: Half)
    requires at + 2 <= reply.Length
    modifies reply
    ensures reply[..] == Patch(old(reply[..]), at, HalfBytes(w))
  {
    reply[at] := w % 0x100;
    reply[at + 1] := w / 0x100;
  }

  // fw_cart_agb_read_leaf(): one latch per group of at most grp halfwords.
  method ReadLeaf(bus: Bus, hwaddr: nat, reply: array<byte>, at: nat, halfwords: nat, grp: nat)
    requires !bus.csLow && !bus.rdLow && hwaddr < LONG && 0 < grp < LONG && halfwords < LONG
    requires at + 2 * halfwords <= reply.Length
    modifies bus, reply
    ensures !bus.csLow && !bus.rdLow
    ensures reply[..] == Patch(old(reply[..]), at, RomBytes(bus.rom, hwaddr, halfwords))
    ensures Halves(reply[at..at + 2 * halfwords], bus.rom, hwaddr, halfwords)
    ensures reply[..at] == old(reply[..at]) && reply[at + 2 * halfwords..] == old(reply[at + 2 * halfwords..])
  {
    ReadGroups(bus, hwaddr, reply, at, halfwords, grp);
    PatchOnly(old(reply[..]), at, RomBytes(bus.rom, hwaddr, halfwords));
    RomHalves(bus.rom, hwaddr, halfwords);
    Cuts(reply, at, 2 * halfwords);
  }

  lemma PatchOnly(s: seq<byte>, at: nat, x: seq<byte>)
    requires at + |x| <= |s|
    ensures var t := Patch(s, at, x);
            t[..at] == s[..at] && t[at..at + |x|] == x && t[at + |x|..] == s[at + |x|..]
  {
  }

  lemma Cuts(a: array<byte>, at: nat, n: nat)
    requires at + n <= a.Length
    ensures a[..][..at] == a[..at] && a[..][at..at + n] == a[at..at + n] && a[..][at + n..] == a[at + n..]
  {
  }

  method ReadGroups(bus: Bus, hwaddr: nat, reply: array<byte>, at: nat, halfwords: nat, grp: nat)
    requires !bus.csLow && !bus.rdLow && hwaddr < LONG && 0 < grp < LONG && halfwords < LONG
    requires at + 2 * halfwords <= reply.Length
    modifies bus, reply
    ensures !bus.csLow && !bus.rdLow
    ensures reply[..] == Patch(old(reply[..]), at, RomBytes(bus.rom, hwaddr, halfwords))
  {
    hide Patch, RomBytes, BranchlessMin;
    var left: nat, addr: nat, dst: nat := halfwords, hwaddr, at;
    ghost var was := reply[..];
    PatchNone(was, at);
    RomNone(bus.rom, hwaddr);
    while left != 0
      invariant left <= halfwords && dst == at + 2 * (halfwords - left)
      invariant !bus.csLow && !bus.rdLow && addr < LONG && addr == (hwaddr + (halfwords - left)) % LONG
      invariant reply[..] == Patch(was, at, RomBytes(bus.rom, hwaddr, halfwords - left))
      decreases left
    {
      BranchlessMinIsMin(grp, left);
      var n: nat := BranchlessMin(grp, left);
      ghost var done: nat := halfwords - left;
      ReadGroup(bus, addr, reply, dst, n);
      PatchJoins(was, at, RomBytes(bus.rom, hwaddr, done), RomBytes(bus.rom, addr, n));
      RomWraps(bus.rom, hwaddr + done, n);
      RomJoins(bus.rom, hwaddr, done, n);
      NextAddress(hwaddr, done, n);
      addr := (addr + n) % LONG;
      dst := dst + 2 * n;
      left := left - n;
    }
  }

  lemma RomNone(rom: Rom, hwaddr: nat)
    ensures RomBytes(rom, hwaddr, 0) == []
  {
  }

  lemma RomSnoc(rom: Rom, hwaddr: nat, n: nat)
    ensures RomBytes(rom, hwaddr, n + 1) == RomBytes(rom, hwaddr, n) + HalfBytes(rom((hwaddr + n) % SPAN))
  {
  }

  lemma NextAddress(a: nat, x: nat, n: nat)
    ensures ((a + x) % LONG + n) % LONG == (a + (x + n)) % LONG
  {
  }

  method ReadGroup(bus: Bus, hwaddr: nat, reply: array<byte>, at: nat, n: nat)
    requires !bus.csLow && !bus.rdLow && hwaddr < LONG && at + 2 * n <= reply.Length
    modifies bus, reply
    ensures !bus.csLow && !bus.rdLow
    ensures reply[..] == Patch(old(reply[..]), at, RomBytes(bus.rom, hwaddr, n))
  {
    hide Patch, HalfBytes, RomBytes, Next;
    RomNone(bus.rom, hwaddr);
    bus.Latch(hwaddr);
    ghost var was := reply[..];
    PatchNone(was, at);
    for i := 0 to n
      invariant bus.csLow && !bus.rdLow && !bus.driven && bus.latched == (hwaddr + i) % SPAN
      invariant reply[..] == Patch(was, at, RomBytes(bus.rom, hwaddr, i))
    {
      NextLine(hwaddr + i);
      var w := bus.Strobe();
      StoreHalf(reply, at + 2 * i, w);
      RomSnoc(bus.rom, hwaddr, i);
      PatchJoins(was, at, RomBytes(bus.rom, hwaddr, i), HalfBytes(w));
    }
    bus.Deselect();
  }

  // ------------------------------------------------------------------ do_cart_read()

  // The reply: the ROM from ADDRESS on, and one byte of padding if the length is odd.
  function Image(rom: Rom, hwaddr: nat, len: nat): (s: seq<byte>)
    ensures |s| == len
  {
    RomBytes(rom, hwaddr, len / 2) + if len % 2 == 1 then [255] else []
  }

  // What the image holds: the ROM's halfwords in address order, and the pad.
  ghost predicate Pictures(s: seq<byte>, rom: Rom, hwaddr: nat) {
    Halves(s, rom, hwaddr, |s| / 2) && (|s| % 2 == 1 ==> s[|s| - 1] == 255)
  }

  lemma ImageHalves(rom: Rom, hwaddr: nat, len: nat)
    ensures Pictures(Image(rom, hwaddr, len), rom, hwaddr)
  {
    RomHalves(rom, hwaddr, len / 2);
    var s, t := Image(rom, hwaddr, len), RomBytes(rom, hwaddr, len / 2);
    forall i | 0 <= i < len / 2 ensures HalfAt(s, i) == rom((hwaddr + i) % SPAN) {
      assert HalfAt(s, i) == HalfAt(t, i);
    }
  }

  // Bytes read per leaf call: whole latch groups, as many as fit in a step but at least one.
  function PerCall(step: nat, latch: nat): (n: nat)
    requires latch > 0
    ensures n >= latch
  {
    if step < latch then latch else step - step % latch
  }

  // Fit for the pipelined transmitter: whole packets, or everything.
  predicate Fit(mark: nat, len: nat) {
    mark % Q.PKT == 0 || mark == len
  }

  // A mark is fit exactly when publishing up to it keeps the transmit queue's discipline.
  lemma FitIsDisciplined(s: seq<byte>, mark: nat)
    requires mark <= |s|
    ensures Fit(mark, |s|) <==> Q.Disciplined(Q.Region(|s|, s[..mark], 0))
  {
  }

  lemma Doubles(half: nat, q: nat)
    ensures 2 * half * q == 2 * (half * q)
  {
  }

  lemma EvenPer(step: nat, half: nat)
    requires half > 0
    ensures PerCall(step, 2 * half) % 2 == 0
  {
    if step >= 2 * half {
      var n, q, r := 2 * half, step / (2 * half), step % (2 * half);
      assert step == n * q + r;
      Doubles(half, q);
    }
  }

  // The mask form and the repeated addition it stands for.
  method LeafBytes(step: nat, latch: nat) returns (perCall: nat)
    requires 0 < latch < LONG && step < LONG
    ensures perCall == PerCall(step, latch)
  {
    hide And, Pow2;
    if And(latch, latch - 1) == 0 {
      MaskForm(step, latch);
      perCall := And(step, LONG - latch);
      if perCall < latch {
        RoundsToNone(step, latch);
        perCall := latch;
      } else {
        RoundsToSome(step, latch);
      }
    } else {
      perCall := latch;
      ghost var q := 1;
      while perCall + latch <= step
        invariant perCall == q * latch && (perCall == latch || perCall <= step)
        decreases step - perCall
      {
        perCall := perCall + latch;
        q := q + 1;
      }
      if perCall <= step {
        ModIs(step, q, latch, step - perCall);
      }
    }
  }

  lemma MaskForm(step: nat, latch: nat)
    requires 0 < latch < LONG && step < LONG && And(latch, latch - 1) == 0
    ensures And(step, LONG - latch) == step - step % latch
  {
    hide And, Pow2;
    PowerTest(latch);
    var k: nat :| latch == Pow2(k);
    Word32();
    if k > 32 {
      Pow2Grows(32, k);
    }
    MaskRounds(step, 32, k);
  }

  lemma {:induction false} Pow2Grows(a: nat, b: nat)
    requires a <= b
    ensures Pow2(a) <= Pow2(b)
  {
    if a < b {
      Pow2Grows(a, b - 1);
    }
  }

  lemma RoundsToNone(step: nat, latch: nat)
    requires latch > 0 && step - step % latch < latch
    ensures step < latch
  {
    var q := step / latch;
    assert step - step % latch == q * latch;
    assert q > 0 ==> q * latch >= latch;
  }

  lemma RoundsToSome(step: nat, latch: nat)
    requires latch > 0 && step - step % latch >= latch
    ensures step >= latch
  {
  }

  ghost predicate AllFit(marks: seq<nat>, len: nat) {
    forall i :: 0 <= i < |marks| ==> Fit(marks[i], len)
  }

  predicate FitPer(per: nat, len: nat) {
    per % Q.PKT == 0 || len <= per
  }

  // So far every mark is fit, or the first one already is not.
  ghost predicate Judged(marks: seq<nat>, per: nat, len: nat, off: nat) {
    && (off == 0 ==> marks == [])
    && (if FitPer(per, len) then AllFit(marks, len) else off > 0 ==> marks != [] && marks[0] == per)
  }

  lemma NoMarks(per: nat, len: nat)
    ensures Judged([], per, len, 0)
  {
  }

  lemma NextEven(per: nat, len: nat, off: nat, next: nat)
    requires per % 2 == 0 && off % 2 == 0 && (next == off + per || next == len)
    ensures next % 2 == 0 || next == len
  {
  }

  lemma NextMark(marks: seq<nat>, per: nat, len: nat, off: nat, next: nat)
    requires Judged(marks, per, len, off) && off < next <= len
    requires next == off + per || next == len
    requires per % Q.PKT == 0 ==> off % Q.PKT == 0
    ensures per % Q.PKT == 0 ==> next % Q.PKT == 0 || next == len
    ensures len < per || off > 0 ==> Judged(marks, per, len, next)
    ensures next == off + per || len < per || off > 0 ==> Judged(marks + [next], per, len, next)
  {
  }

  lemma LastMark(marks: seq<nat>, per: nat, len: nat)
    requires Judged(marks, per, len, len) && per > 0
    ensures AllFit(marks + [len], len) <==> FitPer(per, len)
  {
    if !FitPer(per, len) {
      assert (marks + [len])[0] == per && !Fit(per, len);
    }
  }

  // What was in the reply at each mark is the front of the image.
  ghost predicate Showed(rom: Rom, hwaddr: nat, marks: seq<nat>, shown: seq<seq<byte>>) {
    |shown| == |marks| && forall i :: 0 <= i < |marks| ==> shown[i] == Image(rom, hwaddr, marks[i])
  }

  lemma ShowsNone(rom: Rom, hwaddr: nat)
    ensures Showed(rom, hwaddr, [], [])
  {
  }

  lemma ShowsMore(rom: Rom, hwaddr: nat, marks: seq<nat>, shown: seq<seq<byte>>, mark: nat, s: seq<byte>)
    requires Showed(rom, hwaddr, marks, shown) && s == Image(rom, hwaddr, mark)
    ensures Showed(rom, hwaddr, marks + [mark], shown + [s])
  {
    hide Image;
  }

  class Reader {
    const bus: Bus
    const reply: array<byte>     // g_reply
    var address: nat             // ADDRESS, in halfwords
    var transferSize: nat
    var readMethod: nat          // AGB_READ_METHOD: 0 Single, 1 MemCpy, else Stream
    var cartStep: nat
    var cartLatch: nat
    var stepPin: nat
    ghost var marks: seq<nat>    // bl_usb_tx_direct_publish() so far in this read
    ghost var shown: seq<seq<byte>>   // and the reply up to each of them, as it was then
    ghost var written: nat       // reply bytes in place

    ghost predicate Valid()
      reads this, bus
    {
      && !bus.csLow && !bus.rdLow && reply.Length == REPLY
      && address < LONG && transferSize <= REPLY
      && 0 < cartStep < 0x1_0000 && 1 < cartLatch < 0x1_0000 && stepPin < 0x1_0000
    }

    // What fw_main() sets up, and SET_STEP, SET_LATCH and SET_VARIABLE change.
    constructor (rom: Rom)
      ensures Valid() && fresh(bus) && fresh(reply) && bus.rom == rom
      ensures cartStep == 512 && cartLatch == 128 && stepPin == 0
    {
      bus := new Bus(rom);
      reply := new byte[REPLY](_ => 0);
      address, transferSize, readMethod, cartStep, cartLatch, stepPin := 0, 64, 0, 512, 128, 0;
      marks, shown, written := [], [], 0;
    }

    // agb_latch_bytes(), in whole halfwords.
    function Latch(): nat
      reads this
    {
      var latch := if readMethod == 0 then 2 else if readMethod == 1 then 4 else cartLatch;
      latch / 2 * 2
    }

    // agb_step_bytes()
    function Step(): nat
      reads this
    {
      if stepPin != 0 then stepPin else if readMethod == 2 then cartLatch else cartStep
    }

    // What DefaultsFit says, said of this reader: at the shipped settings every method's publications
    // are fit, and with the step pinned at 16 bytes those of Stream are, and of Single and MemCpy
    // only a read of 16 bytes or fewer.
    lemma MethodsFit(len: nat)
      requires cartLatch == 128 && cartStep == 512 && (stepPin == 0 || stepPin == 16)
      ensures FitPer(PerCall(Step(), Latch()), len) <==> stepPin == 0 || readMethod > 1 || len <= 16
      ensures Latch() == (if readMethod == 0 then 2 else if readMethod == 1 then 4 else 128)
    {
      DefaultsFit(if readMethod == 0 then 2 else if readMethod == 1 then 4 else 128, len);
    }

    // Only what has been written may be offered to the endpoint.
    ghost method Publish(avail: nat)
      requires avail <= written && avail <= reply.Length
      modifies `marks, `shown
      ensures marks == old(marks) + [avail] && shown == old(shown) + [reply[..avail]]
    {
      marks, shown := marks + [avail], shown + [reply[..avail]];
    }

    // A publication in the middle of a read, when the reply is the image so far.
    ghost method Offer(avail: nat)
      requires avail <= written && avail <= reply.Length && reply[..avail] == Image(bus.rom, address, avail)
      requires Showed(bus.rom, address, marks, shown)
      modifies `marks, `shown
      ensures marks == old(marks) + [avail] && Showed(bus.rom, address, marks, shown)
    {
      hide Image, Showed;
      ShowsMore(bus.rom, address, marks, shown, avail, reply[..avail]);
      Publish(avail);
    }

    // do_cart_read(): the bytes are the same for every method, latch and step, and ADDRESS advances
    // unless the host stopped taking them.  The publications are all fit exactly if a leaf call
    // reads whole packets or the whole transfer.
    method CartRead(stalled: bool)
      requires Valid()
      modifies bus, reply, `address, `marks, `shown, `written
      ensures Valid() && Showed(bus.rom, old(address), marks, shown)
      ensures reply[..transferSize] == Image(bus.rom, old(address), transferSize)
      ensures Pictures(reply[..transferSize], bus.rom, old(address))
      ensures address == if stalled then old(address) else (old(address) + transferSize / 2) % LONG
      ensures |marks| > 0 && marks[|marks| - 1] == transferSize
      ensures AllFit(marks, transferSize) <==> FitPer(PerCall(Step(), Latch()), transferSize)
    {
      hide Image, AllFit, FitPer, RomBytes, PerCall, Judged, Showed, Pictures;
      NoMarks(PerCall(Step(), Latch()), transferSize);
      var len, step, latch := transferSize, Step(), Latch();
      var perCall := LeafBytes(step, latch);
      var adv := if step < perCall then step else perCall;
      var off, sent := 0, 0;
      marks, shown, written := [], [], 0;
      ShowsNone(bus.rom, address);
      EvenPer(step, latch / 2);
      while off < len
        invariant Valid() && address == old(address)
        invariant sent <= off <= len && written == off && (off % 2 == 0 || off == len)
        invariant reply[..off] == Image(bus.rom, address, off)
        invariant perCall % Q.PKT == 0 ==> off % Q.PKT == 0 || off == len
        invariant Judged(marks, perCall, len, off) && Showed(bus.rom, address, marks, shown)
        decreases len - off
      {
        var chunk := len - off;
        if chunk > perCall {
          chunk := perCall;
        }
        Fill(off, chunk);
        NextEven(perCall, len, off, off + chunk);
        NextMark(marks, perCall, len, off, off + chunk);
        off := off + chunk;
        written := off;
        if off - sent >= adv {
          Offer(off);
          sent := CatchUp(off, sent, step);
        }
      }
      LastMark(marks, perCall, len);
      Offer(len);
      ImageHalves(bus.rom, address, len);
      if !stalled {
        address := (address + len / 2) % LONG;
      }
    }

    // `sent' follows in whole steps.
    static method CatchUp(off: nat, was: nat, step: nat) returns (sent: nat)
      requires was <= off && step > 0
      ensures was <= sent <= off < sent + step && (sent - was) % step == 0
    {
      sent := was;
      ghost var k := 0;
      while off - sent >= step
        invariant was <= sent <= off && sent == was + k * step
      {
        sent := sent + step;
        k := k + 1;
      }
      ModIs(sent - was, k, step, 0);
    }

    // One leaf call, and the pad that keeps an odd transfer to its width.
    method Fill(off: nat, chunk: nat)
      requires Valid() && off % 2 == 0 && off + chunk <= REPLY && chunk > 0
      requires reply[..off] == Image(bus.rom, address, off)
      modifies bus, reply
      ensures Valid() && reply[..off + chunk] == Image(bus.rom, address, off + chunk)
    {
      hide Image;
      var hw := chunk / 2;
      FillWords(off, hw);
      if chunk % 2 == 1 {
        ImageOdd(bus.rom, address, off + 2 * hw);
        ghost var was := reply[..];
        reply[off + chunk - 1] := 255;
        assert reply[..off + chunk] == was[..off + 2 * hw] + [255];
      }
    }

    static lemma ImageOdd(rom: Rom, hwaddr: nat, len: nat)
      requires len % 2 == 0
      ensures Image(rom, hwaddr, len + 1) == Image(rom, hwaddr, len) + [255]
    {
    }

    static lemma ImageJoins(rom: Rom, hwaddr: nat, off: nat, hw: nat)
      requires off % 2 == 0
      ensures Image(rom, hwaddr, off + 2 * hw) ==
              Image(rom, hwaddr, off) + RomBytes(rom, (hwaddr + off / 2) % LONG, hw)
    {
      var o := off / 2;
      assert (off + 2 * hw) / 2 == o + hw && (off + 2 * hw) % 2 == 0;
      hide RomBytes;
      RomWraps(rom, hwaddr + o, hw);
      RomJoins(rom, hwaddr, o, hw);
      assert RomBytes(rom, hwaddr, o) + [] == RomBytes(rom, hwaddr, o);
      assert RomBytes(rom, hwaddr, o + hw) + [] == RomBytes(rom, hwaddr, o + hw);
    }

    static lemma PatchPrefix(s: seq<byte>, at: nat, x: seq<byte>)
      requires at + |x| <= |s|
      ensures Patch(s, at, x)[..at + |x|] == s[..at] + x
    {
    }

    method FillWords(off: nat, hw: nat)
      requires Valid() && off % 2 == 0 && off + 2 * hw <= REPLY
      requires reply[..off] == Image(bus.rom, address, off)
      modifies bus, reply
      ensures Valid() && reply[..off + 2 * hw] == Image(bus.rom, address, off + 2 * hw)
    {
      hide Image, RomBytes, Patch;
      ghost var was, more := reply[..], RomBytes(bus.rom, (address + off / 2) % LONG, hw);
      ImageJoins(bus.rom, address, off, hw);
      if hw != 0 {
        ReadLeaf(bus, (address + off / 2) % LONG, reply, off, hw, Latch() / 2);
      } else {
        RomNone(bus.rom, (address + off / 2) % LONG);
        PatchNone(was, off);
      }
      PatchPrefix(was, off, more);
      assert reply[..off + 2 * hw] == reply[..][..off + 2 * hw];
    }

    // A run of read opcodes taken together (FW_AGB_READ_BATCH): as many laps as g_reply forces, and
    // TRANSFER_SIZE put back at the end.  The host reads `live' laps and is gone after that: the lap
    // it stalls does not advance ADDRESS, and the loop gives up the rest.
    method ReadBatch(reps: nat, live: nat) returns (out: seq<byte>)
      requires Valid() && reps > 0
      modifies this, bus, reply
      ensures Valid() && transferSize == old(transferSize)
      ensures var served := Min(old(transferSize) * reps, live * REPLY);
              out == Image(bus.rom, old(address), served) && address == (old(address) + served / 2) % LONG
              && Pictures(out, bus.rom, old(address))
    {
      ImageHalves(bus.rom, address, Min(transferSize * reps, live * REPLY));
      var base := transferSize;
      out := ReadLaps(base * reps, live);
      transferSize := base;
    }

    method ReadLaps(all: nat, live: nat) returns (out: seq<byte>)
      requires Valid()
      modifies this, bus, reply
      ensures Valid() && out == Image(bus.rom, old(address), Min(all, live * REPLY))
      ensures address == (old(address) + Min(all, live * REPLY) / 2) % LONG
    {
      hide Served;
      var total, laps := all, 0;
      ghost var a: nat, done: nat := address, 0;
      out := [];
      NoneServed();
      while true
        invariant Valid() && done + total == all && done == laps * REPLY && laps <= live && (done > 0 ==> total > 0)
        invariant Served(a, out, done)
        decreases total
      {
        var lap := if total > REPLY then REPLY else total;
        LapCounts(all, live, laps, total);
        var stuck;
        out, stuck := NextLap(lap, laps == live, a, out, done);
        total := total - lap;
        if stuck {
          done := if laps < live then all else done;
          break;
        }
        done, laps := done + lap, laps + 1;
        if total == 0 {
          break;
        }
      }
      AllServed(a, out, Min(all, live * REPLY));
    }

    // What the host has been given, and where ADDRESS stands for it.
    ghost predicate Served(a: nat, out: seq<byte>, done: nat)
      reads `address, bus
    {
      out == Image(bus.rom, a, done) && address == (a + done / 2) % LONG
    }

    lemma NoneServed()
      requires address < LONG
      ensures Served(address, [], 0)
    {
      NoImage(bus.rom, address);
    }

    lemma AllServed(a: nat, out: seq<byte>, done: nat)
      requires Served(a, out, done)
      ensures out == Image(bus.rom, a, done) && address == (a + done / 2) % LONG
    {
    }

    // One lap.  No advance of ADDRESS is read as the stall exit: it is that, or a last single byte.
    method NextLap(lap: nat, stalled: bool, ghost a: nat, sofar: seq<byte>, ghost done: nat)
      returns (out: seq<byte>, stuck: bool)
      requires Valid() && lap <= REPLY && done % 2 == 0 && Served(a, sofar, done)
      modifies this, bus, reply
      ensures Valid() && stuck == (lap != 0 && (stalled || lap == 1))
      ensures Served(a, out, if stalled then done else done + lap)
      ensures stalled && lap == 0 ==> Served(a, out, done + lap)
    {
      hide Image;
      var was := address;
      LapJoins(bus.rom, a, done, lap);
      if lap != 0 {
        NoAdvance(was, lap);
      }
      var more := Lap(lap, stalled);
      stuck := lap != 0 && address == was;
      out := if stalled then sofar else sofar + more;
    }

    // Where the loop stands against what the host will take.
    static lemma LapCounts(all: nat, live: nat, laps: nat, total: nat)
      requires laps <= live && laps * REPLY + total == all
      ensures laps * REPLY % 2 == 0 && (laps + 1) * REPLY == laps * REPLY + REPLY
      ensures laps == live ==> Min(all, live * REPLY) == laps * REPLY
      ensures laps < live && total <= REPLY ==> Min(all, live * REPLY) == all
    {
    }

    // A lap that was sent advances ADDRESS, unless it was a single byte, and then it is the last.
    static lemma NoAdvance(was: nat, lap: nat)
      requires was < LONG && 0 < lap <= REPLY
      ensures (was + lap / 2) % LONG == was <==> lap == 1
    {
    }

    method Lap(lap: nat, stalled: bool) returns (more: seq<byte>)
      requires Valid() && lap <= REPLY
      modifies this, bus, reply
      ensures Valid() && more == Image(bus.rom, old(address), lap)
      ensures address == if stalled then old(address) else (old(address) + lap / 2) % LONG
    {
      hide Image;
      transferSize := lap;
      CartRead(stalled);
      more := reply[..lap];
    }

    static lemma NoImage(rom: Rom, hwaddr: nat)
      ensures Image(rom, hwaddr, 0) == []
    {
    }

    static lemma LapJoins(rom: Rom, hwaddr: nat, off: nat, len: nat)
      requires off % 2 == 0
      ensures Image(rom, hwaddr, off) + Image(rom, (hwaddr + off / 2) % LONG, len) == Image(rom, hwaddr, off + len)
      ensures ((hwaddr + off / 2) % LONG + len / 2) % LONG == (hwaddr + (off + len) / 2) % LONG
    {
      hide RomBytes;
      var o, n := off / 2, len / 2;
      assert off == 2 * o && (off + len) / 2 == o + n && (off + len) % 2 == len % 2;
      NextAddress(hwaddr, o, n);
      RomWraps(rom, hwaddr + o, n);
      RomJoins(rom, hwaddr, o, n);
    }
  }

  // The same opcodes served one by one.
  function Separate(rom: Rom, hwaddr: nat, base: nat, reps: nat): seq<byte> {
    if reps == 0 then [] else Separate(rom, hwaddr, base, reps - 1) + Image(rom, hwaddr + (reps - 1) * (base / 2), base)
  }

  // Merging gives the concatenation of the separate reads for every even TRANSFER_SIZE, and leaves
  // ADDRESS where they would have exactly for those.
  lemma BatchIsSeparate(rom: Rom, hwaddr: nat, base: nat, reps: nat)
    requires base % 2 == 0
    ensures Separate(rom, hwaddr, base, reps) == Image(rom, hwaddr, base * reps)
  {
    var half := base / 2;
    SeparateHalves(rom, hwaddr, half, reps);
    assert base == 2 * half && base * reps == 2 * (half * reps);
    EvenImage(rom, hwaddr, half * reps);
  }

  lemma EvenImage(rom: Rom, hwaddr: nat, n: nat)
    ensures Image(rom, hwaddr, 2 * n) == RomBytes(rom, hwaddr, n)
  {
    hide RomBytes;
    assert 2 * n / 2 == n && 2 * n % 2 == 0;
    assert RomBytes(rom, hwaddr, n) + [] == RomBytes(rom, hwaddr, n);
  }

  lemma {:induction false} SeparateHalves(rom: Rom, hwaddr: nat, half: nat, reps: nat)
    ensures Separate(rom, hwaddr, 2 * half, reps) == RomBytes(rom, hwaddr, half * reps)
  {
    hide Image, RomBytes;
    if reps == 0 {
      RomNone(rom, hwaddr);
    } else {
      var before := half * (reps - 1);
      SeparateHalves(rom, hwaddr, half, reps - 1);
      assert half * reps == before + half && (reps - 1) * (2 * half / 2) == before;
      EvenImage(rom, hwaddr + before, half);
      RomJoins(rom, hwaddr, before, half);
    }
  }

  // ADDRESS after the same opcodes served one by one.
  function SeparateAddress(hwaddr: nat, base: nat, reps: nat): (a: nat)
    requires hwaddr < LONG
    ensures a < LONG
  {
    if reps == 0 then hwaddr else (SeparateAddress(hwaddr, base, reps - 1) + base / 2) % LONG
  }

  lemma {:induction false} SeparateAdvance(hwaddr: nat, base: nat, reps: nat)
    requires hwaddr < LONG
    ensures SeparateAddress(hwaddr, base, reps) == (hwaddr + Product(reps, base / 2)) % LONG
  {
    hide Product;
    ProductSteps(reps, base / 2);
    if reps > 0 {
      SeparateAdvance(hwaddr, base, reps - 1);
      NextAddress(hwaddr, Product(reps - 1, base / 2), base / 2);
    }
  }

  ghost function Product(n: nat, half: nat): nat { n * half }

  lemma ProductSteps(n: nat, half: nat)
    ensures Product(0, half) == 0 && (n > 0 ==> Product(n, half) == Product(n - 1, half) + half)
  {
    if n > 0 {
      assert n * half == (n - 1) * half + half;
    }
  }

  // The merged run leaves ADDRESS where they leave it exactly for even sizes or a single read.
  lemma BatchAddress(hwaddr: nat, base: nat, reps: nat)
    requires hwaddr < LONG && 0 < reps < LONG
    ensures (hwaddr + base * reps / 2) % LONG == SeparateAddress(hwaddr, base, reps) <==> base % 2 == 0 || reps == 1
  {
    SeparateAdvance(hwaddr, base, reps);
    var p, odd := reps * (base / 2), base % 2;
    assert base == 2 * (base / 2) + odd;
    Advances(reps, base / 2, odd);
    assert base * reps / 2 == p + odd * reps / 2;
    SameAddress(hwaddr + p, odd * reps / 2);
  }

  lemma Advances(reps: nat, half: nat, odd: nat)
    requires odd < 2
    ensures (2 * half + odd) * reps / 2 == reps * half + odd * reps / 2
  {
    var p := reps * half;
    assert (2 * half + odd) * reps == 2 * p + odd * reps;
  }

  // Less than a whole lap of ADDRESS cannot come back to the same place.
  lemma SameAddress(a: nat, x: nat)
    requires x < LONG
    ensures (a + x) % LONG == a % LONG <==> x == 0
  {
  }

  // As shipped every read method publishes whole packets.  With the step pinned at 16 bytes
  // (SET_STEP 1) Stream still does, since a leaf call is at least its latch group; Single and MemCpy
  // do only where one leaf call is all there is.
  lemma DefaultsFit(latch: nat, len: nat)
    requires latch in {2, 4, 128}
    ensures FitPer(PerCall(512, latch), len) && FitPer(PerCall(128, 128), len)
    ensures FitPer(PerCall(16, latch), len) <==> latch == 128 || len <= 16
  {
  }
}
