/** GBA EEPROM saves: a one-wire serial part on AD0, clocked out by /WR and in by /RD.  The frames
    src/cart.c sends are run against a part that collects bits while selected and acts on the frame
    when it is deselected.  A word written is the word read back, and no other word moves. */
module Eeprom {
  import opened Bytes
  import opened Bits

  // n bits of w, most significant first.
  function BitsOf(w: nat, n: nat): (s: seq<bool>)
    ensures |s| == n
  {
    if n == 0 then [] else BitsOf(w / 2, n - 1) + [w % 2 == 1]
  }

  function Number(s: seq<bool>): (v: nat)
    ensures v < Pow2(|s|)
  {
    if s == [] then 0
    else 2 * Number(s[..|s| - 1]) + if s[|s| - 1] then 1 else 0
  }

  // word & (1 << k)
  predicate BitAt(w: nat, k: nat) {
    w / Pow2(k) % 2 == 1
  }

  lemma {:induction false} BitsAt(w: nat, n: nat, i: nat)
    requires i < n
    ensures BitsOf(w, n)[i] == BitAt(w, n - 1 - i)
  {
    if i < n - 1 {
      BitsAt(w / 2, n - 1, i);
      DivTwice(w, n - 2 - i);
    }
  }

  lemma DivTwice(w: nat, k: nat)
    ensures w / 2 / Pow2(k) == w / Pow2(k + 1)
  {
    var m, q := Pow2(k), w / 2 / Pow2(k);
    var r := w / 2 % m;
    assert w / 2 == q * m + r;
    assert w == q * (2 * m) + (2 * r + w % 2) by { assert q * (2 * m) == 2 * (q * m); }
    ModIs(w, q, 2 * m, 2 * r + w % 2);
  }

  lemma {:induction false} NumberOfBits(w: nat, n: nat)
    requires w < Pow2(n)
    ensures Number(BitsOf(w, n)) == w
  {
    if n > 0 {
      NumberOfBits(w / 2, n - 1);
      assert BitsOf(w, n)[..n - 1] == BitsOf(w / 2, n - 1);
    }
  }

  lemma {:induction false} BitsOfNumber(s: seq<bool>)
    ensures BitsOf(Number(s), |s|) == s
  {
    if s != [] {
      var front := s[..|s| - 1];
      BitsOfNumber(front);
      assert Number(s) / 2 == Number(front);
      assert s == front + [s[|s| - 1]];
    }
  }

  // A field on top of another is its bits in front of the other's.
  lemma {:induction false} BitsStack(x: nat, m: nat, a: nat, n: nat)
    requires a < Pow2(n)
    ensures BitsOf(x * Pow2(n) + a, m + n) == BitsOf(x, m) + BitsOf(a, n)
  {
    if n == 0 {
      assert BitsOf(x, m) + [] == BitsOf(x, m);
    } else {
      var p := x * Pow2(n - 1);
      Halves(x, n, a);
      BitsStack(x, m, a / 2, n - 1);
      assert BitsOf(2 * p + a, m + n) == BitsOf(p + a / 2, m + n - 1) + [a % 2 == 1];
    }
  }

  lemma Halves(x: nat, n: nat, a: nat)
    requires n > 0
    ensures x * Pow2(n) + a == 2 * (x * Pow2(n - 1)) + a
    ensures (2 * (x * Pow2(n - 1)) + a) / 2 == x * Pow2(n - 1) + a / 2
  {
  }

  // Eight octets as 64 bits and back.
  function WordBits(data: seq<byte>): (s: seq<bool>)
    ensures |s| == 8 * |data|
  {
    if data == [] then [] else WordBits(data[..|data| - 1]) + BitsOf(data[|data| - 1], 8)
  }

  lemma {:induction false} WordBitsAt(data: seq<byte>, i: nat)
    requires i < 8 * |data|
    ensures WordBits(data)[i] == BitAt(data[i / 8], 7 - i % 8)
  {
    var n := |data| - 1;
    if i < 8 * n {
      WordBitsAt(data[..n], i);
    } else {
      BitsAt(data[n], 8, i - 8 * n);
    }
  }

  lemma {:induction false} WordBitsInjective(a: seq<byte>, b: seq<byte>)
    requires |a| == |b| && WordBits(a) == WordBits(b)
    ensures a == b
  {
    if a != [] {
      var n := |a| - 1;
      assert WordBits(a)[..8 * n] == WordBits(a[..n]) && WordBits(b)[..8 * n] == WordBits(b[..n]);
      assert WordBits(a)[8 * n..] == BitsOf(a[n], 8) && WordBits(b)[8 * n..] == BitsOf(b[n], 8);
      WordBitsInjective(a[..n], b[..n]);
      assert Pow2(8) == 256;
      NumberOfBits(a[n], 8);
      NumberOfBits(b[n], 8);
      assert a == a[..n] + [a[n]] && b == b[..n] + [b[n]];
    }
  }

  // Address bits of the two parts: 4K and 64K.
  function AddrBits(wide: bool): nat { if wide then 14 else 6 }

  /** The part.  While selected it shifts in AD0 at each /WR; /RD shifts out what the last read
      frame asked for, four dummy bits first; the frame takes effect when /CS rises. */
  class Part {
    const wide: bool
    var cells: seq<seq<bool>>
    var selected: bool
    var hostDrives: bool       // PA_DIR: who drives AD0
    var frame: seq<bool>
    var out: seq<bool>

    ghost predicate Valid()
      reads this
    {
      |cells| == Pow2(AddrBits(wide)) && forall i :: 0 <= i < |cells| ==> |cells[i]| == 64
    }

    constructor (wide: bool, cells: seq<seq<bool>>)
      requires |cells| == Pow2(AddrBits(wide)) && forall i :: 0 <= i < |cells| ==> |cells[i]| == 64
      ensures Valid() && this.wide == wide && this.cells == cells && !selected
    {
      this.wide, this.cells := wide, cells;
      selected, hostDrives, frame, out := false, false, [], [];
    }

    method Select()
      modifies `selected, `frame
      ensures selected && frame == []
    {
      selected, frame := true, [];
    }

    // A /WR pulse with AD0 driven.
    method ClockIn(ad0: bool)
      requires selected && hostDrives
      modifies `frame
      ensures frame == old(frame) + [ad0]
    {
      frame := frame + [ad0];
    }

    // A /RD pulse and the sample after it.
    method ClockOut() returns (ad0: bool)
      requires selected && !hostDrives
      modifies `out
      ensures old(out) == [] ==> out == [] && ad0
      ensures old(out) != [] ==> ad0 == old(out)[0] && out == old(out)[1..]
    {
      if out == [] {
        ad0 := true;
      } else {
        ad0, out := out[0], out[1..];
      }
    }

    // Write frame: 1 0, address, 64 data bits, stop.  Read frame: 1 1, address, stop.
    method Deselect()
      requires Valid() && selected
      modifies `selected, `cells, `out
      ensures Valid() && !selected
      ensures var a := AddrBits(wide);
              if |old(frame)| == 2 + a + 65 && old(frame)[0] && !old(frame)[1] then
                cells == old(cells)[Number(old(frame)[2..2 + a]) := old(frame)[2 + a..2 + a + 64]] && out == old(out)
              else if |old(frame)| == 2 + a + 1 && old(frame)[0] && old(frame)[1] then
                cells == old(cells)
                && out == [false, false, false, false] + old(cells)[Number(old(frame)[2..2 + a])]
              else cells == old(cells) && out == old(out)
    {
      var a := AddrBits(wide);
      if |frame| == 2 + a + 65 && frame[0] && !frame[1] {
        cells := cells[Number(frame[2..2 + a]) := frame[2 + a..2 + a + 64]];
      } else if |frame| == 2 + a + 1 && frame[0] && frame[1] {
        out := [false, false, false, false] + cells[Number(frame[2..2 + a])];
      }
      selected := false;
    }
  }

  // ------------------------------------------------------------------ src/cart.c

  // eeprom_begin()
  method Begin(p: Part)
    modifies p`selected, p`frame, p`hostDrives
    ensures p.selected && p.hostDrives && p.frame == []
  {
    p.Select();
    p.hostDrives := true;
  }

  // eeprom_send()
  method Send(p: Part, word: nat, nbits: nat)
    requires p.selected && p.hostDrives
    modifies p`frame
    ensures p.frame == old(p.frame) + BitsOf(word, nbits)
  {
    for i := 0 to nbits
      invariant p.frame == old(p.frame) + BitsOf(word, nbits)[..i]
    {
      BitsAt(word, nbits, i);
      p.ClockIn(BitAt(word, nbits - 1 - i));
    }
    assert BitsOf(word, nbits)[..nbits] == BitsOf(word, nbits);
  }

  // addr & mask
  function Cell(wide: bool, addr: nat): (c: nat)
    ensures c < Pow2(AddrBits(wide))
  {
    addr % Pow2(AddrBits(wide))
  }

  // 64 words of the 4K part, 16384 of the 64K one; a higher address wraps.
  lemma CellIs(wide: bool, addr: nat)
    ensures AddrBits(wide) == (if wide then 14 else 6) && Cell(wide, addr) == addr % (if wide then 16384 else 64)
    ensures addr < (if wide then 16384 else 64) ==> Cell(wide, addr) == addr
  {
    assert Pow2(6) == 64;
    Pow2Adds(6, 6);
    Pow2Adds(12, 2);
  }

  lemma Header(command: nat, wide: bool, addr: nat) returns (word: nat)
    requires command == 2 || command == 3
    ensures word == (if wide then command * 0x4000 else command * 0x40) + Cell(wide, addr)
    ensures BitsOf(word, AddrBits(wide) + 2) == [true, command == 3] + BitsOf(Cell(wide, addr), AddrBits(wide))
  {
    assert Pow2(6) == 0x40;
    Pow2Adds(6, 6);
    Pow2Adds(12, 2);
    word := (if wide then command * 0x4000 else command * 0x40) + Cell(wide, addr);
    BitsStack(command, 2, Cell(wide, addr), AddrBits(wide));
    assert BitsOf(command, 2) == [true, command == 3];
  }

  // fw_cart_agb_eeprom_write()
  method Write(p: Part, addr: nat, data: seq<byte>, selector: nat)
    requires p.Valid() && |data| == 8 && (selector == 2 <==> p.wide)
    modifies p
    ensures p.Valid() && p.cells == old(p.cells)[Cell(p.wide, addr) := WordBits(data)]
  {
    var wide := selector == 2;
    var word := (if wide then 0x8000 else 0x80) + Cell(wide, addr);
    ghost var w := Header(2, wide, addr);
    Begin(p);
    Send(p, word, if wide then 16 else 8);
    ghost var head := p.frame;
    for i := 0 to 64
      invariant p.Valid() && p.selected && p.hostDrives && p.cells == old(p.cells)
      invariant p.frame == head + WordBits(data)[..i]
    {
      WordBitsAt(data, i);
      p.ClockIn(BitAt(data[i / 8], 7 - i % 8));
    }
    assert WordBits(data)[..64] == WordBits(data);
    p.ClockIn(false);
    WriteFrame(head, Cell(wide, addr), AddrBits(wide), WordBits(data), p.frame);
    p.Deselect();
  }

  lemma WriteFrame(head: seq<bool>, cell: nat, a: nat, bits: seq<bool>, frame: seq<bool>)
    requires cell < Pow2(a) && head == [true, false] + BitsOf(cell, a) && |bits| == 64
    requires frame == head + bits + [false]
    ensures |frame| == 2 + a + 65 && frame[0] && !frame[1]
    ensures Number(frame[2..2 + a]) == cell && frame[2 + a..2 + a + 64] == bits
  {
    assert frame[2..2 + a] == BitsOf(cell, a);
    NumberOfBits(cell, a);
  }

  lemma ReadFrame(cell: nat, a: nat, frame: seq<bool>)
    requires cell < Pow2(a) && frame == [true, true] + BitsOf(cell, a) + [false]
    ensures |frame| == 2 + a + 1 && frame[0] && frame[1] && Number(frame[2..2 + a]) == cell
  {
    assert frame[2..2 + a] == BitsOf(cell, a);
    NumberOfBits(cell, a);
  }

  // fw_cart_agb_eeprom_read()
  method Read(p: Part, addr: nat, selector: nat) returns (out: seq<byte>)
    requires p.Valid() && (selector == 2 <==> p.wide)
    modifies p
    ensures p.Valid() && p.cells == old(p.cells)
    ensures |out| == 8 && WordBits(out) == p.cells[Cell(p.wide, addr)]
  {
    SendRead(p, addr, selector == 2);
    p.hostDrives := false;
    p.Select();
    out := TakeWord(p, p.cells[Cell(p.wide, addr)]);
  }

  // The read request, and the end of its frame.
  method SendRead(p: Part, addr: nat, wide: bool)
    requires p.Valid() && wide == p.wide
    modifies p
    ensures p.Valid() && p.cells == old(p.cells) && !p.selected
    ensures p.out == [false, false, false, false] + p.cells[Cell(p.wide, addr)]
  {
    var word := (if wide then 0xC000 else 0xC0) + Cell(wide, addr);
    ghost var w := Header(3, wide, addr);
    Begin(p);
    Send(p, word, if wide then 16 else 8);
    p.ClockIn(false);
    ReadFrame(Cell(wide, addr), AddrBits(wide), p.frame);
    p.Deselect();
  }

  // Four dummies, then 64 bits gathered most significant first.
  method TakeWord(p: Part, ghost bits: seq<bool>) returns (out: seq<byte>)
    requires p.Valid() && p.selected && !p.hostDrives && |bits| == 64
    requires p.out == [false, false, false, false] + bits && p.frame == []
    modifies p
    ensures p.Valid() && p.cells == old(p.cells) && |out| == 8 && WordBits(out) == bits
  {
    for i := 0 to 4
      invariant p.selected && !p.hostDrives && p.Valid() && p.cells == old(p.cells) && p.frame == []
      invariant p.out == ([false, false, false, false] + bits)[i..]
    {
      var dummy := p.ClockOut();
    }
    assert p.out == bits;
    out := [];
    for k := 0 to 8
      invariant p.selected && !p.hostDrives && p.Valid() && p.cells == old(p.cells) && p.frame == []
      invariant p.out == bits[8 * k..] && |out| == k && WordBits(out) == bits[..8 * k]
    {
      var b := TakeOctet(p, bits[8 * k..8 * k + 8]);
      out := out + [b];
      assert bits[..8 * k + 8] == bits[..8 * k] + bits[8 * k..8 * k + 8];
    }
    p.Deselect();
    p.hostDrives := true;
  }

  // Each bit is or-ed into a place that is still clear.
  method TakeOctet(p: Part, ghost bits: seq<bool>) returns (b: byte)
    requires p.selected && !p.hostDrives && |bits| == 8 <= |p.out| && p.out[..8] == bits
    modifies p`out
    ensures p.out == old(p.out)[8..] && BitsOf(b, 8) == bits
  {
    hide Number, Pow2, Shifted;
    var v: nat := 0;
    NothingYet(bits);
    for i := 0 to 8
      invariant p.out == old(p.out)[i..] && v == Shifted(bits, i)
    {
      var bit := p.ClockOut();
      assert bit == bits[i];
      OrBit(bits, i);
      if bit {
        v := v + Pow2(7 - i);
      }
    }
    Octets(bits);
    BitsOfNumber(bits);
    b := v;
  }

  // The first i bits in the top places of an octet.
  ghost function Shifted(bits: seq<bool>, i: nat): nat
    requires i <= 8 == |bits|
  {
    Number(bits[..i]) * Pow2(8 - i)
  }

  lemma NothingYet(bits: seq<bool>)
    requires |bits| == 8
    ensures Shifted(bits, 0) == 0
  {
    assert bits[..0] == [];
  }

  lemma Octets(bits: seq<bool>)
    requires |bits| == 8
    ensures Shifted(bits, 8) == Number(bits) < 256
  {
    assert bits[..8] == bits && Pow2(8) == 256 && Pow2(0) == 1;
  }

  lemma OrBit(bits: seq<bool>, i: nat)
    requires i < 8 == |bits|
    ensures Shifted(bits, i + 1) == Shifted(bits, i) + if bits[i] then Pow2(7 - i) else 0
  {
    var n, p, bit := Number(bits[..i]), Pow2(7 - i), if bits[i] then 1 else 0;
    assert bits[..i + 1][..i] == bits[..i];
    assert Number(bits[..i + 1]) == 2 * n + bit && Pow2(8 - i) == 2 * p;
    hide Number, Pow2;
    Doubled(n, bit, p);
  }

  lemma Doubled(n: nat, bit: nat, p: nat)
    requires bit < 2
    ensures (2 * n + bit) * p == n * (2 * p) + if bit == 1 then p else 0
  {
  }

  // Writing a word and reading the same masked address gives the same octets; every other word is
  // what it was.
  method RoundTrip(p: Part, addr: nat, data: seq<byte>, again: nat, selector: nat) returns (out: seq<byte>)
    requires p.Valid() && |data| == 8 && (selector == 2 <==> p.wide) && Cell(p.wide, again) == Cell(p.wide, addr)
    modifies p
    ensures p.Valid() && out == data
    ensures forall c :: 0 <= c < |p.cells| && c != Cell(p.wide, addr) ==> p.cells[c] == old(p.cells[c])
  {
    Write(p, addr, data, selector);
    out := Read(p, again, selector);
    WordBitsInjective(out, data);
  }
}
