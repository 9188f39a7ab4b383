/** CALC_CRC32: four bytes per table pass against one byte per pass against the bit-at-a-time
    definition of section 8 of RFC 1952, and the walk over the cartridge in reply-sized pieces. */
module Crc {
  import opened Bytes
  import opened Bits
  import A = AgbRead
  import P = Publishing

  const POLY := 0xEDB8_8320
  const WORD := 0x1_0000_0000

  function Xor(a: nat, b: nat): nat {
    if a == 0 && b == 0 then 0 else 2 * Xor(a / 2, b / 2) + (a % 2 + b % 2) % 2
  }

  lemma XorStep(a: nat, b: nat)
    ensures Xor(a, b) / 2 == Xor(a / 2, b / 2) && Xor(a, b) % 2 == (a % 2 + b % 2) % 2
  {
  }

  lemma {:induction false} XorZero(a: nat)
    ensures Xor(a, 0) == a && Xor(0, a) == a
  {
    if a > 0 {
      XorZero(a / 2);
    }
  }

  lemma {:induction false} XorSelf(a: nat)
    ensures Xor(a, a) == 0
  {
    if a > 0 {
      XorSelf(a / 2);
    }
  }

  lemma {:induction false} XorComm(a: nat, b: nat)
    ensures Xor(a, b) == Xor(b, a)
    decreases a + b
  {
    if a > 0 || b > 0 {
      XorComm(a / 2, b / 2);
    }
  }

  lemma {:induction false} XorAssoc(a: nat, b: nat, c: nat)
    ensures Xor(Xor(a, b), c) == Xor(a, Xor(b, c))
    decreases a + b + c
  {
    if a > 0 || b > 0 || c > 0 {
      XorHalves(a, b, c);
      XorParity(a, b, c);
      XorAssoc(a / 2, b / 2, c / 2);
      SameHalves(Xor(Xor(a, b), c), Xor(a, Xor(b, c)));
    }
  }

  lemma XorHalves(a: nat, b: nat, c: nat)
    ensures Xor(Xor(a, b), c) / 2 == Xor(Xor(a / 2, b / 2), c / 2)
    ensures Xor(a, Xor(b, c)) / 2 == Xor(a / 2, Xor(b / 2, c / 2))
  {
    hide Xor;
    XorStep(a, b);
    XorStep(b, c);
    XorStep(Xor(a, b), c);
    XorStep(a, Xor(b, c));
  }

  lemma XorParity(a: nat, b: nat, c: nat)
    ensures Xor(Xor(a, b), c) % 2 == Xor(a, Xor(b, c)) % 2
  {
    hide Xor;
    XorStep(a, b);
    XorStep(b, c);
    XorStep(Xor(a, b), c);
    XorStep(a, Xor(b, c));
    Parity(a % 2, b % 2, c % 2);
  }

  lemma SameHalves(x: nat, y: nat)
    requires x / 2 == y / 2 && x % 2 == y % 2
    ensures x == y
  {
  }

  lemma Parity(x: nat, y: nat, z: nat)
    ensures ((x + y) % 2 + z) % 2 == (x + (y + z) % 2) % 2
  {
  }

  // (a + b) + (c + d) with the middle two exchanged.
  lemma XorSwap(a: nat, b: nat, c: nat, d: nat)
    ensures Xor(Xor(a, b), Xor(c, d)) == Xor(Xor(a, c), Xor(b, d))
  {
    XorAssoc(a, b, Xor(c, d));
    XorAssoc(b, c, d);
    XorComm(b, c);
    XorAssoc(c, b, d);
    XorAssoc(a, c, Xor(b, d));
  }

  lemma {:induction false} XorBound(a: nat, b: nat, n: nat)
    requires a < Pow2(n) && b < Pow2(n)
    ensures Xor(a, b) < Pow2(n)
  {
    if n > 0 {
      XorBound(a / 2, b / 2, n - 1);
    }
  }

  lemma XorEven(lo: nat, h: nat)
    requires Xor(lo / 2, h) == lo / 2 + h
    ensures Xor(lo, 2 * h) == lo + 2 * h
  {
    hide Xor;
    XorStep(lo, 2 * h);
    Doubled(lo, h);
    SameHalves(Xor(lo, 2 * h), lo + 2 * h);
  }

  lemma Doubled(lo: nat, h: nat)
    ensures 2 * h / 2 == h && 2 * h % 2 == 0
    ensures (lo + 2 * h) / 2 == lo / 2 + h && (lo + 2 * h) % 2 == lo % 2 == (lo % 2 + 0) % 2
  {
  }

  lemma {:induction false} XorDisjoint(lo: nat, hi: nat, k: nat)
    requires lo < Pow2(k)
    ensures Xor(lo, hi * Pow2(k)) == lo + hi * Pow2(k)
  {
    if k == 0 {
      XorZero(hi);
    } else {
      hide Xor;
      var h := hi * Pow2(k - 1);
      assert hi * Pow2(k) == 2 * h;
      XorDisjoint(lo / 2, hi, k - 1);
      XorEven(lo, h);
    }
  }

  // ------------------------------------------------------------------ the definition

  // One bit, reflected.
  function Tick(c: nat): nat {
    Xor(c / 2, if c % 2 == 1 then POLY else 0)
  }

  // x^32 + x^26 + x^23 + x^22 + x^16 + x^12 + x^11 + x^10 + x^8 + x^7 + x^5 + x^4 + x^2 + x + 1, the
  // leading term left out.
  function Coefficient(e: nat): nat {
    match e
    case 0 => 1 case 1 => 1 case 2 => 1 case 4 => 1 case 5 => 1 case 7 => 1 case 8 => 1 case 10 => 1
    case 11 => 1 case 12 => 1 case 16 => 1 case 22 => 1 case 23 => 1 case 26 => 1
    case _ => 0
  }

  // The coefficients below x^n, the lowest in the highest bit.
  function Reflected(n: nat): nat {
    if n == 0 then 0 else 2 * Reflected(n - 1) + Coefficient(n - 1)
  }

  lemma FourMore(n: nat)
    ensures Reflected(n + 4) == 16 * Reflected(n) + 8 * Coefficient(n) + 4 * Coefficient(n + 1)
                                + 2 * Coefficient(n + 2) + Coefficient(n + 3)
  {
    hide Coefficient;
    assert Reflected(n + 2) == 4 * Reflected(n) + 2 * Coefficient(n) + Coefficient(n + 1);
    assert Reflected(n + 4) == 4 * Reflected(n + 2) + 2 * Coefficient(n + 2) + Coefficient(n + 3);
  }

  lemma PolyLow()
    ensures Reflected(16) == 0xEDB8
  {
    assert Reflected(0) == 0;
    hide Reflected;
    FourMore(0);
    FourMore(4);
    FourMore(8);
    FourMore(12);
  }

  lemma PolyIs()
    ensures Reflected(32) == POLY
  {
    hide Reflected;
    PolyLow();
    FourMore(16);
    FourMore(20);
    FourMore(24);
    FourMore(28);
  }

  // Row 128 of the table is the polynomial itself.
  lemma PolyInTable()
    ensures Tab0(128) == 0xEDB8_8320
  {
    assert 128 == 1 * Pow2(7);
    ClockShift(1, 7);
    ClockAdd(128, 7, 1);
    XorZero(POLY);
    assert Clock(1, 1) == Tick(1) == Xor(0, POLY);
  }

  function Clock(c: nat, k: nat): nat
    decreases k
  {
    if k == 0 then c else Clock(Tick(c), k - 1)
  }

  // The register after one more octet, and after all of them.
  function Octet(c: nat, b: byte): nat { Clock(Xor(c, b), 8) }

  function Sum(c: nat, s: seq<byte>): nat {
    if s == [] then c else Octet(Sum(c, s[..|s| - 1]), s[|s| - 1])
  }

  lemma {:induction false} SumJoins(c: nat, s: seq<byte>, t: seq<byte>)
    ensures Sum(c, s + t) == Sum(Sum(c, s), t)
  {
    hide Octet;
    if t == [] {
      assert s + t == s;
    } else {
      SumJoins(c, s, t[..|t| - 1]);
      assert (s + t)[..|s + t| - 1] == s + t[..|t| - 1];
    }
  }

  // ------------------------------------------------------------------ it is linear

  lemma TickLinear(a: nat, b: nat)
    ensures Tick(Xor(a, b)) == Xor(Tick(a), Tick(b))
  {
    hide Xor;
    var p, q := if a % 2 == 1 then POLY else 0, if b % 2 == 1 then POLY else 0;
    XorStep(a, b);
    XorSwap(a / 2, p, b / 2, q);
    XorSelf(POLY);
    XorZero(POLY);
    XorZero(0);
    assert (a % 2 + b % 2) % 2 == 1 <==> a % 2 != b % 2;
  }

  lemma {:induction false} ClockLinear(a: nat, b: nat, k: nat)
    ensures Clock(Xor(a, b), k) == Xor(Clock(a, k), Clock(b, k))
    decreases k
  {
    if k > 0 {
      TickLinear(a, b);
      ClockLinear(Tick(a), Tick(b), k - 1);
    }
  }

  lemma {:induction false} ClockAdd(c: nat, j: nat, k: nat)
    ensures Clock(Clock(c, j), k) == Clock(c, j + k)
    decreases j
  {
    if j > 0 {
      ClockAdd(Tick(c), j - 1, k);
    }
  }

  // Bits that have not come up yet only move down.
  lemma {:induction false} ClockShift(x: nat, k: nat)
    ensures Clock(x * Pow2(k), k) == x
  {
    hide Xor;
    if k > 0 {
      var y := x * Pow2(k - 1);
      assert x * Pow2(k) == 2 * y;
      XorZero(y);
      ClockShift(x, k - 1);
    }
  }

  lemma ClockSplit(lo: nat, hi: nat, k: nat)
    requires lo < Pow2(k)
    ensures Clock(lo + hi * Pow2(k), k) == Xor(Clock(lo, k), hi)
  {
    hide *;
    XorDisjoint(lo, hi, k);
    ClockLinear(lo, hi * Pow2(k), k);
    ClockShift(hi, k);
  }

  lemma {:induction false} ClockBound(c: nat, k: nat)
    requires c < WORD
    ensures Clock(c, k) < WORD
    decreases k
  {
    if k > 0 {
      Word32();
      XorBound(c / 2, if c % 2 == 1 then POLY else 0, 32);
      ClockBound(Tick(c), k - 1);
    }
  }

  lemma {:induction false} SumBound(c: nat, s: seq<byte>)
    requires c < WORD
    ensures Sum(c, s) < WORD
  {
    if s != [] {
      var d := Sum(c, s[..|s| - 1]);
      SumBound(c, s[..|s| - 1]);
      Word32();
      XorBound(d, s[|s| - 1], 32);
      ClockBound(Xor(d, s[|s| - 1]), 8);
    }
  }

  // ------------------------------------------------------------------ the tables

  // crc32_tab[i]
  function Tab0(i: nat): nat { Clock(i, 8) }

  // crc32_tab1 to crc32_tab3, each from the one before as the source has it.
  function Next(t: nat): nat { Xor(t / 0x100, Tab0(t % 0x100)) }
  function Tab1(i: nat): nat { Next(Tab0(i)) }
  function Tab2(i: nat): nat { Next(Tab1(i)) }
  function Tab3(i: nat): nat { Next(Tab2(i)) }

  lemma NextIsEight(t: nat)
    ensures Next(t) == Clock(t, 8)
  {
    hide Clock, Xor;
    assert Pow2(8) == 0x100;
    ClockSplit(t % 0x100, t / 0x100, 8);
    XorComm(t / 0x100, Tab0(t % 0x100));
  }

  lemma TablesAre(i: nat)
    ensures Tab1(i) == Clock(i, 16) && Tab2(i) == Clock(i, 24) && Tab3(i) == Clock(i, 32)
  {
    hide Clock, Xor, Next;
    NextIsEight(Tab0(i));
    ClockAdd(i, 8, 8);
    NextIsEight(Tab1(i));
    ClockAdd(i, 16, 8);
    NextIsEight(Tab2(i));
    ClockAdd(i, 24, 8);
  }

  // crc32_tab[(crc ^ b) & 0xFF] ^ (crc >> 8)
  function TableStep(c: nat, b: byte): nat { Xor(Tab0(Xor(c, b) % 0x100), c / 0x100) }

  lemma TableStepIsOctet(c: nat, b: byte)
    ensures TableStep(c, b) == Octet(c, b)
  {
    hide Clock, Xor;
    var x := Xor(c, b);
    assert Pow2(8) == 0x100;
    HighKept(c, b);
    ClockSplit(x % 0x100, x / 0x100, 8);
  }

  lemma HighKept(c: nat, b: byte)
    ensures Xor(c, b) / 0x100 == c / 0x100
  {
    hide Xor;
    var lo, hi := c % 0x100, c / 0x100;
    assert Pow2(8) == 0x100;
    XorDisjoint(lo, hi, 8);
    XorBound(lo, b, 8);
    XorAssoc(hi * 0x100, lo, b);
    XorComm(hi * 0x100, lo);
    XorDisjoint(Xor(lo, b), hi, 8);
    XorComm(hi * 0x100, Xor(lo, b));
  }

  // A little-endian word.
  function Le32(b0: byte, b1: byte, b2: byte, b3: byte): nat {
    b0 + b1 * 0x100 + b2 * 0x1_0000 + b3 * 0x100_0000
  }

  // Four lookups, one per octet of c.
  function Slice(c: nat): nat {
    Xor(Xor(Tab3(c % 0x100), Tab2(c / 0x100 % 0x100)), Xor(Tab1(c / 0x1_0000 % 0x100), Tab0(c / 0x100_0000)))
  }

  // One more octet of a word clocked in whole.
  lemma FeedOctet(c: nat, b: byte, rest: nat, k: nat)
    ensures Clock(Xor(c, b + rest * 0x100), 8 + k) == Clock(Xor(Octet(c, b), rest), k)
  {
    hide Clock, Xor;
    assert Pow2(8) == 0x100;
    XorDisjoint(b, rest, 8);
    XorAssoc(c, b, rest * 0x100);
    ClockAdd(Xor(c, b + rest * 0x100), 8, k);
    ClockLinear(Xor(c, b), rest * 0x100, 8);
    ClockShift(rest, 8);
  }

  lemma FourOctets(c: nat, b0: byte, b1: byte, b2: byte, b3: byte)
    ensures Clock(Xor(c, Le32(b0, b1, b2, b3)), 32) == Octet(Octet(Octet(Octet(c, b0), b1), b2), b3)
  {
    hide Clock, Xor, Octet;
    var r1 := b1 + (b2 + b3 * 0x100) * 0x100;
    assert Le32(b0, b1, b2, b3) == b0 + r1 * 0x100;
    var c0 := Octet(c, b0);
    FeedOctet(c, b0, r1, 24);
    var c1 := Octet(c0, b1);
    FeedOctet(c0, b1, b2 + b3 * 0x100, 16);
    var c2 := Octet(c1, b2);
    FeedOctet(c1, b2, b3, 8);
    var c3 := Octet(c2, b3);
    FeedOctet(c2, b3, 0, 0);
    XorZero(c3);
    ClockNone(c3);
  }

  lemma ClockNone(c: nat)
    ensures Clock(c, 0) == c
  {
  }

  lemma LowOctet(c: nat, k: nat)
    ensures Clock(c, 8 + k) == Xor(Clock(c % 0x100, 8 + k), Clock(c / 0x100, k))
  {
    hide Clock, Xor;
    var lo, hi := c % 0x100, c / 0x100;
    assert Pow2(8) == 0x100;
    ClockSplit(lo, hi, 8);
    ClockAdd(c, 8, k);
    ClockLinear(Clock(lo, 8), hi, k);
    ClockAdd(lo, 8, k);
  }

  lemma SliceIsClock(c: nat)
    requires c < WORD
    ensures Slice(c) == Clock(c, 32)
  {
    hide Clock, Xor, Tab1, Tab2, Tab3;
    var d, e, f := c / 0x100, c / 0x1_0000, c / 0x100_0000;
    assert d / 0x100 == e && e / 0x100 == f && f % 0x100 == f && f / 0x100 == 0;
    LowOctet(c, 24);
    LowOctet(d, 16);
    LowOctet(e, 8);
    TablesAre(c % 0x100);
    TablesAre(d % 0x100);
    TablesAre(e % 0x100);
    XorAssoc(Clock(c % 0x100, 32), Clock(d % 0x100, 24), Xor(Clock(e % 0x100, 16), Clock(f, 8)));
  }

  // Four bytes per pass give what one byte per pass, and one bit per pass, give.
  lemma SliceIsSum(c: nat, b0: byte, b1: byte, b2: byte, b3: byte)
    requires c < WORD
    ensures Slice(Xor(c, Le32(b0, b1, b2, b3))) == Sum(c, [b0, b1, b2, b3])
  {
    hide Clock, Xor, Octet, Slice;
    Word32();
    XorBound(c, Le32(b0, b1, b2, b3), 32);
    SliceIsClock(Xor(c, Le32(b0, b1, b2, b3)));
    FourOctets(c, b0, b1, b2, b3);
    SumFour(c, b0, b1, b2, b3);
  }

  lemma SumFour(c: nat, b0: byte, b1: byte, b2: byte, b3: byte)
    ensures Sum(c, [b0, b1, b2, b3]) == Octet(Octet(Octet(Octet(c, b0), b1), b2), b3)
  {
    hide Octet, Sum;
    assert [b0, b1, b2, b3] == [] + [b0] + [b1] + [b2] + [b3];
    SumNone(c);
    SumSnoc(c, [], b0);
    SumSnoc(c, [] + [b0], b1);
    SumSnoc(c, [] + [b0] + [b1], b2);
    SumSnoc(c, [] + [b0] + [b1] + [b2], b3);
  }

  lemma SumSnoc(c: nat, s: seq<byte>, b: byte)
    ensures Sum(c, s + [b]) == Octet(Sum(c, s), b)
  {
    assert (s + [b])[..|s|] == s;
  }

  // crc32_step() with FW_CRC32_SLICE4: whole words where the pointer allows them, bytes elsewhere.
  method Step(crc: nat, data: array<byte>, n: nat, aligned: bool) returns (c: nat)
    requires crc < WORD && n <= data.Length
    ensures c == Sum(crc, data[..n]) && c < WORD
  {
    hide Slice, Xor, Octet;
    c := crc;
    var i: nat := 0;
    assert data[..0] == [];
    if aligned {
      while n - i >= 4
        invariant i <= n && c < WORD && c == Sum(crc, data[..i])
      {
        ghost var was, next := data[..i], [data[i], data[i + 1], data[i + 2], data[i + 3]];
        SliceIsSum(c, data[i], data[i + 1], data[i + 2], data[i + 3]);
        SumJoins(crc, was, next);
        assert data[..i + 4] == was + next;
        c := Slice(Xor(c, Le32(data[i], data[i + 1], data[i + 2], data[i + 3])));
        i := i + 4;
        SumBound(crc, data[..i]);
      }
    }
    while i < n
      invariant i <= n && c < WORD && c == Sum(crc, data[..i])
    {
      TableStepIsOctet(c, data[i]);
      assert data[..i + 1][..i] == data[..i];
      c := TableStep(c, data[i]);
      i := i + 1;
      SumBound(crc, data[..i]);
    }
  }

  // The sum of section 8 of RFC 1952.
  function Crc32(s: seq<byte>): nat { Xor(Sum(WORD - 1, s), WORD - 1) }

  // Published sums: of nothing, and of four octets of ones.
  lemma KnownSums()
    ensures Crc32([]) == 0 && Crc32([0xFF, 0xFF, 0xFF, 0xFF]) == 0xFFFF_FFFF
  {
    hide Xor, Slice, Octet;
    var ones: nat := WORD - 1;
    assert Le32(0xFF, 0xFF, 0xFF, 0xFF) == ones;
    SliceIsSum(ones, 0xFF, 0xFF, 0xFF, 0xFF);
    XorSelf(ones);
    SliceIsClock(0);
    ClockShift(0, 32);
    XorZero(ones);
    hide Sum;
    SumNone(ones);
  }

  // do_crc32() in AGB mode: Stream reads through g_reply, however long the region.
  method CartCrc(r: A.Reader, len: nat, aligned: bool) returns (crc: nat)
    requires r.Valid()
    modifies r.bus, r.reply
    ensures r.Valid() && r.address == old(r.address)
    ensures len % 2 == 0 ==> crc == Crc32(A.RomBytes(r.bus.rom, r.address, len / 2))
    ensures len % 2 == 1 ==>
              exists stale: byte :: crc == Crc32(A.RomBytes(r.bus.rom, r.address, len / 2) + [stale])
  {
    hide Xor, Sum, A.RomBytes;
    var left: nat, addr: nat := len, r.address;
    ghost var done: nat, seen: seq<byte> := 0, [];
    crc := WORD - 1;
    SumNone(WORD - 1);
    A.RomNone(r.bus.rom, r.address);
    while left != 0
      invariant r.Valid() && done + left == len && crc < WORD && crc == Sum(WORD - 1, seen)
      invariant left > 0 ==> done % 2 == 0
      invariant addr == (r.address + done / 2) % A.LONG
      invariant done % 2 == 0 ==> seen == A.RomBytes(r.bus.rom, r.address, done / 2)
      invariant done % 2 == 1 ==>
                  exists stale: byte :: seen == A.RomBytes(r.bus.rom, r.address, done / 2) + [stale]
      decreases left
    {
      var want := if left > A.REPLY then A.REPLY else left;
      ghost var before := seen;
      Piece(r, addr, want);
      seen := seen + r.reply[..want];
      Joined(r.bus.rom, r.address, done, want);
      Laid(r.reply[..want], A.RomBytes(r.bus.rom, addr, want / 2), before);
      SumJoins(WORD - 1, before, r.reply[..want]);
      crc := Step(crc, r.reply, want, aligned);
      addr := (addr + want / 2) % A.LONG;
      left := left - want;
      done := done + want;
    }
    crc := Xor(crc, WORD - 1);
  }

  // do_crc32() in DMG mode: a byte per address, so every length is exact.
  method DmgCrc(m: P.Memory, address: nat, len: nat, reply: array<byte>, aligned: bool) returns (crc: nat)
    requires address < A.LONG && reply.Length == A.REPLY
    modifies reply
    ensures crc == Crc32(P.From(m, address, len))
  {
    hide Xor, Sum, P.From;
    var left: nat, addr: nat := len, address;
    ghost var done: nat := 0;
    crc := WORD - 1;
    SumNone(WORD - 1);
    FromNone(m, address);
    while left != 0
      invariant done + left == len && crc < WORD && crc == Sum(WORD - 1, P.From(m, address, done))
      invariant addr == (address + done) % A.LONG
      decreases left
    {
      var want := if left > A.REPLY then A.REPLY else left;
      DmgPiece(m, addr, want, reply);
      P.FromJoins(m, address, done, want);
      SumJoins(WORD - 1, P.From(m, address, done), reply[..want]);
      crc := Step(crc, reply, want, aligned);
      A.NextAddress(address, done, want);
      addr := (addr + want) % A.LONG;
      left := left - want;
      done := done + want;
    }
    crc := Xor(crc, WORD - 1);
  }

  lemma FromNone(m: P.Memory, address: nat)
    ensures P.From(m, address, 0) == []
  {
  }

  // fw_cart_dmg_read() into g_reply.
  method DmgPiece(m: P.Memory, addr: nat, want: nat, reply: array<byte>)
    requires want <= reply.Length
    modifies reply
    ensures reply[..want] == P.From(m, addr, want)
  {
    for i := 0 to want
      invariant reply[..i] == P.From(m, addr, i)
    {
      reply[i] := m((addr + i) % A.LONG);
      assert reply[..i + 1] == reply[..i] + [reply[i]];
    }
  }

  lemma Joined(rom: A.Rom, hwaddr: nat, done: nat, want: nat)
    requires done % 2 == 0
    ensures A.RomBytes(rom, hwaddr, done / 2) + A.RomBytes(rom, (hwaddr + done / 2) % A.LONG, want / 2)
            == A.RomBytes(rom, hwaddr, (done + want) / 2)
    ensures ((hwaddr + done / 2) % A.LONG + want / 2) % A.LONG == (hwaddr + (done + want) / 2) % A.LONG
  {
    hide A.RomBytes;
    var o, n := done / 2, want / 2;
    assert (done + want) / 2 == o + n;
    A.NextAddress(hwaddr, o, n);
    A.RomWraps(rom, hwaddr + o, n);
    A.RomJoins(rom, hwaddr, o, n);
  }

  lemma Laid(piece: seq<byte>, words: seq<byte>, before: seq<byte>)
    requires |piece| / 2 * 2 == |words| && piece[..|words|] == words
    ensures |piece| % 2 == 0 ==> before + piece == before + words
    ensures |piece| % 2 == 1 ==> before + piece == before + words + [piece[|piece| - 1]]
  {
    if |piece| % 2 == 0 {
      assert piece == words;
    } else {
      assert piece == words + [piece[|piece| - 1]];
    }
  }

  lemma SumNone(c: nat)
    ensures Sum(c, []) == c
  {
  }

  // One reply's worth; an odd last byte is whatever g_reply held.
  method Piece(r: A.Reader, addr: nat, want: nat)
    requires r.Valid() && addr < A.LONG && 0 < want <= A.REPLY
    modifies r.bus, r.reply
    ensures r.Valid() && r.reply[..want / 2 * 2] == A.RomBytes(r.bus.rom, addr, want / 2)
  {
    hide A.RomBytes;
    ghost var was := r.reply[..];
    A.ReadLeaf(r.bus, addr, r.reply, 0, want / 2, r.cartLatch / 2);
    assert r.reply[..want / 2 * 2] == r.reply[..][..want / 2 * 2];
  }
}
