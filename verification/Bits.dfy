/** Bitwise AND on naturals and the two facts about masks the firmware leans on because its core
    has no divide instruction. */
module Bits {
  function Pow2(k: nat): (p: nat)
    ensures p > 0
  {
    if k == 0 then 1 else 2 * Pow2(k - 1)
  }

  lemma {:induction false} Pow2Adds(a: nat, b: nat)
    ensures Pow2(a + b) == Pow2(a) * Pow2(b)
  {
    if a > 0 {
      Pow2Adds(a - 1, b);
      assert Pow2(a + b) == 2 * (Pow2(a - 1) * Pow2(b));
    }
  }

  lemma Word32()
    ensures Pow2(32) == 0x1_0000_0000
  {
    assert Pow2(4) == 16;
    Pow2Adds(4, 4);
    Pow2Adds(8, 8);
    Pow2Adds(16, 16);
  }

  function And(a: nat, b: nat): nat {
    if a == 0 || b == 0 then 0 else 2 * And(a / 2, b / 2) + (if a % 2 == 1 == b % 2 then 1 else 0)
  }

  lemma {:induction false} AndSelf(m: nat)
    ensures And(m, m) == m
  {
    if m != 0 {
      AndSelf(m / 2);
    }
  }

  // Clearing low bits with a mask is rounding down to a multiple of a power of two.
  lemma {:induction false} MaskRounds(a: nat, w: nat, k: nat)
    requires k <= w && a < Pow2(w)
    ensures Pow2(k) <= Pow2(w) && And(a, Pow2(w) - Pow2(k)) == a - a % Pow2(k)
    decreases w
  {
    if k == 0 {
      AllOnes(a, w);
    } else {
      MaskRounds(a / 2, w - 1, k - 1);
      HalfMod(a, Pow2(k - 1));
      if Pow2(w) == Pow2(k) {
        Small(a, Pow2(k));
      } else {
        AndTwice(a, Pow2(w - 1) - Pow2(k - 1));
      }
    }
  }

  lemma AndTwice(a: nat, h: nat)
    ensures And(a, 2 * h) == 2 * And(a / 2, h)
  {
  }

  lemma AndBelow(n: nat)
    requires n > 1
    ensures And(n, n - 1) == if n % 2 == 0 then 2 * And(n / 2, n / 2 - 1) else 2 * (n / 2)
  {
    if n % 2 == 0 {
      assert (n - 1) / 2 == n / 2 - 1;
    } else {
      assert (n - 1) / 2 == n / 2;
      AndSelf(n / 2);
    }
  }

  lemma Small(a: nat, m: nat)
    requires a < m
    ensures a % m == a
  {
  }

  lemma HalfMod(a: nat, m: nat)
    requires m > 0
    ensures a % (2 * m) == 2 * (a / 2 % m) + a % 2
  {
    var q, r := a / 2 / m, a / 2 % m;
    assert a / 2 == q * m + r;
    assert a == q * (2 * m) + (2 * r + a % 2) by {
      assert q * (2 * m) == 2 * (q * m);
    }
    ModIs(a, q, 2 * m, 2 * r + a % 2);
  }

  lemma ModIs(a: nat, q: nat, m: nat, r: nat)
    requires r < m && a == q * m + r
    ensures a % m == r && a / m == q
  {
    var d := a / m - q;
    assert d * m == r - a % m;
    assert d >= 1 ==> d * m >= m;
    assert d <= -1 ==> d * m + m <= 0;
  }

  lemma {:induction false} AllOnes(a: nat, w: nat)
    requires a < Pow2(w)
    ensures And(a, Pow2(w) - 1) == a
    decreases w
  {
    if w > 0 {
      AllOnes(a / 2, w - 1);
      assert (Pow2(w) - 1) / 2 == Pow2(w - 1) - 1;
    }
  }

  ghost predicate IsPow2(n: nat) {
    exists k: nat :: n == Pow2(k)
  }

  // The usual test for a power of two.
  lemma {:induction false} PowerTest(n: nat)
    requires n > 0
    ensures And(n, n - 1) == 0 <==> IsPow2(n)
  {
    if n == 1 {
      assert n == Pow2(0) && And(1, 0) == 0;
      return;
    }
    hide And;
    AndBelow(n);
    if n % 2 == 0 {
      PowerTest(n / 2);
      if IsPow2(n / 2) {
        var k: nat :| n / 2 == Pow2(k);
        assert n == Pow2(k + 1);
      }
      if IsPow2(n) {
        var k: nat :| n == Pow2(k);
        assert n / 2 == Pow2(k - 1);
      }
    } else {
      forall k: nat ensures n != Pow2(k) {
        assert k > 0 ==> Pow2(k) == 2 * Pow2(k - 1);
      }
    }
  }
}
