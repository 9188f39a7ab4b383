/** src/timebase.c: a millisecond clock from a free-running 24-bit down-counter, without a divide
    instruction.  At 32 cycles per microsecond it shifts and masks; at 40 it multiplies by a Q16
    reciprocal and corrects.  Both carry every cycle they do not yet report. */
module Timebase {
  const LAP := 0x100_0000          // BL_TIME_SYST_MAX + 1
  const LONG := 0x1_0000_0000
  const US_PER_MS := 1000          // BL_TIME_US_PER_MS
  const RECIP := 1638              // 0x10000 / 40, BL_TIME_US_RECIP and BL_TIME_US_BLOCK

  // What the digits say: milliseconds (not yet wrapped), microseconds, cycles.
  function Digits(perUs: nat, ms: nat, us: nat, cyc: nat): nat {
    perUs * (US_PER_MS * ms + us) + cyc
  }

  // The Q16 product is never above the quotient and at most one below it.
  lemma Reciprocal(e: nat)
    requires e < 0x1_0000
    ensures e * RECIP < LONG
    ensures var q := e * RECIP / 0x1_0000; 40 * q <= e < 40 * q + 80
  {
    var q, s := e * RECIP / 0x1_0000, e * RECIP % 0x1_0000;
    assert e * RECIP == 0x1_0000 * q + s;
    assert 0x1_0000 * (e - 40 * q) == 16 * e + 40 * s;
  }

  class Clock {
    const fast: bool     // Fsys is 40 MHz rather than 32
    var ms: nat          // tb_ms
    var us: nat          // tb_us
    var cyc: nat         // tb_cyc
    var last: nat        // tb_last
    ghost var whole: nat     // milliseconds before wrapping at 2^32
    ghost var counted: nat   // cycles accounted for since bl_time_init()

    function PerUs(): nat { if fast then 40 else 32 }

    // The three fields are the mixed-radix digits of the cycles counted.
    ghost predicate Valid()
      reads this
    {
      && last < LAP && us < US_PER_MS && cyc < PerUs()
      && counted == Digits(PerUs(), whole, us, cyc) && ms == whole % LONG
    }

    // bl_time_init(), with the counter at the value it had then.
    constructor (fast: bool, start: nat)
      requires start < LAP
      ensures Valid() && counted == 0 && this.fast == fast && last == start && ms == 0
    {
      this.fast, last := fast, start;
      ms, us, cyc, whole, counted := 0, 0, 0, 0, 0;
    }

    // SYST_CVR after so many more cycles.
    function Cvr(cycles: nat): (now: nat)
      reads this
      ensures now < LAP
    {
      (last - cycles) % LAP
    }

    // bl_time_ms(), cycles after the previous call.  Whole laps of the counter go unseen and nothing
    // else does: the clock is exact exactly as long as calls are less than a lap apart.
    method TimeMs(cycles: nat) returns (now: nat)
      requires Valid()
      modifies this
      ensures Valid() && now == ms && last == old(Cvr(cycles))
      ensures counted == old(counted) + cycles % LAP
      ensures counted == old(counted) + cycles <==> cycles < LAP
    {
      var sample := Cvr(cycles);
      var elapsed := (last - sample) % LAP;
      Elapsed(last, cycles);
      last := sample;
      counted := counted + elapsed;
      elapsed := elapsed + cyc;
      assert elapsed < LONG;
      var micro;
      if fast {
        micro := Divide40(elapsed);
      } else {
        cyc := elapsed % 32;
        micro := elapsed / 32 + us;
      }
      assert counted == Digits(PerUs(), whole, micro, cyc);
      Carry(micro);
      now := ms;
    }

    static lemma Elapsed(last: nat, cycles: nat)
      requires last < LAP
      ensures (last - (last - cycles) % LAP) % LAP == cycles % LAP
    {
    }

    // The reciprocal path: peel blocks that would not fit the multiply, then one product and at
    // most one correction.
    method Divide40(n: nat) returns (micro: nat)
      requires n < LAP + 40
      modifies `cyc
      ensures cyc < 40 && 40 * micro + cyc == 40 * us + n
    {
      micro := us;
      var elapsed: nat := n;
      while elapsed >= 0x1_0000
        invariant 40 * micro + elapsed == 40 * us + n
      {
        micro := micro + RECIP;
        elapsed := elapsed - RECIP * 40;
      }
      Reciprocal(elapsed);
      var q: nat := elapsed * RECIP / 0x1_0000;
      var r: nat := elapsed - q * 40;
      ghost var corrections := 0;
      while r >= 40
        invariant corrections <= 1 && 40 * q + r == elapsed && r < 80 - 40 * corrections
      {
        q := q + 1;
        r := r - 40;
        corrections := corrections + 1;
      }
      cyc := r;
      micro := micro + q;
    }

    // Whole milliseconds out of the microseconds, wrapping at 2^32.
    method Carry(micro: nat)
      modifies `ms, `us, `whole
      requires ms == whole % LONG
      ensures us < US_PER_MS && ms == whole % LONG
      ensures US_PER_MS * whole + us == US_PER_MS * old(whole) + micro
    {
      var left: nat, m: nat := micro, ms;
      while left >= US_PER_MS
        invariant US_PER_MS * whole + left == US_PER_MS * old(whole) + micro && m == whole % LONG
        modifies `whole
      {
        left := left - US_PER_MS;
        m := (m + 1) % LONG;
        whole := whole + 1;
      }
      ms, us := m, left;
    }
  }

  // Two clocks that have counted the same cycles agree, however the calls were spaced.
  lemma DigitsUnique(perUs: nat, m1: nat, u1: nat, c1: nat, m2: nat, u2: nat, c2: nat)
    requires perUs == 32 || perUs == 40
    requires u1 < US_PER_MS && u2 < US_PER_MS && c1 < perUs && c2 < perUs
    requires Digits(perUs, m1, u1, c1) == Digits(perUs, m2, u2, c2)
    ensures m1 == m2 && u1 == u2 && c1 == c2
  {
  }

  // Any run of calls: the milliseconds reported are the elapsed cycles divided down, modulo 2^32,
  // if no gap reached a lap.
  method Run(fast: bool, start: nat, gaps: seq<nat>) returns (ms: nat)
    requires start < LAP && forall i :: 0 <= i < |gaps| ==> gaps[i] < LAP
    ensures ms == Sum(gaps) / (if fast then 40_000 else 32_000) % LONG
  {
    var c := new Clock(fast, start);
    ms := 0;
    for i := 0 to |gaps|
      invariant fresh(c) && c.Valid() && c.fast == fast && c.counted == Sum(gaps[..i]) && ms == c.ms
    {
      assert gaps[..i + 1][..i] == gaps[..i];
      ms := c.TimeMs(gaps[i]);
    }
    assert gaps[..|gaps|] == gaps;
    if fast { Whole40(c.whole, c.us, c.cyc); } else { Whole32(c.whole, c.us, c.cyc); }
  }

  function Sum(s: seq<nat>): nat { if s == [] then 0 else Sum(s[..|s| - 1]) + s[|s| - 1] }

  lemma Whole40(ms: nat, us: nat, cyc: nat)
    requires us < US_PER_MS && cyc < 40
    ensures Digits(40, ms, us, cyc) / 40_000 == ms
  {
  }

  lemma Whole32(ms: nat, us: nat, cyc: nat)
    requires us < US_PER_MS && cyc < 32
    ensures Digits(32, ms, us, cyc) / 32_000 == ms
  {
  }
}
