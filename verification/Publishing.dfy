/** The other reads that publish while they fill g_reply (src/main.c): DMG ROM, AGB save memory and
    the 3D memory page.  Each fills the reply and publishes only bytes already written; the lemmas
    say exactly when all its marks keep the discipline of the pipelined transmitter. */
module Publishing {
  import opened Bytes
  import A = AgbRead
  import Q = TxQueue

  type Memory = nat -> byte      // what the bus answers at an address

  const GRAIN := 256             // FW_DMG_PUB_GRAIN

  // n bytes from an address on; addresses are 32 bits wide.
  function From(m: Memory, address: nat, n: nat): (s: seq<byte>)
    ensures |s| == n
  {
    if n == 0 then [] else From(m, address, n - 1) + [m((address + n - 1) % A.LONG)]
  }

  // Byte i is what the bus answers i addresses on.
  lemma {:induction false} FromAt(m: Memory, address: nat, n: nat, i: nat)
    requires i < n
    ensures From(m, address, n)[i] == m((address + i) % A.LONG)
  {
    if i < n - 1 {
      FromAt(m, address, n - 1, i);
    }
  }

  lemma {:induction false} FromJoins(m: Memory, address: nat, i: nat, j: nat)
    ensures From(m, address, i) + From(m, (address + i) % A.LONG, j) == From(m, address, i + j)
  {
    var from := (address + i) % A.LONG;
    if j == 0 {
      assert From(m, from, 0) == [];
    } else {
      hide From;
      FromJoins(m, address, i, j - 1);
      A.NextAddress(address, i, j - 1);
      FromSnoc(m, from, j - 1);
      FromSnoc(m, address, i + (j - 1));
      var last := [m((address + (i + (j - 1))) % A.LONG)];
      assert From(m, address, i) + (From(m, from, j - 1) + last) == (From(m, address, i) + From(m, from, j - 1)) + last;
    }
  }

  lemma FromSnoc(m: Memory, address: nat, n: nat)
    ensures From(m, address, n + 1) == From(m, address, n) + [m((address + n) % A.LONG)]
  {
  }

  // Where the fills stand between two steps.
  ghost predicate Reached(step: nat, len: nat, off: nat) {
    off <= len && (off == 0 || off == len || (step <= off && (step % Q.PKT == 0 ==> off % Q.PKT == 0)))
  }

  lemma NextReached(step: nat, len: nat, off: nat)
    requires Reached(step, len, off) && off < len && step > 0
    ensures Reached(step, len, off + Min(step, len - off))
  {
  }

  // The marks so far are all fit, or the one at the end of the first step already is not.
  ghost predicate Told(marks: seq<nat>, step: nat, len: nat, off: nat) {
    if A.FitPer(step, len) then A.AllFit(marks, len) else off > 0 ==> step in marks && step < len
  }

  // Marks inside one step are whole grains, and its end is marked last.
  ghost predicate Grained(marks: seq<nat>, off: nat, want: nat) {
    forall m :: m in marks ==> Grain(m, off, want)
  }

  ghost predicate Grain(m: nat, off: nat, want: nat) {
    m == off + want || (m >= off && (m - off) % GRAIN == 0)
  }

  lemma ToldMore(marks: seq<nat>, more: seq<nat>, step: nat, len: nat, off: nat, want: nat)
    requires Told(marks, step, len, off) && Grained(more, off, want) && off + want in more
    requires Reached(step, len, off) && off < len && step > 0 && want == Min(step, len - off)
    ensures Told(marks + more, step, len, off + want)
  {
    hide Reached, Grain, A.Fit, A.FitPer;
    if A.FitPer(step, len) {
      forall m | m in more ensures A.Fit(m, len) {
        GrainFits(m, step, len, off, want);
      }
    } else {
      FirstStep(step, len, off, want);
    }
  }

  lemma EndMark(off: nat, want: nat)
    ensures Grained([off + want], off, want)
  {
  }

  lemma EndsGrained(more: seq<nat>, off: nat, want: nat)
    requires Grained(more, off, want)
    ensures Grained(more + [off + want], off, want)
  {
  }

  lemma Begun(step: nat, len: nat)
    ensures Reached(step, len, 0) && Told([], step, len, 0)
  {
  }

  lemma FirstStep(step: nat, len: nat, off: nat, want: nat)
    requires !A.FitPer(step, len) && Reached(step, len, off) && off < len && want == Min(step, len - off)
    ensures step < len && (off == 0 ==> want == step)
  {
  }

  lemma GrainFits(m: nat, step: nat, len: nat, off: nat, want: nat)
    requires Grain(m, off, want) && A.FitPer(step, len)
    requires Reached(step, len, off) && off < len && step > 0 && want == Min(step, len - off)
    ensures A.Fit(m, len)
  {
    if off + want < len {
      PacketsAdd(off, want);
    }
    if m != off + want {
      var q := (m - off) / GRAIN;
      assert m - off == Q.PKT * (4 * q);
      assert (m - off) % Q.PKT == 0;
      PacketsAdd(off, m - off);
    }
  }

  lemma PacketsAdd(a: nat, b: nat)
    requires a % Q.PKT == 0 && b % Q.PKT == 0
    ensures (a + b) % Q.PKT == 0
  {
    var i, j := a / Q.PKT, b / Q.PKT;
    assert a + b == Q.PKT * (i + j);
    Packets(i + j);
  }

  lemma Packets(k: nat)
    ensures Q.PKT * k % Q.PKT == 0
  {
  }

  lemma ToldAll(marks: seq<nat>, step: nat, len: nat)
    requires Told(marks, step, len, len) && step > 0
    ensures A.AllFit(marks, len) <==> A.FitPer(step, len)
  {
    if !A.FitPer(step, len) && len > 0 {
      assert step in marks && !A.Fit(step, len);
    }
  }

  function Last(marks: seq<nat>): nat {
    if marks == [] then 0 else marks[|marks| - 1]
  }

  // From the start on, no mark falls behind the one before or runs more than gap ahead of it.
  predicate Steady(marks: seq<nat>, gap: nat) {
    marks == []
    || (Steady(marks[..|marks| - 1], gap)
        && Last(marks[..|marks| - 1]) <= Last(marks) <= Last(marks[..|marks| - 1]) + gap)
  }

  lemma SteadyMore(marks: seq<nat>, m: nat, gap: nat)
    requires Steady(marks, gap) && Last(marks) <= m <= Last(marks) + gap
    ensures Steady(marks + [m], gap) && Last(marks + [m]) == m
  {
    assert (marks + [m])[..|marks|] == marks;
  }

  class Publisher {
    const reply: array<byte>     // g_reply
    var address: nat             // ADDRESS
    var transferSize: nat
    var step: nat                // step_bytes(): 512, or sixteen times what SET_STEP pinned
    ghost var marks: seq<nat>    // bl_usb_tx_direct_publish() so far in this read
    ghost var written: nat       // reply bytes in place

    ghost predicate Valid()
      reads this
    {
      reply.Length == A.REPLY && address < A.LONG && transferSize <= A.REPLY
      && 0 < step < 0x1_0000 && step % 16 == 0
    }

    constructor (address: nat, transferSize: nat, step: nat)
      requires address < A.LONG && transferSize <= A.REPLY && 0 < step < 0x1_0000 && step % 16 == 0
      ensures Valid() && fresh(reply) && this.address == address
      ensures this.transferSize == transferSize && this.step == step
    {
      reply := new byte[A.REPLY](_ => 0);
      this.address, this.transferSize, this.step := address, transferSize, step;
      marks, written := [], 0;
    }

    ghost method Publish(avail: nat)
      requires avail <= written
      modifies `marks
      ensures marks == old(marks) + [avail] && Last(marks) == avail
      ensures forall gap: nat :: Steady(old(marks), gap) && Last(old(marks)) <= avail <= Last(old(marks)) + gap
                ==> Steady(marks, gap)
    {
      forall gap: nat | Steady(marks, gap) && Last(marks) <= avail <= Last(marks) + gap
        ensures Steady(marks + [avail], gap)
      {
        SteadyMore(marks, avail, gap);
      }
      marks := marks + [avail];
    }

    // fw_cart_dmg_read(), fw_cart_agb_sram_read() and fw_cart_agb_3d_read(): n bytes in address order.
    method Strobe(m: Memory, from: nat, at: nat, n: nat)
      requires Valid() && at + n <= reply.Length && written == at
      modifies reply, `written
      ensures written == at + n && reply[..at + n] == old(reply[..at]) + From(m, from, n)
    {
      ghost var was := reply[..at];
      for i := 0 to n
        invariant written == at + i && reply[..at + i] == was + From(m, from, i)
      {
        reply[at + i] := m((from + i) % A.LONG);
        written := at + i + 1;
        assert reply[..at + i + 1] == reply[..at + i] + [reply[at + i]];
        assert reply[..at + i] == was + From(m, from, i);
      }
    }

    static lemma NoneYet()
      ensures Last([]) == 0 && forall gap: nat :: Steady([], gap)
    {
    }

    // One step of do_dmg_read(), published a grain at a time.
    method Grains(m: Memory, off: nat, want: nat) returns (ghost more: seq<nat>)
      requires Valid() && off + want <= transferSize && written == off && want > 0
      requires reply[..off] == From(m, address, off) && Steady(marks, GRAIN) && Last(marks) == off
      modifies reply, `written, `marks
      ensures written == off + want && reply[..off + want] == From(m, address, off + want)
      ensures marks == old(marks) + more && Grained(more, off, want)
      ensures Steady(marks, GRAIN) && Last(marks) == off + want
    {
      hide From, Steady, Last;
      var sub := 0;
      more := [];
      while sub < want
        invariant sub <= want && written == off + sub
        invariant reply[..off + sub] == From(m, address, off + sub)
        invariant marks == old(marks) + more && Grained(more, off, want)
        invariant sub % GRAIN == 0 || sub == want
        invariant Steady(marks, GRAIN) && Last(marks) == off + sub
      {
        var g := if want - sub > GRAIN then GRAIN else want - sub;
        Strobe(m, (address + off + sub) % A.LONG, off + sub, g);
        FromJoins(m, address, off + sub, g);
        sub := sub + g;
        Publish(off + sub);
        more := more + [off + sub];
      }
    }

    // do_dmg_read(): every step's end is published once more when the step is over.
    method DmgRead(m: Memory, stalled: bool)
      requires Valid()
      modifies reply, `address, `marks, `written
      ensures Valid() && reply[..transferSize] == From(m, old(address), transferSize)
      ensures address == if stalled then old(address) else (old(address) + transferSize) % A.LONG
      ensures A.AllFit(marks, transferSize) <==> A.FitPer(step, transferSize)
      ensures Last(marks) == transferSize && Steady(marks, 256)
    {
      hide From, Told, Reached, Grained, Grain, A.AllFit, A.FitPer, Steady, Last;
      NoneYet();
      var len, off := transferSize, 0;
      marks, written := [], 0;
      Begun(step, len);
      while off < len
        invariant Reached(step, len, off) && off <= len && written == off && address == old(address)
        invariant reply[..off] == From(m, address, off) && Told(marks, step, len, off)
        invariant Steady(marks, GRAIN) && Last(marks) == off
        decreases len - off
      {
        var want := if len - off > step then step else len - off;
        NextReached(step, len, off);
        ghost var was := marks;
        ghost var more := Grains(m, off, want);
        Publish(off + want);
        assert marks == was + (more + [off + want]);
        EndsGrained(more, off, want);
        ToldMore(was, more + [off + want], step, len, off, want);
        off := off + want;
      }
      ToldAll(marks, step, len);
      if !stalled {
        address := (address + len) % A.LONG;
      }
    }

    // do_save_read()
    method SaveRead(m: Memory, stalled: bool)
      requires Valid()
      modifies reply, `address, `marks, `written
      ensures Valid() && reply[..transferSize] == From(m, old(address), transferSize)
      ensures address == if stalled then old(address) else (old(address) + transferSize) % A.LONG
      ensures A.AllFit(marks, transferSize) <==> A.FitPer(step, transferSize)
      ensures Last(marks) == transferSize && Steady(marks, step)
    {
      hide From, Told, Reached, Grained, Grain, A.AllFit, A.FitPer, Steady, Last;
      NoneYet();
      var len, off := transferSize, 0;
      marks, written := [], 0;
      Begun(step, len);
      while off < len
        invariant Reached(step, len, off) && off <= len && written == off && address == old(address)
        invariant reply[..off] == From(m, address, off) && Told(marks, step, len, off)
        invariant Steady(marks, step) && Last(marks) == off
        decreases len - off
      {
        var want := if len - off > step then step else len - off;
        NextReached(step, len, off);
        Strobe(m, (address + off) % A.LONG, off, want);
        FromJoins(m, address, off, want);
        EndMark(off, want);
        ToldMore(marks, [off + want], step, len, off, want);
        off := off + want;
        Publish(off);
      }
      ToldAll(marks, step, len);
      if !stalled {
        address := (address + len) % A.LONG;
      }
    }

    // m3d_read_overlapped(): whole halfwords off the page, which its own counter walks, and a pad
    // for an odd length, whose last halfword mark is a short packet of its own.
    method PageRead(page: Memory)
      requires Valid()
      modifies reply, `marks, `written
      ensures Valid()
      ensures var even := transferSize / 2 * 2;
              reply[..transferSize] == From(page, 0, even) + (if even < transferSize then [255] else [])
              && (A.AllFit(marks, transferSize) <==>
                    A.FitPer(step, even) && (even == transferSize || even % Q.PKT == 0))
      ensures Last(marks) == transferSize && Steady(marks, step)
    {
      hide From, Told, Reached, A.AllFit, A.FitPer, Steady, Last;
      NoneYet();
      var len, off := transferSize, 0;
      ghost var even := len / 2 * 2;
      marks, written := [], 0;
      Begun(step, even);
      while off < len
        invariant OnPage(page, even, off) && Valid()
        decreases len - off
      {
        var want := if len - off > step then step else len - off;
        WholeHalfwords(len, off, step);
        want := want / 2 * 2;
        if want == 0 {
          Pad(page, off);
          return;
        }
        Halfwords(page, even, off, want);
        off := off + want;
      }
      ToldAll(marks, step, even);
    }

    ghost predicate OnPage(page: Memory, even: nat, off: nat)
      reads this, reply
    {
      && reply.Length == A.REPLY && Reached(step, even, off) && off <= even <= A.REPLY && written == off
      && off % 2 == 0 == even % 2
      && reply[..off] == From(page, 0, off) && Told(marks, step, even, off) && (off > 0 ==> off in marks)
      && Last(marks) == off && Steady(marks, step)
    }

    method Halfwords(page: Memory, ghost even: nat, off: nat, want: nat)
      requires Valid() && OnPage(page, even, off) && off < even && want == Min(step, even - off) && want % 2 == 0
      modifies reply, `marks, `written
      ensures Valid() && OnPage(page, even, off + want)
    {
      hide From, Told, Reached, Grained, Grain, Steady, Last;
      NextReached(step, even, off);
      EndMark(off, want);
      ToldMore(marks, [off + want], step, even, off, want);
      Strobe(page, off % A.LONG, off, want);
      FromJoins(page, 0, off, want);
      Publish(off + want);
    }

    method Pad(page: Memory, off: nat)
      requires Valid() && OnPage(page, off, off) && off + 1 == transferSize
      modifies reply, `marks, `written
      ensures Valid() && reply[..off + 1] == From(page, 0, off) + [255]
      ensures A.AllFit(marks, off + 1) <==> A.FitPer(step, off) && off % Q.PKT == 0
      ensures Last(marks) == off + 1 && Steady(marks, step)
    {
      hide From, Told, Reached, A.AllFit, A.FitPer, A.Fit, Steady, Last;
      reply[off] := 255;
      written := off + 1;
      assert reply[..off + 1] == reply[..off] + [reply[off]];
      PadMark(marks, step, off);
      Publish(off + 1);
    }
  }

  lemma Halved(x: nat, r: nat)
    requires r < 2
    ensures (2 * x + r) / 2 == x && (2 * x + r) % 2 == r
  {
  }

  // What a step reads of a page: up to its last whole halfword.
  lemma WholeHalfwords(len: nat, off: nat, step: nat)
    requires off < len && off % 2 == 0 && off <= len / 2 * 2 && step > 0 && step % 16 == 0
    ensures var want, even := Min(step, len - off) / 2 * 2, len / 2 * 2;
            if want == 0 then off == even && len == even + 1
            else off < even && want == Min(step, even - off) && want % 2 == 0 && off + want <= even
                 && (off + want) % 2 == 0 && even % 2 == 0
  {
    var h, r, o, s := len / 2, len % 2, off / 2, 8 * (step / 16);
    assert len == 2 * h + r && off == 2 * o && step == 2 * s;
    Counted(h, r, o, s);
    var n := Min(s, h - o);
    assert Min(step, len - off) / 2 * 2 == 2 * n;
    Halved(n, 0);
    Halved(o + n, 0);
    Halved(h, 0);
  }

  lemma Counted(h: nat, r: nat, o: nat, s: nat)
    requires o <= h && r < 2 && s > 0
    ensures Min(2 * s, 2 * h + r - 2 * o) / 2 == Min(s, h - o)
  {
    if s <= h - o {
      Halved(s, 0);
    } else if 2 * s > 2 * (h - o) + r {
      Halved(h - o, r);
    }
  }

  lemma PadMark(marks: seq<nat>, step: nat, even: nat)
    requires Told(marks, step, even, even) && step > 0 && (even > 0 ==> even in marks)
    ensures A.AllFit(marks + [even + 1], even + 1) <==> A.FitPer(step, even) && even % Q.PKT == 0
  {
    if A.FitPer(step, even) && even % Q.PKT == 0 {
      PadFits(marks, even);
    } else {
      var all, unfit := marks + [even + 1], if even % Q.PKT == 0 then step else even;
      assert unfit in all && !A.Fit(unfit, even + 1);
    }
  }

  lemma PadFits(marks: seq<nat>, even: nat)
    requires A.AllFit(marks, even) && even % Q.PKT == 0
    ensures A.AllFit(marks + [even + 1], even + 1)
  {
    forall i | 0 <= i < |marks| ensures A.Fit(marks[i], even + 1) {
      assert A.Fit(marks[i], even);
    }
  }

  // At the shipped step all of them are fit, save an odd page; pinned at 16 none over 16 bytes is.
  lemma ShippedStep(len: nat)
    ensures A.FitPer(512, len) && (A.FitPer(16, len) <==> len <= 16)
  {
  }
}
