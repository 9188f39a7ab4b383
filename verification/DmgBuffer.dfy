/** The AMD write-buffer load on a DMG flash cartridge, in every form src/cart.c can be built with:
    the plain one that reads and writes PB_OUT for each edge, and the ones that keep PB_OUT in a
    register, leave out stores that change no pin, set the port directions once, or walk the
    address without masking it.  What the cartridge sees is the sequence of falling /WR edges. */
module DmgBuffer {
  import opened Bytes

  const AD := 0x1_0000          // PA_AD_MASK + 1

  // PB_OUT: D0..D7, the three lines this code moves, and everything else.
  datatype PbOut = PbOut(data: byte, wr: bool, rd: bool, clk: bool, rest: set<nat>)

  // A falling /WR: address and data lines, whether both ports drive them, /RD and CLK.
  datatype Strobe = Strobe(addr: nat, data: byte, driven: bool, rd: bool, clk: bool)

  class Port {
    var pa: nat          // PA_OUT
    var pb: PbOut        // PB_OUT latch
    var paOut: bool      // PA_DIR drives AD0..AD15
    var pbOut: bool      // PB_DIR drives D0..D7
    var strobes: seq<Strobe>

    constructor (pb: PbOut)
      ensures this.pb == pb && strobes == []
    {
      pa, this.pb, paOut, pbOut, strobes := 0, pb, false, false, [];
    }

    // Any store to PB_OUT or PB_CLR.
    method Store(v: PbOut)
      modifies `pb, `strobes
      ensures pb == v
      ensures strobes == if old(pb).wr && !v.wr
                         then old(strobes) + [Strobe(pa, v.data, paOut && pbOut, v.rd, v.clk)] else old(strobes)
    {
      if pb.wr && !v.wr {
        strobes := strobes + [Strobe(pa, v.data, paOut && pbOut, v.rd, v.clk)];
      }
      pb := v;
    }
  }

  // What one bus write strobes.
  function Edge(addr: nat, value: nat): Strobe { Strobe(addr, value % 0x100, true, true, false) }

  function Run(sa: nat, data: seq<byte>): seq<Strobe> {
    if data == [] then []
    else Run(sa, data[..|data| - 1]) + [Edge((sa + |data| - 1) % AD, data[|data| - 1])]
  }

  // The load: unlock pair, buffer-load and count at SA, the data run, the confirm.
  function Load(cmdAddr: seq<nat>, cmdVal: seq<nat>, sa: nat, data: seq<byte>): seq<Strobe>
    requires |cmdAddr| == 6 && |cmdVal| == 6
  {
    [Edge(cmdAddr[0] % AD, cmdVal[0]), Edge(cmdAddr[1] % AD, cmdVal[1]),
     Edge(sa % AD, cmdVal[2]), Edge(sa % AD, |data| + 255)]
    + Run(sa, data) + [Edge(sa % AD, cmdVal[5])]
  }

  // The load strobe by strobe: an address below 2^16 goes out as it is, one beyond it without the
  // bits there are no lines for.
  lemma LoadStrobes(cmdAddr: seq<nat>, cmdVal: seq<nat>, sa: nat, data: seq<byte>)
    requires |cmdAddr| == 6 && |cmdVal| == 6
    ensures var l := Load(cmdAddr, cmdVal, sa, data);
            |l| == |data| + 5
            && l[0] == Strobe(cmdAddr[0] % 0x1_0000, cmdVal[0] % 0x100, true, true, false)
            && l[1] == Strobe(cmdAddr[1] % 0x1_0000, cmdVal[1] % 0x100, true, true, false)
            && l[2] == Strobe(sa % 0x1_0000, cmdVal[2] % 0x100, true, true, false)
            && l[3] == Strobe(sa % 0x1_0000, (|data| - 1) % 0x100, true, true, false)
            && l[|data| + 4] == Strobe(sa % 0x1_0000, cmdVal[5] % 0x100, true, true, false)
            && (forall x :: 0 <= x < |data| ==>
                  l[4 + x] == Strobe((sa + x) % 0x1_0000, data[x], true, true, false))
    ensures forall a: nat :: a < 0x1_0000 ==> Edge(a % AD, 0).addr == a
  {
    RunStrobes(sa, data);
    var l := Load(cmdAddr, cmdVal, sa, data);
    forall x | 0 <= x < |data| ensures l[4 + x] == Strobe((sa + x) % 0x1_0000, data[x], true, true, false) {
      assert l[4 + x] == Run(sa, data)[x];
    }
  }

  lemma {:induction false} RunStrobes(sa: nat, data: seq<byte>)
    ensures |Run(sa, data)| == |data|
    ensures forall x :: 0 <= x < |data| ==>
              Run(sa, data)[x] == Strobe((sa + x) % 0x1_0000, data[x], true, true, false)
  {
    if data != [] {
      RunStrobes(sa, data[..|data| - 1]);
    }
  }

  // dmg_write_stock_flash(): every line through the latch.
  method WriteStock(p: Port, addr: nat, value: nat)
    requires p.pb.rd
    modifies p
    ensures p.strobes == old(p.strobes) + [Edge(addr % AD, value)] && p.pb.rd
  {
    p.Store(p.pb.(wr := true));
    p.Store(p.pb.(clk := false));
    p.paOut := true;
    p.pa := addr % AD;
    p.pbOut := true;
    p.Store(p.pb.(data := 0));
    p.Store(p.pb.(data := value % 0x100));
    p.Store(p.pb.(wr := false));
    p.Store(p.pb.(wr := true));
  }

  // fw_cart_dmg_amd_program_buffer() as shipped.
  method LoadPlain(p: Port, cmdAddr: seq<nat>, cmdVal: seq<nat>, sa: nat, data: seq<byte>)
    requires |cmdAddr| == 6 && |cmdVal| == 6
    modifies p
    ensures p.strobes == old(p.strobes) + Load(cmdAddr, cmdVal, sa, data)
  {
    hide Edge;
    p.Store(p.pb.(rd := true));
    WriteStock(p, cmdAddr[0], cmdVal[0]);
    WriteStock(p, cmdAddr[1], cmdVal[1]);
    WriteStock(p, sa, cmdVal[2]);
    WriteStock(p, sa, |data| + 255);
    ghost var head := p.strobes;
    for x := 0 to |data|
      invariant p.pb.rd && p.strobes == head + Run(sa, data[..x])
    {
      WriteStock(p, sa + x, data[x]);
      assert data[..x + 1][..x] == data[..x];
    }
    assert data[..|data|] == data;
    WriteStock(p, sa, cmdVal[5]);
  }

  // The build: FW_DMG_WSF_LEAN, FW_DMG_DIR_HOIST and FW_DMG_WSF_WALK, the last needing the first.
  datatype Build = Build(lean: bool, hoist: bool, walk: bool)

  // What a write may rely on between loads' prologue and end: the cached value is the latch, and
  // the lines a build no longer stores are already where the write wants them.
  predicate Ready(p: Port, pb: PbOut, b: Build)
    reads p
  {
    && pb == p.pb && pb.rd
    && (b.lean ==> pb.wr && !pb.clk) && (b.hoist ==> p.paOut && p.pbOut)
  }

  // DMG_WSF_SH and DMG_WSF_WALK_SH, which differ in who masks the address.
  method WriteShadow(p: Port, was: PbOut, b: Build, addr: nat, value: byte) returns (pb: PbOut)
    requires Ready(p, was, b)
    modifies p
    ensures Ready(p, pb, b) && p.strobes == old(p.strobes) + [Edge(addr, value)]
  {
    pb := was;
    if !b.lean {
      pb := pb.(wr := true);
      p.Store(pb);
      p.Store(p.pb.(clk := false));
      pb := pb.(clk := false);
    }
    if !b.hoist {
      p.paOut := true;
    }
    p.pa := addr;
    if !b.hoist {
      p.pbOut := true;
    }
    if !b.lean {
      p.Store(p.pb.(data := 0));
      pb := pb.(data := 0);
    }
    pb := pb.(data := value);
    p.Store(pb);
    p.Store(p.pb.(wr := false));
    pb := pb.(wr := false);
    pb := pb.(wr := true);
    p.Store(pb);
  }

  // The address of byte x: masked after the addition, or before it.
  function At(b: Build, sa: nat, x: nat): nat {
    if b.walk then sa % AD + x else (sa + x) % AD
  }

  function Walked(b: Build, sa: nat, data: seq<byte>): seq<Strobe> {
    if data == [] then []
    else Walked(b, sa, data[..|data| - 1]) + [Edge(At(b, sa, |data| - 1), data[|data| - 1])]
  }

  method LoadShadow(p: Port, b: Build, cmdAddr: seq<nat>, cmdVal: seq<nat>, sa: nat, data: seq<byte>)
    requires |cmdAddr| == 6 && |cmdVal| == 6
    modifies p
    ensures p.strobes == old(p.strobes) + ShadowLoad(b, cmdAddr, cmdVal, sa, data)
  {
    hide Walked, Ready;
    OneEdge();
    hide Edge;
    var pb := Prologue(p, b);
    pb := WriteShadow(p, pb, b, cmdAddr[0] % AD, cmdVal[0] % 0x100);
    pb := WriteShadow(p, pb, b, cmdAddr[1] % AD, cmdVal[1] % 0x100);
    pb := WriteShadow(p, pb, b, sa % AD, cmdVal[2] % 0x100);
    pb := WriteShadow(p, pb, b, sa % AD, (|data| + 255) % 0x100);
    pb := WriteRun(p, pb, b, sa, data);
    pb := WriteShadow(p, pb, b, sa % AD, cmdVal[5] % 0x100);
  }

  // The lines carry the low octet of a value.
  lemma OneEdge()
    ensures forall a: nat, v: nat :: Edge(a, v % 0x100) == Edge(a, v)
  {
  }

  // The data run.
  method WriteRun(p: Port, was: PbOut, b: Build, sa: nat, data: seq<byte>) returns (pb: PbOut)
    requires Ready(p, was, b)
    modifies p
    ensures Ready(p, pb, b) && p.strobes == old(p.strobes) + Walked(b, sa, data)
  {
    pb := was;
    for x := 0 to |data|
      invariant Ready(p, pb, b) && p.strobes == old(p.strobes) + Walked(b, sa, data[..x])
    {
      pb := WriteShadow(p, pb, b, At(b, sa, x), data[x]);
      assert data[..x + 1][..x] == data[..x];
    }
    assert data[..|data|] == data;
  }

  method Prologue(p: Port, b: Build) returns (pb: PbOut)
    modifies p
    ensures Ready(p, pb, b) && p.strobes == old(p.strobes)
  {
    pb := p.pb.(rd := true);
    if b.lean {
      pb := pb.(wr := true);
    }
    p.Store(pb);
    if b.lean {
      p.Store(p.pb.(clk := false));
      pb := pb.(clk := false);
    }
    if b.hoist {
      p.paOut := true;
      p.pbOut := true;
    }
  }

  // All the forms strobe the same sequence, except that the pointer walk does so exactly as long as
  // the masked address does not carry.
  lemma {:induction false} WalkIsRun(b: Build, sa: nat, data: seq<byte>)
    ensures Walked(b, sa, data) == Run(sa, data) <==> !b.walk || sa % AD + |data| <= AD || data == []
  {
    if data != [] {
      var front := data[..|data| - 1];
      WalkIsRun(b, sa, front);
      SameLength(b, sa, front);
      LastEdge(b, sa, data);
      AtCarries(b, sa, |data| - 1);
    }
  }

  lemma {:induction false} SameLength(b: Build, sa: nat, data: seq<byte>)
    ensures |Walked(b, sa, data)| == |data| == |Run(sa, data)|
  {
    if data != [] {
      SameLength(b, sa, data[..|data| - 1]);
    }
  }

  lemma Unrolled(b: Build, sa: nat, data: seq<byte>)
    requires data != []
    ensures var x := |data| - 1;
            Walked(b, sa, data) == Walked(b, sa, data[..x]) + [Edge(At(b, sa, x), data[x])]
            && Run(sa, data) == Run(sa, data[..x]) + [Edge((sa + x) % AD, data[x])]
  {
  }

  lemma LastEdge(b: Build, sa: nat, data: seq<byte>)
    requires data != []
    ensures var x := |data| - 1;
            Walked(b, sa, data) == Run(sa, data) <==>
            Walked(b, sa, data[..x]) == Run(sa, data[..x]) && At(b, sa, x) == (sa + x) % AD
  {
    hide Edge, Walked, Run, At;
    var x := |data| - 1;
    var c := (sa + x) % AD;
    Unrolled(b, sa, data);
    SameLength(b, sa, data[..x]);
    SnocTells(Walked(b, sa, data[..x]), Edge(At(b, sa, x), data[x]), Run(sa, data[..x]), Edge(c, data[x]));
    EdgeTells(At(b, sa, x), c, data[x]);
  }

  lemma AtCarries(b: Build, sa: nat, x: nat)
    ensures At(b, sa, x) == (sa + x) % AD <==> !b.walk || sa % AD + x < AD
  {
  }

  lemma SnocTells(u: seq<Strobe>, s: Strobe, v: seq<Strobe>, t: Strobe)
    requires |u| == |v|
    ensures u + [s] == v + [t] <==> u == v && s == t
  {
    assert (u + [s])[..|u|] == u && (v + [t])[..|v|] == v;
    assert (u + [s])[|u|] == s && (v + [t])[|v|] == t;
  }

  lemma EdgeTells(a: nat, c: nat, value: byte)
    ensures Edge(a, value) == Edge(c, value) <==> a == c
  {
  }

  // The whole load, as LoadShadow strobes it.
  function ShadowLoad(b: Build, cmdAddr: seq<nat>, cmdVal: seq<nat>, sa: nat, data: seq<byte>): seq<Strobe>
    requires |cmdAddr| == 6 && |cmdVal| == 6
  {
    [Edge(cmdAddr[0] % AD, cmdVal[0]), Edge(cmdAddr[1] % AD, cmdVal[1]),
     Edge(sa % AD, cmdVal[2]), Edge(sa % AD, |data| + 255)]
    + Walked(b, sa, data) + [Edge(sa % AD, cmdVal[5])]
  }

  lemma FormsAgree(b: Build, cmdAddr: seq<nat>, cmdVal: seq<nat>, sa: nat, data: seq<byte>)
    requires |cmdAddr| == 6 && |cmdVal| == 6
    ensures ShadowLoad(b, cmdAddr, cmdVal, sa, data) == Load(cmdAddr, cmdVal, sa, data)
            <==> !b.walk || sa % AD + |data| <= AD || data == []
  {
    hide Edge, Walked, Run;
    WalkIsRun(b, sa, data);
    SameLength(b, sa, data);
    var u, v := ShadowLoad(b, cmdAddr, cmdVal, sa, data), Load(cmdAddr, cmdVal, sa, data);
    assert u[4..4 + |data|] == Walked(b, sa, data) && v[4..4 + |data|] == Run(sa, data);
  }
}
