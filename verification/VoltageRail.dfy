/** The 5 V select against the parser's mode.  An AGB cartridge on 5 V is permanently damaged, so at
    every boundary of the main loop's byte loop the select may be high only in DMG mode, whatever
    bytes arrive, however they are cut, and whatever LK commands, power cycles, link resets and
    timeouts fall between them. */
module VoltageRail {
  import opened Bytes
  import opened Device
  import C = Commands
  import F = Framing
  import P = Parser
  import L = LkSeam
  import E = Effects

  // One command either leaves the mode alone, selects DMG, or selects AGB together with a request
  // for 3.3 V that the same turn of the loop will drain.
  predicate ModeStep(d: Dev, e: Dev) {
    || e.mode == d.mode || e.mode == Dmg
    || (e.mode == Agb && Voltage in e.flags && !e.rail.five)
  }

  lemma SessionMode(d: Dev, op: byte, a: C.Args)
    ensures ModeStep(d, C.ExecuteSession(d, op, a).dev)
  {
    hide GetVarState, C.FwInfo, C.Pairs, GetVariable, Long;
  }

  lemma CartKeepsMode(d: Dev, op: byte, a: C.Args)
    ensures C.ExecuteCart(d, op, a).dev.mode == d.mode
  {
    hide Long, Word;
  }

  lemma PrivateKeepsMode(d: Dev, op: byte, a: C.Args, pay: C.Pay, lastPay: nat)
    ensures C.ExecutePrivate(d, op, a, pay, lastPay).dev.mode == d.mode
  {
    hide Long, Put16;
  }

  lemma ExecuteMode(d: Dev, op: byte, a: C.Args, pay: C.Pay, lastPay: nat)
    ensures ModeStep(d, C.Execute(d, op, a, pay, lastPay).dev)
  {
    hide C.ExecuteSession, C.ExecuteCart, C.ExecutePrivate;
    var e: Dev := d.(terminatorDue := false);
    SessionMode(e, op, a);
    CartKeepsMode(e, op, a);
    PrivateKeepsMode(e, op, a, pay, lastPay);
  }

  // A restored variable blob brings neither mode nor voltage back.
  lemma PayloadKeepsMode(d: Dev, op: byte, a: C.Args, pay: C.Pay, got: nat)
    requires got == C.PayloadLen(d, op, a) <= PAYLOAD_MAX
    ensures C.PayloadDone(d, op, a, pay, got).dev.mode == d.mode
  {
    hide C.Pairs, C.Zip, C.Banks, C.Fnv, C.PayloadLen, Longs, Shorts;
  }

  lemma FeedMode(c: F.Chan, d: Dev, b: byte)
    requires F.Declared(c, d)
    ensures ModeStep(d, F.Feed(c, d, b).dev)
  {
    hide C.Execute, C.PayloadDone, C.PayloadLen, C.ArgLen;
    forall op: byte, a: C.Args, pay: C.Pay, n: nat
      ensures ModeStep(d, C.Execute(d, op, a, pay, n).dev)
    {
      ExecuteMode(d, op, a, pay, n);
    }
    forall op: byte, a: C.Args, pay: C.Pay, n: nat | n == C.PayloadLen(d, op, a) <= PAYLOAD_MAX
      ensures C.PayloadDone(d, op, a, pay, n).dev.mode == d.mode
    {
      PayloadKeepsMode(d, op, a, pay, n);
    }
  }

  lemma BulkMode(c: F.Chan, d: Dev, s: seq<byte>)
    requires F.Declared(c, d) && 0 < |s| <= c.payNeed - c.payGot
    ensures F.Bulk(c, d, s).dev.mode == d.mode
  {
    hide C.PayloadDone, C.PayloadLen, F.Splice;
    forall op: byte, a: C.Args, pay: C.Pay, n: nat | n == C.PayloadLen(d, op, a) <= PAYLOAD_MAX
      ensures C.PayloadDone(d, op, a, pay, n).dev.mode == d.mode
    {
      PayloadKeepsMode(d, op, a, pay, n);
    }
  }

  datatype Event =
    | Byte(b: byte)                      // fw_proto_feed(), then the drains
    | Run(bytes: seq<byte>)              // fw_proto_feed_bulk(), then the drains
    | LkCommand(op: byte, rails: seq<bool>, address: nat, lastBank: nat, status: nat)
    | Dropped                            // parser timeout or link reset

  // The parser, the session record and the two rail pins, at one byte boundary.
  datatype State = State(chan: F.Chan, dev: Dev, vsel: bool, vcc: bool)

  // The session record after the drains: what was requested is done and marked so.
  ghost function Drained(d: Dev): Dev {
    AfterPower(AfterVoltage(d))
  }

  ghost function AfterVoltage(d: Dev): Dev {
    if Voltage !in d.flags then d
    else d.(flags := d.flags - {Voltage}, rail := d.rail.(isFive := d.rail.five ==> d.mode == Dmg))
  }

  // power-off keeps the standing request, power-on applies it again
  ghost function AfterPower(d: Dev): Dev {
    if Power !in d.flags then d
    else
      d.(flags := d.flags - {Power}, v8 := d.v8[CART_POWERED := if d.rail.powerTarget then 1 else 0],
         rail := d.rail.(isFive := d.rail.powerTarget && (d.rail.five ==> d.mode == Dmg)))
  }

  // The 5 V select and the supply after the drains: a power request re-applies or drops the
  // standing voltage request, and 5 V takes the mode as well.
  ghost predicate Selects(d: Dev, was: bool) {
    if Power in d.flags then d.rail.powerTarget && d.rail.five && d.mode == Dmg
    else if Voltage in d.flags then d.rail.five && d.mode == Dmg
    else was
  }

  ghost predicate Powers(d: Dev, was: bool) {
    if Power in d.flags then d.rail.powerTarget else was
  }

  ghost function Settled(r: F.Rx, s: State): State {
    State(r.chan, Drained(r.dev), Selects(r.dev, s.vsel), Powers(r.dev, s.vcc))
  }

  // A run of payload bytes is taken up to the end of the payload.
  ghost function Bulked(s: State, bytes: seq<byte>): F.Rx
    requires F.Declared(s.chan, s.dev)
  {
    var n := Min(|bytes|, s.chan.payNeed - s.chan.payGot);
    if n == 0 then F.Rx(s.chan, s.dev, []) else F.Bulk(s.chan, s.dev, bytes[..n])
  }

  // A routed command: LK may ask for either rail any number of times, and leaves its variables.
  ghost function Routed(s: State, rails: seq<bool>, address: nat, lastBank: nat, status: nat): State
    requires address < 0x1_0000_0000 && lastBank < 0x1_0000 && status < 0x1_0000
  {
    var dmg := s.dev.mode == Dmg;
    s.(dev := LkVariables(Asked(s.dev, rails), address, lastBank, status),
       vsel := if rails == [] then s.vsel else rails[|rails| - 1] && dmg)
  }

  ghost function Asked(d: Dev, rails: seq<bool>): Dev {
    d.(rail := d.rail.(isFive := if true in rails then d.mode == Dmg else d.rail.isFive))
  }

  function LkVariables(d: Dev, address: nat, lastBank: nat, status: nat): Dev
    requires address < 0x1_0000_0000 && lastBank < 0x1_0000 && status < 0x1_0000
  {
    d.(address := address, v16 := d.v16[LAST_BANK := lastBank][3 := status])
  }

  // Three variables come back from LK, and no others.
  lemma LkLeaves(d: Dev, address: nat, lastBank: nat, status: nat, size: byte, key: nat)
    requires address < 0x1_0000_0000 && lastBank < 0x1_0000 && status < 0x1_0000
    ensures var e := LkVariables(d, address, lastBank, status);
            e == d.(address := e.address, v16 := e.v16)
            && GetVariable(e, size, key) ==
               if size == 4 && key == 0 then address
               else if size == 2 && key == 3 then status
               else if size == 2 && key == 4 then lastBank
               else GetVariable(d, size, key)
  {
  }

  // What each event makes of it.
  ghost predicate Happens(e: Event, s: State, u: State)
    requires F.Declared(s.chan, s.dev)
  {
    match e
    case Byte(b) => u == Settled(F.Feed(s.chan, s.dev, b), s)
    case Run(bytes) => u == Settled(Bulked(s, bytes), s)
    case LkCommand(op, rails, address, lastBank, status) =>
      u == if F.Idle(s.chan) && L.Routes(s.dev.mode, op)
           then Routed(s, rails, address % 0x1_0000_0000, lastBank % 0x1_0000, status % 0x1_0000)
           else s
    case Dropped => u == s.(chan := F.Reset(s.chan))
  }

  ghost predicate Safe(s: State) {
    F.Declared(s.chan, s.dev) && (s.vsel ==> s.dev.mode == Dmg)
  }

  // No event can raise the select outside DMG mode, or leave it up when the mode goes.
  lemma StaysSafe(e: Event, s: State, u: State)
    requires Safe(s) && Happens(e, s, u)
    ensures u.vsel ==> u.dev.mode == Dmg
  {
    hide F.Feed, F.Bulk, F.Reset, Drained, L.Routes;
    match e
    case Byte(b) =>
      FeedMode(s.chan, s.dev, b);
      SettledSafe(F.Feed(s.chan, s.dev, b), s);
    case Run(bytes) =>
      var n := Min(|bytes|, s.chan.payNeed - s.chan.payGot);
      if n != 0 {
        BulkMode(s.chan, s.dev, bytes[..n]);
      }
      SettledSafe(Bulked(s, bytes), s);
    case _ =>
  }

  lemma SettledSafe(r: F.Rx, s: State)
    requires Safe(s) && ModeStep(s.dev, r.dev)
    ensures Settled(r, s).vsel ==> Settled(r, s).dev.mode == Dmg
  {
  }

  // ------------------------------------------------------------------ requests are honoured

  predicate Pending(d: Dev) {
    Power in d.flags || Voltage in d.flags
  }

  // What the drains leave of the pins and the record, said of the result alone.
  ghost predicate Honoured(d: Dev, was: State, u: State) {
    && !Pending(u.dev) && u.dev.mode == d.mode && u.dev.flags == d.flags - {Power, Voltage}
    && u.dev.rail == d.rail.(isFive := u.dev.rail.isFive)
    && (Power in d.flags ==>
          u.vcc == d.rail.powerTarget && (u.vsel <==> u.vcc && u.dev.rail.five && u.dev.mode == Dmg)
          && GetVariable(u.dev, 1, CART_POWERED) == (if u.vcc then 1 else 0)
          && (u.dev.rail.isFive <==> u.vcc && u.vsel == u.dev.rail.five))
    && (Power !in d.flags ==> u.vcc == was.vcc && u.dev.v8 == d.v8)
    && (Power !in d.flags && Voltage in d.flags ==>
          (u.vsel <==> u.dev.rail.five && u.dev.mode == Dmg) && u.dev.rail.isFive == (u.vsel == u.dev.rail.five))
    && (Power !in d.flags && Voltage !in d.flags ==> u.vsel == was.vsel && u.dev.rail.isFive == d.rail.isFive)
  }

  // Every turn that drains, on any command in any state: a power request moves the supply, and the
  // select follows the supply, the standing request and the mode.
  lemma SettledHonours(r: F.Rx, s: State)
    requires F.Declared(r.chan, r.dev)
    ensures Honoured(r.dev, s, Settled(r, s)) && F.Declared(r.chan, Settled(r, s).dev)
  {
    hide F.Valid, F.Idle, C.PayloadLen;
    StillDeclared(r.chan, r.dev, Drained(r.dev));
  }

  lemma StillDeclared(c: F.Chan, d: Dev, e: Dev)
    requires F.Declared(c, d) && e.v16[TRANSFER_SIZE] == d.v16[TRANSFER_SIZE]
    ensures F.Declared(c, e)
  {
  }

  predicate Steers(op: byte) {
    op in {C.SET_MODE_AGB, C.SET_MODE_DMG, C.SET_VOLTAGE_3_3V, C.SET_VOLTAGE_5V, C.CART_PWR_ON, C.CART_PWR_OFF}
  }

  // A parser between commands with nothing left to drain.
  ghost predicate Rest(s: State) {
    F.Declared(s.chan, s.dev) && F.Idle(s.chan) && !Pending(s.dev)
  }

  // One of these opcodes in its turn: what it asks for is what the pins show.
  ghost predicate Turned(s: State, op: byte, u: State) {
    && Rest(u)
    && (u.dev.mode == if op == C.SET_MODE_AGB then Agb else if op == C.SET_MODE_DMG then Dmg else s.dev.mode)
    && (u.dev.rail.five <==> op == C.SET_VOLTAGE_5V
                             || (s.dev.rail.five && op !in {C.SET_MODE_AGB, C.SET_VOLTAGE_3_3V}))
    && (u.vcc <==> op == C.CART_PWR_ON || (s.vcc && op != C.CART_PWR_OFF))
    && (u.vsel <==> if op == C.SET_MODE_DMG then s.vsel
                    else op != C.CART_PWR_OFF && u.dev.rail.five && u.dev.mode == Dmg)
  }

  // Before the drains: mode, standing request, supply target and which requests are up.
  lemma Steered(s: State, op: byte) returns (r: F.Rx)
    requires Rest(s) && Steers(op)
    ensures r == F.Feed(s.chan, s.dev, op) && F.Declared(r.chan, r.dev) && F.Idle(r.chan)
    ensures r.dev.mode == if op == C.SET_MODE_AGB then Agb else if op == C.SET_MODE_DMG then Dmg else s.dev.mode
    ensures r.dev.rail.five <==> op == C.SET_VOLTAGE_5V
                                 || (s.dev.rail.five && op !in {C.SET_MODE_AGB, C.SET_VOLTAGE_3_3V})
    ensures Power in r.dev.flags <==> op == C.CART_PWR_ON || op == C.CART_PWR_OFF
    ensures Power in r.dev.flags ==> (r.dev.rail.powerTarget <==> op == C.CART_PWR_ON)
    ensures Voltage in r.dev.flags <==> op in {C.SET_MODE_AGB, C.SET_VOLTAGE_3_3V, C.SET_VOLTAGE_5V}
  {
    hide F.Feed, F.Perform, F.Legal, E.Keeps, F.Idle, F.Declared, Rest;
    assert F.Declared(s.chan, s.dev) && F.Idle(s.chan) && !Pending(s.dev) by { Resting(s); }
    var m := F.Command(op, [], []);
    if op == C.SET_MODE_DMG {
      DmgLegal(s.chan, s.dev);
    } else {
      E.RailLeaves(s.chan, s.dev, op);
    }
    F.FirstByte(s.chan, s.dev, m);
    r := F.Perform(s.chan, s.dev, m);
    E.CommandEffect(s.chan, s.dev, m);
    if op == C.SET_MODE_AGB || op == C.SET_MODE_DMG {
      SteeredMode(s.chan, s.dev, op);
    }
    SteeredRail(s.dev, r.dev, op);
  }

  lemma Resting(s: State)
    requires Rest(s)
    ensures F.Declared(s.chan, s.dev) && F.Idle(s.chan) && !Pending(s.dev)
  {
  }

  lemma DmgLegal(c: F.Chan, d: Dev)
    ensures F.Legal(c, d, F.Command(C.SET_MODE_DMG, [], []))
  {
  }

  lemma SteeredRail(d: Dev, e: Dev, op: byte)
    requires E.Keeps(d, e, op)
    ensures op == C.SET_MODE_DMG ==> e.rail == d.rail
    ensures op !in {C.SET_MODE_AGB, C.SET_MODE_DMG} ==> e.mode == d.mode
  {
  }

  lemma SteeredMode(c: F.Chan, d: Dev, op: byte)
    requires F.Declared(c, d) && F.Idle(c) && (op == C.SET_MODE_AGB || op == C.SET_MODE_DMG)
    ensures F.Legal(c, d, F.Command(op, [], []))
    ensures F.Perform(c, d, F.Command(op, [], [])).dev.mode == if op == C.SET_MODE_AGB then Agb else Dmg
  {
    E.TableLeaves(c, d, op, CART_MODE);
  }

  // The byte loop is handed this one byte.
  ghost predicate Sends(s: State, op: byte, u: State) {
    F.Declared(s.chan, s.dev) && Happens(Byte(op), s, u)
  }

  lemma RailTurn(s: State, op: byte, u: State)
    requires Rest(s) && Steers(op) && Sends(s, op, u)
    ensures Turned(s, op, u)
  {
    var r := Steered(s, op);
    hide F.Feed, F.Idle, F.Declared, Drained, Selects, Powers;
    SettledHonours(r, s);
  }

  // DMG mode, 5 V, power on: select and supply are high, wherever the run stood.  Power off drops
  // both; the request outlives it, and the next power on raises both again.
  lemma PowerCycle(s: seq<State>)
    requires |s| == 6 && Rest(s[0])
    requires Sends(s[0], C.SET_MODE_DMG, s[1]) && Sends(s[1], C.SET_VOLTAGE_5V, s[2])
    requires Sends(s[2], C.CART_PWR_ON, s[3]) && Sends(s[3], C.CART_PWR_OFF, s[4])
    requires Sends(s[4], C.CART_PWR_ON, s[5])
    ensures s[3].vsel && s[3].vcc && !s[4].vsel && !s[4].vcc && s[5].vsel && s[5].vcc
  {
    hide Sends, Rest;
    RailTurn(s[0], C.SET_MODE_DMG, s[1]);
    RailTurn(s[1], C.SET_VOLTAGE_5V, s[2]);
    RailTurn(s[2], C.CART_PWR_ON, s[3]);
    RailTurn(s[3], C.CART_PWR_OFF, s[4]);
    RailTurn(s[4], C.CART_PWR_ON, s[5]);
  }

  // Nothing is left pending at any boundary of any run.
  lemma NoneLeft(e: Event, s: State, u: State)
    requires F.Declared(s.chan, s.dev) && !Pending(s.dev) && Happens(e, s, u)
    ensures !Pending(u.dev)
  {
    hide F.Feed, F.Bulk, L.Routes;
  }

  lemma {:induction false} NonePending(es: seq<Event>, hist: seq<State>, i: nat)
    requires Trace(es, hist) && i < |hist| && hist[0] == State(F.Quiet, Start, false, false)
    ensures !Pending(hist[i].dev)
  {
    hide Happens, F.Declared;
    if i > 0 {
      NonePending(es, hist, i - 1);
      assert Safe(hist[i - 1]);
      NoneLeft(es[i - 1], hist[i - 1], hist[i]);
    }
  }

  // So at any point of any run where the parser is idle, these five bytes do just that.
  lemma PowerCycleInRun(es: seq<Event>, hist: seq<State>, i: nat)
    requires Trace(es, hist) && i + 5 < |hist| && hist[0] == State(F.Quiet, Start, false, false)
    requires F.Idle(hist[i].chan)
    requires es[i..i + 5] == [Byte(0xA3), Byte(0xA5), Byte(0xF2), Byte(0xF3), Byte(0xF2)]
    ensures hist[i + 3].vsel && hist[i + 3].vcc && !hist[i + 4].vsel && !hist[i + 4].vcc
    ensures hist[i + 5].vsel && hist[i + 5].vcc
  {
    hide Happens, F.Declared, F.Idle;
    NonePending(es, hist, i);
    assert Safe(hist[i]);
    var five := es[i..i + 5];
    assert es[i] == five[0] && es[i + 1] == five[1] && es[i + 2] == five[2];
    assert es[i + 3] == five[3] && es[i + 4] == five[4];
    PowerCycle(hist[i..i + 6]);
  }

  ghost predicate Trace(es: seq<Event>, hist: seq<State>)
    ensures Trace(es, hist) ==> |hist| == |es| + 1
  {
    && |hist| == |es| + 1
    && (forall i :: 0 <= i < |hist| ==> Safe(hist[i]))
    && (forall i :: 0 <= i < |es| ==> Happens(es[i], hist[i], hist[i + 1]))
  }

  lemma TraceGrows(es: seq<Event>, hist: seq<State>, e: Event, u: State)
    requires Trace(es, hist) && Safe(u) && Happens(e, hist[|es|], u)
    ensures Trace(es + [e], hist + [u])
  {
    hide Safe, Happens;
  }

  class Board {
    const p: P.Parser
    var vsel: bool        // PB21: 5 V select
    var vcc: bool         // PB_VCC_EN

    ghost predicate Valid()
      reads this, p, p.arg, p.pay
    {
      p.Valid() && (vsel ==> p.st.mode == Dmg)
    }

    ghost function Now(): State
      reads this, p, p.arg, p.pay
      requires p.Valid()
    {
      State(p.View(), p.st, vsel, vcc)
    }

    constructor ()
      ensures Valid() && fresh(p) && fresh(p.arg) && fresh(p.pay)
      ensures Now() == State(F.Quiet, Start, false, false)
    {
      p := new P.Parser();
      vsel, vcc := false, false;
    }

    // fw_cart_voltage(): 5 V needs both the request and the mode; the result says the request was
    // honoured.
    method CartVoltage(five: bool, dmg: bool) returns (honoured: bool)
      modifies `vsel
      ensures vsel == (five && dmg) && honoured == (vsel == five)
    {
      if five && dmg {
        vsel := true;
        return true;
      }
      vsel := false;
      return !five;
    }

    // fw_cart_power()
    method CartPower(on: bool)
      modifies `vsel, `vcc
      ensures vcc == on && vsel == (old(vsel) && on)
    {
      if on {
        vcc := true;
      } else {
        vcc := false;
        vsel := false;
      }
    }

    // The voltage and power drains of the main loop, in its order.
    method Drain()
      requires p.Valid()
      modifies `vsel, `vcc, p`st
      ensures p.Valid() && p.View() == old(p.View()) && p.st == Drained(old(p.st))
      ensures vsel == Selects(old(p.st), old(vsel)) && vcc == Powers(old(p.st), old(vcc))
      ensures Honoured(old(p.st), old(Now()), Now())
    {
      hide Drained, Selects, Powers, Honoured, AfterVoltage, AfterPower;
      ghost var d, was := p.st, Now();
      DrainVoltage();
      DrainPower();
      DrainedIs(d, was.vsel, was.vcc);
      SettledHonours(F.Rx(was.chan, d, []), was);
    }

    method DrainVoltage()
      requires p.Valid()
      modifies `vsel, p`st
      ensures p.Valid() && p.View() == old(p.View()) && p.st == AfterVoltage(old(p.st))
      ensures vsel == if Voltage in old(p.st.flags) then p.st.rail.five && p.st.mode == Dmg else old(vsel)
    {
      ghost var was := p.st;
      if Voltage in p.st.flags {
        var honoured := CartVoltage(p.st.rail.five, p.st.mode == Dmg);
        p.st := p.st.(flags := p.st.flags - {Voltage}, rail := p.st.rail.(isFive := honoured));
      }
      StillDeclared(p.View(), was, p.st);
    }

    method DrainPower()
      requires p.Valid()
      modifies `vsel, `vcc, p`st
      ensures p.Valid() && p.View() == old(p.View()) && p.st == AfterPower(old(p.st))
      ensures vcc == Powers(old(p.st), old(vcc))
      ensures vsel == if Power in old(p.st.flags) then vcc && p.st.rail.five && p.st.mode == Dmg else old(vsel)
    {
      ghost var was := p.st;
      if Power in p.st.flags {
        var on := p.st.rail.powerTarget;
        CartPower(on);
        p.st := p.st.(flags := p.st.flags - {Power},
                      v8 := p.st.v8[CART_POWERED := if on then 1 else 0]);
        var honoured := false;
        if on {
          honoured := CartVoltage(p.st.rail.five, p.st.mode == Dmg);
        }
        p.st := p.st.(rail := p.st.rail.(isFive := honoured));
      }
      StillDeclared(p.View(), was, p.st);
    }

    lemma DrainedIs(d: Dev, vsel: bool, vcc: bool)
      ensures Drained(d) == AfterPower(AfterVoltage(d)) && Powers(AfterVoltage(d), vcc) == Powers(d, vcc)
      ensures var e := AfterVoltage(d);
              var s := if Voltage in d.flags then e.rail.five && e.mode == Dmg else vsel;
              var f := AfterPower(e);
              Selects(d, vsel) ==
              if Power in e.flags then Powers(e, vcc) && f.rail.five && f.mode == Dmg else s
    {
    }

    method OneByte(b: byte) returns (out: seq<byte>)
      requires Valid()
      modifies this, p, p.arg, p.pay
      ensures Valid() && Happens(Byte(b), old(Now()), Now())
      ensures out == F.Feed(old(p.View()), old(p.st), b).reply
    {
      hide F.Feed, Drained;
      ghost var s := Now();
      out := p.Feed(b);
      Drain();
      StaysSafe(Byte(b), s, Now());
    }

    method OneRun(bytes: seq<byte>) returns (out: seq<byte>)
      requires Valid()
      modifies this, p, p.arg, p.pay
      ensures Valid() && Happens(Run(bytes), old(Now()), Now())
      ensures out == Bulked(old(Now()), bytes).reply
    {
      hide F.Bulk, Drained;
      ghost var s := Now();
      var n;
      out, n := p.FeedBulk(bytes);
      Drain();
      StaysSafe(Run(bytes), s, Now());
    }

    // lk_loop() may ask for either rail any number of times, but the guard in fw_lk_voltage_5v()
    // reads the parser's mode, which LK never writes.
    method LkDispatch(op: byte, rails: seq<bool>, address: nat, lastBank: nat, status: nat)
      requires Valid() && address < 0x1_0000_0000 && lastBank < 0x1_0000 && status < 0x1_0000
      modifies this, p`st
      ensures Valid()
      ensures Now() == if old(p.Idle()) && L.Routes(old(p.st.mode), op)
                       then Routed(old(Now()), rails, address, lastBank, status) else old(Now())
    {
      if p.Idle() && L.Routes(p.st.mode, op) {
        Rails(rails);
        ghost var was := p.st;
        p.st := LkVariables(p.st, address, lastBank, status);
        StillDeclared(p.View(), was, p.st);
      }
    }

    method Rails(rails: seq<bool>)
      requires Valid()
      modifies this, p`st
      ensures Valid() && p.View() == old(p.View()) && p.st == Asked(old(p.st), rails) && vcc == old(vcc)
      ensures vsel == if rails == [] then old(vsel) else rails[|rails| - 1] && p.st.mode == Dmg
    {
      for i := 0 to |rails|
        invariant Valid() && p.View() == old(p.View()) && p.st == Asked(old(p.st), rails[..i]) && vcc == old(vcc)
        invariant vsel == if i == 0 then old(vsel) else rails[i - 1] && p.st.mode == Dmg
      {
        ghost var d := p.st;
        if rails[i] {
          var applied := CartVoltage(true, p.st.mode == Dmg);
          p.st := p.st.(rail := p.st.rail.(isFive := applied));
          StillDeclared(p.View(), d, p.st);
        } else {
          vsel := false;
        }
        assert rails[..i + 1] == rails[..i] + [rails[i]];
      }
      assert rails[..|rails|] == rails;
    }

    method Happen(e: Event)
      requires Valid()
      modifies this, p, p.arg, p.pay
      ensures Valid() && Happens(e, old(Now()), Now())
    {
      hide F.Feed, F.Bulk, Drained, Routed, L.Routes;
      match e
      case Byte(b) => var _ := OneByte(b);
      case Run(bytes) => var _ := OneRun(bytes);
      case LkCommand(op, rails, address, lastBank, status) =>
        LkDispatch(op, rails, address % 0x1_0000_0000, lastBank % 0x1_0000, status % 0x1_0000);
      case Dropped =>
        p.Reset();
    }

    // One event, and the record of the run one state longer.
    method Log(e: Event, ghost es: seq<Event>, ghost was: seq<State>) returns (ghost hist: seq<State>)
      requires Valid() && Trace(es, was) && was[|es|] == Now()
      modifies this, p, p.arg, p.pay
      ensures Valid() && hist == was + [Now()] && Trace(es + [e], hist)
    {
      hide Happens, Drained;
      Happen(e);
      TraceGrows(es, was, e, Now());
      hist := was + [Now()];
    }
  }

  // Any stream of bytes, in any pieces, with anything between them: each event does what Happens
  // says, and at every boundary the select is high only in DMG mode.
  method AnyRun(es: seq<Event>) returns (m: Board, ghost hist: seq<State>)
    ensures m.Valid() && Trace(es, hist)
    ensures hist[0] == State(F.Quiet, Start, false, false) && hist[|es|] == m.Now()
  {
    hide Trace, Happens, Safe;
    m := new Board();
    hist := [m.Now()];
    TraceStarts(m.Now());
    assert es[..0] == [];
    for i := 0 to |es|
      invariant m.Valid() && fresh(m) && fresh(m.p) && fresh(m.p.arg) && fresh(m.p.pay)
      invariant |hist| == i + 1 && hist[0] == State(F.Quiet, Start, false, false) && hist[i] == m.Now()
      invariant Trace(es[..i], hist)
    {
      hist := m.Log(es[i], es[..i], hist);
      assert es[..i + 1] == es[..i] + [es[i]];
    }
    assert es[..|es|] == es;
  }

  lemma TraceStarts(s: State)
    requires F.Declared(s.chan, s.dev) && !s.vsel
    ensures Trace([], [s])
  {
  }
}
