/** R8_UEP2_CTRL is written by two parties without a lock: software owns the response and AUTO_TOG
    bits, the SIE flips a toggle when it accepts a transaction.  uep2_ctrl_rmw() reads, modifies
    and writes the byte, notices a transaction that fell across the store, and repairs the toggle.
    The SIE's transaction may complete before any register access here, or never. */
module Ep2Ctrl {

  // The byte: its two toggle bits, and which of the others, numbered 0 to 5, are set.
  datatype Ctrl = Ctrl(rTog: bool, tTog: bool, soft: set<nat>)

  // R8_USB_INT_ST as far as the driver decodes it: an OUT on endpoint 2 and its TOG_OK bit, an IN
  // on endpoint 2, or a transaction elsewhere.
  datatype Token = Out(togOk: bool) | In | Elsewhere

  // (ctrl & ~clear) | bits, the masks naming software bits only.
  function Merge(ctrl: Ctrl, clear: set<nat>, bits: set<nat>): Ctrl {
    ctrl.(soft := ctrl.soft - clear + bits)
  }

  // AUTO_TOG: an accepted transaction flips its toggle, a retransmission or endpoint 0 none.
  function Flip(ctrl: Ctrl, t: Token): Ctrl {
    match t
    case Out(togOk) => if togOk then ctrl.(rTog := !ctrl.rTog) else ctrl
    case In => ctrl.(tTog := !ctrl.tTog)
    case Elsewhere => ctrl
  }

  class Sie {
    var ctrl: Ctrl         // R8_UEP2_CTRL
    var flag: bool         // RB_UIF_TRANSFER; while it is set the SIE is held off
    var st: Token          // latched with the flag
    var next: Token        // the transaction in progress, if pending
    var accesses: nat      // register accesses left before it completes
    var pending: bool
    ghost var rTog: bool   // the toggles the SIE goes by, whatever is written to the byte
    ghost var tTog: bool

    constructor (ctrl: Ctrl, flag: bool, next: Token, accesses: nat, pending: bool)
      ensures this.ctrl == ctrl && this.flag == flag && InStep()
      ensures this.next == next && this.accesses == accesses && this.pending == pending
    {
      this.ctrl, this.flag, st := ctrl, flag, Elsewhere;
      this.next, this.accesses, this.pending := next, accesses, pending;
      rTog, tTog := ctrl.rTog, ctrl.tTog;
    }

    ghost predicate InStep()
      reads this
    {
      ctrl.rTog == rTog && ctrl.tTog == tTog
    }

    // The toggles that follow the transaction in progress.
    ghost predicate Followed(r: bool, t: bool)
      reads this
    {
      Ctrl(rTog, tTog, {}) == Flip(Ctrl(r, t, {}), next)
    }

    // Time passes before an access: the transaction may complete here.
    method Elapse()
      modifies this
      ensures next == old(next)
      ensures if old(pending && !flag && accesses == 0)
              then flag && !pending && st == next && ctrl == Flip(old(ctrl), next)
                   && Followed(old(rTog), old(tTog))
              else flag == old(flag) && st == old(st) && pending == old(pending)
                   && ctrl == old(ctrl) && rTog == old(rTog) && tTog == old(tTog)
    {
      if pending && !flag {
        if accesses == 0 {
          flag, st, pending := true, next, false;
          ctrl := Flip(ctrl, next);
          rTog := if next == Out(true) then !rTog else rTog;
          tTog := if next == In then !tTog else tTog;
        } else {
          accesses := accesses - 1;
        }
      }
    }

    // uep2_ctrl_rmw(): the byte ends with the requested software bits and the SIE's own toggles,
    // wherever the transaction fell.
    method Rmw(clear: set<nat>, bits: set<nat>)
      requires InStep()
      modifies this
      ensures InStep() && ctrl.soft == old(ctrl.soft) - clear + bits
      ensures if old(pending) && !pending then flag && Followed(old(rTog), old(tTog))
              else flag == old(flag) && rTog == old(rTog) && tTog == old(tTog)
    {
      var pass := 0;
      while pass < 2
        invariant InStep() && ctrl.soft == old(ctrl.soft) && next == old(next)
        invariant pass == 0 || (pass == 1 && flag)
        invariant if pending == old(pending) then flag == old(flag) && rTog == old(rTog) && tTog == old(tTog)
                  else old(pending) && flag && Followed(old(rTog), old(tTog))
      {
        Elapse();
        if flag {
          Elapse();
          var held := ctrl;
          Elapse();
          ctrl := Merge(held, clear, bits);
          return;
        }
        Elapse();
        var was := ctrl;
        Elapse();
        if flag {
          pass := pass + 1;
          continue;
        }
        Elapse();
        var val := Merge(was, clear, bits);
        ctrl := val;
        Elapse();
        if !flag {
          return;
        }
        Elapse();
        var tok := st;
        Elapse();
        match tok {
          case Out(togOk) =>
            if togOk {
              ctrl := val.(rTog := !val.rTog);
            }
          case In =>
            ctrl := val.(tTog := !val.tTog);
          case Elsewhere =>
        }
        return;
      }
      assert false;
    }
  }

  // Where one transaction can fall around an unguarded read-modify-write.
  datatype Moment = BeforeRead | BeforeStore | AfterStore

  function Unguarded(ctrl: Ctrl, clear: set<nat>, bits: set<nat>, t: Token, at: Moment): Ctrl {
    match at
    case BeforeRead => Merge(Flip(ctrl, t), clear, bits)
    case BeforeStore => Merge(ctrl, clear, bits)
    case AfterStore => Flip(Merge(ctrl, clear, bits), t)
  }

  // What the repair is for: without it the byte is wrong exactly when a transaction that moves a
  // toggle falls between the read and the store.
  lemma UnguardedFailsBetween(ctrl: Ctrl, clear: set<nat>, bits: set<nat>, t: Token, at: Moment)
    ensures Unguarded(ctrl, clear, bits, t, at) == Flip(Merge(ctrl, clear, bits), t)
            <==> at != BeforeStore || t == Elsewhere || t == Out(false)
  {
    match at
    case BeforeRead => assert Merge(Flip(ctrl, t), clear, bits) == Flip(Merge(ctrl, clear, bits), t);
    case _ =>
  }
}
