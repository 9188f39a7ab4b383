/** src/lk_glue.c: some DMG opcodes leave the byte stream before the parser and run in a second
    dispatcher that pulls its own input.  What it was handed of the receive batch, what it reads
    ahead to decide on admission, and what it takes from the endpoint must add up to the frame the
    command table declares, or the parser's next byte is the middle of something. */
module LkSeam {
  import opened Bytes
  import opened Device
  import C = Commands

  const FILL: byte := 0xFF         // FW_LK_RECV_FILL
  const LK_OK: byte := 1           // LK_STATUS_OK
  const LK_ERROR: byte := 2        // LK_STATUS_ERROR
  const DATA_BUFFER := 0x1000      // sizeof(data_buffer)
  const FLASHCMD_N := 32           // elements of _lk_flashcmd_addr
  const BATCH_BASE := 16           // FW_LK_BATCH_BASE
  const BATCH_ADMIT := 16          // min(FLASHCMD_N - BATCH_BASE, FW_BATCH_MAX)
  const HEADER := 2                // FW_LK_BATCH_HDR
  const SCRATCH := 16              // lk_refuse()'s buffer

  // The 0xFF-padded view a reader gets of what is there.
  function Padded(q: seq<byte>, want: nat): (s: seq<byte>)
    ensures |s| == want
  {
    if |q| >= want then q[..want] else q + seq(want - |q|, _ => FILL)
  }

  // Every byte that came, then 0xFF, which no admitted batch has for a count.
  lemma PaddedAt(q: seq<byte>, want: nat, i: nat)
    requires i < want
    ensures Padded(q, want)[i] == if i < |q| then q[i] else 0xFF
    ensures BATCH_ADMIT < Padded([], want)[i]
  {
  }

  predicate SavePayload(op: byte) {
    op in {C.DMG_CART_WRITE_SRAM, C.DMG_MBC7_WRITE_EEPROM, C.DMG_MBC6_MMSA_WRITE_FLASH, C.DMG_EEPROM_WRITE}
  }

  // fw_lk_routes(), as shipped: DMG only, without the ROM read.
  predicate Routes(mode: Mode, op: byte) {
    mode == Dmg
    && (op in {C.DMG_CART_WRITE, C.DMG_MBC_RESET, 0xB5, C.DMG_FLASH_WRITE_BYTE, C.CART_WRITE_FLASH_CMD}
        || SavePayload(op))
  }

  // LK is handed nothing outside DMG mode, and of the DMG opcodes neither reads nor program blocks.
  lemma RoutesAre(mode: Mode, op: byte)
    ensures Routes(mode, op) <==> mode == Dmg && (0xB2 <= op <= 0xB7 || op in {0xB9, 0xD1, 0xD4})
    ensures op in {C.FLASH_PROGRAM, C.DMG_CART_READ, C.AGB_CART_READ_3D_MEMORY} ==> !Routes(mode, op)
  {
  }

  class Seam {
    // the rest of the receive batch
    var pend: seq<byte>
    var pendUsed: nat
    // header bytes read ahead and handed back
    var push: seq<byte>
    var pushUsed: nat
    var recvShort: bool
    var sendStall: bool

    // The endpoint: bytes that come in time, then what comes after each pause longer than
    // FW_PARSER_TIMEOUT_MS; bl_usb_rx() returns at most pace + 1 of them at once.
    var burst: seq<byte>
    var later: seq<seq<byte>>
    const pace: nat
    ghost var taken: nat         // endpoint bytes taken in this dispatch

    // The transmitter takes this many more bytes before FW_TX_STALL_MS passes without one.
    var room: nat
    var sent: seq<byte>

    // what lk_loop() leaves behind
    const cmdAddr: array<nat>
    const cmdVal: array<nat>
    const dataBuffer: array<byte>
    var cartWrites: seq<(nat, byte)>
    var lkCalls: nat

    ghost predicate Valid()
      reads this
    {
      && pendUsed <= |pend| && pushUsed <= |push| <= HEADER
      && (pendUsed < |pend| ==> taken == 0)
      && cmdAddr.Length == FLASHCMD_N && cmdVal.Length == FLASHCMD_N && dataBuffer.Length == DATA_BUFFER
      && cmdAddr != cmdVal
    }

    // Everything the receive path still has before it would time out.
    ghost function Ahead(): seq<byte>
      reads this
      requires pendUsed <= |pend| && pushUsed <= |push|
    {
      push[pushUsed..] + pend[pendUsed..] + burst
    }

    // How far into batch and endpoint the readers are, not counting what was handed back.
    ghost function Consumed(): int
      reads this
    {
      pendUsed + taken - (|push| - pushUsed)
    }

    constructor (burst: seq<byte>, later: seq<seq<byte>>, pace: nat, room: nat)
      ensures Valid() && fresh(cmdAddr) && fresh(cmdVal) && fresh(dataBuffer)
      ensures this.burst == burst && this.later == later && this.pace == pace && this.room == room
      ensures sent == [] && cartWrites == [] && lkCalls == 0
    {
      pend, pendUsed, push, pushUsed, recvShort, sendStall := [], 0, [], 0, false, false;
      this.burst, this.later, this.pace, this.room := burst, later, pace, room;
      taken, sent, cartWrites, lkCalls := 0, [], [], 0;
      cmdAddr := new nat[FLASHCMD_N](_ => 0);
      cmdVal := new nat[FLASHCMD_N](_ => 0);
      dataBuffer := new byte[DATA_BUFFER](_ => 0);
    }

    method FromPush(want: nat) returns (data: seq<byte>)
      requires Valid()
      modifies `pushUsed
      ensures Valid() && old(pushUsed) <= pushUsed && data == push[old(pushUsed)..pushUsed]
      ensures |data| == want || (|data| < want && pushUsed == |push|)
      ensures pushUsed == Min(|push|, old(pushUsed) + want)
    {
      data := [];
      while |data| < want && pushUsed < |push|
        invariant old(pushUsed) <= pushUsed <= |push| && |data| <= want
        invariant data == push[old(pushUsed)..pushUsed]
        decreases |push| - pushUsed
      {
        data := data + [push[pushUsed]];
        pushUsed := pushUsed + 1;
      }
    }

    method FromPend(want: nat) returns (data: seq<byte>)
      requires Valid()
      modifies `pendUsed
      ensures Valid() && old(pendUsed) <= pendUsed && data == pend[old(pendUsed)..pendUsed]
      ensures |data| == want || (|data| < want && pendUsed == |pend|)
    {
      data := [];
      while |data| < want && pendUsed < |pend|
        invariant old(pendUsed) <= pendUsed <= |pend| && |data| <= want
        invariant data == pend[old(pendUsed)..pendUsed]
        decreases |pend| - pendUsed
      {
        data := data + [pend[pendUsed]];
        pendUsed := pendUsed + 1;
      }
    }

    // bl_usb_rx() until there is enough or nothing has come for too long.
    method FromEndpoint(want: nat) returns (data: seq<byte>)
      requires Valid() && pendUsed == |pend|
      modifies `burst, `taken
      ensures Valid() && data + burst == old(burst) && taken == old(taken) + |data|
      ensures |data| == want || (|data| < want && burst == [])
    {
      data := [];
      while |data| < want && burst != []
        invariant |data| <= want && data + burst == old(burst) && taken == old(taken) + |data|
        decreases |burst|
      {
        var k := Min(Min(want - |data|, |burst|), pace + 1);
        assert burst == burst[..k] + burst[k..];
        data := data + burst[..k];
        burst, taken := burst[k..], taken + k;
      }
    }

    static lemma Prefix(data: seq<byte>, rest: seq<byte>, want: nat)
      requires |data| == want
      ensures Padded(data + rest, want) == data && (data + rest)[want..] == rest
    {
    }

    // Two sources, the first read to its end before the second is touched.
    static lemma InTurn(a: seq<byte>, x: seq<byte>, b: seq<byte>, y: seq<byte>, z: seq<byte>)
      requires x == [] || b == []
      ensures (a + b) + (x + y + z) == (a + x) + (b + y) + z
    {
    }

    method FromBatch(want: nat) returns (data: seq<byte>)
      requires Valid()
      modifies `pendUsed, `pushUsed
      ensures Valid() && data + Ahead() == old(Ahead()) && pushUsed == Min(|push|, old(pushUsed) + want)
      ensures Consumed() == old(Consumed()) + |data|
      ensures |data| == want || (|data| < want && pendUsed == |pend| && pushUsed == |push|)
    {
      ghost var x, y := push[pushUsed..], pend[pendUsed..];
      var a := FromPush(want);
      assert x == a + push[pushUsed..];
      var b := FromPend(want - |a|);
      assert y == b + pend[pendUsed..];
      InTurn(a, push[pushUsed..], b, pend[pendUsed..], burst);
      data := a + b;
    }

    // fw_lk_conn_recv(): handed-back bytes first, then the batch, then the endpoint.  A reader that
    // waited in vain gets fill, never the previous command's bytes.
    method Recv(want: nat) returns (data: seq<byte>)
      requires Valid()
      modifies `pendUsed, `pushUsed, `burst, `later, `taken, `recvShort
      ensures Valid() && data == Padded(old(Ahead()), want) && pushUsed == Min(|push|, old(pushUsed) + want)
      ensures recvShort == (old(recvShort) || want > |old(Ahead())|)
      ensures if want <= |old(Ahead())| then
                Ahead() == old(Ahead())[want..] && Consumed() == old(Consumed()) + want && later == old(later)
              else pushUsed == |push| && pendUsed == |pend|
    {
      ghost var q := Ahead();
      data := FromBatch(want);
      if |data| >= want {
        Prefix(data, Ahead(), want);
        return;
      }
      assert Ahead() == burst;
      var c := FromEndpoint(want - |data|);
      assert q == (data + c) + burst;
      data := data + c;
      if |data| < want {
        assert data == q;
        recvShort := true;
        data := data + seq(want - |data|, _ => FILL);
        if later != [] {
          burst, later := later[0], later[1..];
        }
      } else {
        assert Ahead() == burst;
        Prefix(data, burst, want);
      }
    }

    // conn_send_raw() of one byte.
    method SendRaw(b: byte)
      modifies `room, `sent, `sendStall
      ensures if old(room) > 0 then sent == old(sent) + [b] && room == old(room) - 1 && sendStall == old(sendStall)
              else sent == old(sent) && room == 0 && sendStall
    {
      if room > 0 {
        sent, room := sent + [b], room - 1;
      } else {
        sendStall := true;
      }
    }

    // fw_lk_conn_send_byte(): quiet once input was cut short or the transmitter stalled.
    method Send(b: byte)
      modifies `room, `sent, `sendStall
      ensures if old(recvShort || sendStall) then sent == old(sent) && room == old(room) && sendStall == old(sendStall)
              else if old(room) > 0 then sent == old(sent) + [b] && room == old(room) - 1 && !sendStall
              else sent == old(sent) && room == 0 && sendStall
    {
      if recvShort || sendStall {
        return;
      }
      SendRaw(b);
    }

    // One byte to the host, if the transmitter still takes any.
    ghost predicate Answered(before: seq<byte>, wasRoom: nat, b: byte)
      reads `sent, `room
    {
      if wasRoom > 0 then sent == before + [b] && room == wasRoom - 1 else sent == before && room == 0
    }

    // lk_refuse(): consume what the host declared, sixteen bytes at a time, then one error byte.
    method Refuse(drain: nat)
      requires Valid()
      modifies `pendUsed, `pushUsed, `burst, `later, `taken, `recvShort, `room, `sent, `sendStall
      ensures Valid() && recvShort == (old(recvShort) || drain > |old(Ahead())|)
      ensures !recvShort ==> Ahead() == old(Ahead())[drain..] && Consumed() == old(Consumed()) + drain
                             && later == old(later)
      ensures Answered(old(sent), old(room), ACK_ERROR)
    {
      hide Padded;
      ghost var q := Ahead();
      var left: nat := drain;
      while left != 0 && !recvShort
        invariant Valid() && left <= drain && (old(recvShort) ==> recvShort)
        invariant room == old(room) && sent == old(sent)
        invariant if recvShort then old(recvShort) || drain > |q|
                  else drain - left <= |q| && Ahead() == q[drain - left..] && later == old(later)
                       && Consumed() == old(Consumed()) + drain - left
        decreases left
      {
        var k: nat := if left > SCRATCH then SCRATCH else left;
        Skip(q, drain - left, k);
        var scratch := Recv(k);
        left := left - k;
      }
      SendRaw(ACK_ERROR);
    }

    static lemma Skip(q: seq<byte>, i: nat, k: nat)
      ensures i + k <= |q| ==> q[i..][k..] == q[i + k..]
    {
    }

    ghost predicate Fresh()
      reads this
    {
      Valid() && pendUsed == 0 && push == [] && taken == 0 && !recvShort && !sendStall
    }

    static lemma Header(q: seq<byte>)
      ensures |q| >= HEADER ==> Padded(q, HEADER) == [q[0], q[1]] && q == [q[0], q[1]] + q[HEADER..]
      ensures |q| < HEADER ==> Padded(q, HEADER)[1] == FILL
    {
    }

    // lk_admit(): refuse what LK.c would store out of range; keep the header it had to read.
    method Admit(transferSize: nat, op: byte) returns (ok: bool)
      requires Fresh()
      modifies `pendUsed, `push, `pushUsed, `burst, `later, `taken, `recvShort, `room, `sent, `sendStall
      ensures Valid()
      ensures ok == Admits(transferSize, op, old(Ahead()))
      ensures ok ==> !recvShort && !sendStall && Ahead() == old(Ahead()) && Consumed() == 0 && later == old(later)
                     && room == old(room) && sent == old(sent)
      ensures ok && op != C.CART_WRITE_FLASH_CMD ==> push == []
      ensures !ok && !recvShort ==> push == [] && Consumed() == Declared(transferSize, op, old(Ahead()))
                                    && Consumed() <= |old(Ahead())| && Ahead() == old(Ahead())[Consumed()..]
                                    && later == old(later)
      ensures !ok && recvShort ==> |old(Ahead())| < Declared(transferSize, op, old(Ahead()))
      ensures !ok ==> Answered(old(sent), old(room), ACK_ERROR)
    {
      if SavePayload(op) {
        if transferSize > DATA_BUFFER {
          Refuse(transferSize);
          return false;
        }
        return true;
      }
      if op != C.CART_WRITE_FLASH_CMD {
        return true;
      }
      ok := AdmitFlash(transferSize, op);
    }

    // The header tells how many pairs there are.
    method AdmitFlash(transferSize: nat, op: byte) returns (ok: bool)
      requires Fresh() && op == C.CART_WRITE_FLASH_CMD && !SavePayload(op)
      modifies `pendUsed, `push, `pushUsed, `burst, `later, `taken, `recvShort, `room, `sent, `sendStall
      ensures Valid()
      ensures ok == Admits(transferSize, op, old(Ahead()))
      ensures ok ==> !recvShort && !sendStall && Ahead() == old(Ahead()) && Consumed() == 0 && later == old(later)
                     && room == old(room) && sent == old(sent)
      ensures ok && op != C.CART_WRITE_FLASH_CMD ==> push == []
      ensures !ok && !recvShort ==> push == [] && Consumed() == Declared(transferSize, op, old(Ahead()))
                                    && Consumed() <= |old(Ahead())| && Ahead() == old(Ahead())[Consumed()..]
                                    && later == old(later)
      ensures !ok && recvShort ==> |old(Ahead())| < Declared(transferSize, op, old(Ahead()))
      ensures !ok ==> Answered(old(sent), old(room), ACK_ERROR)
    {
      ghost var q := Ahead();
      hide Padded;
      var hdr := Recv(HEADER);
      Header(q);
      if !recvShort && hdr[1] <= BATCH_ADMIT {
        push, pushUsed := [hdr[0], hdr[1]], 0;
        return true;
      }
      var drain := (hdr[1] as nat) * 6;
      Skip(q, HEADER, drain);
      Refuse(drain);
      return false;
    }

    // LK's receive primitives.
    method RxByte() returns (b: byte)
      requires Valid()
      modifies `pendUsed, `pushUsed, `burst, `later, `taken, `recvShort
      ensures Valid() && b == Padded(old(Ahead()), 1)[0] && pushUsed == Min(|push|, old(pushUsed) + 1)
      ensures recvShort == (old(recvShort) || 1 > |old(Ahead())|)
      ensures 1 <= |old(Ahead())| ==>
                Ahead() == old(Ahead())[1..] && Consumed() == old(Consumed()) + 1 && later == old(later)
    {
      var t := Recv(1);
      b := t[0];
    }

    method RxPair() returns (a: nat, v: nat)
      requires Valid()
      modifies `pendUsed, `pushUsed, `burst, `later, `taken, `recvShort
      ensures Valid() && (old(recvShort) ==> recvShort) && pushUsed >= old(pushUsed)
      ensures !recvShort ==> 6 <= |old(Ahead())| && a == Long(old(Ahead()), 0)
                             && v == Word(old(Ahead())[4], old(Ahead())[5])
                             && Ahead() == old(Ahead())[6..] && Consumed() == old(Consumed()) + 6
                             && later == old(later)
      ensures recvShort && !old(recvShort) ==> |old(Ahead())| < 6
    {
      ghost var q := Ahead();
      var x := Recv(4);
      ghost var r := Ahead();
      var y := Recv(2);
      Skip(q, 4, 2);
      a, v := Long(x, 0), Word(y[0], y[1]);
    }

    // The LK_STATUS_OK at the end of a command: withheld once its input was cut short.
    method Status(b: byte)
      requires !sendStall
      modifies `room, `sent, `sendStall
      ensures if recvShort then sent == old(sent) && !sendStall && room == old(room)
              else Answered(old(sent), old(room), b)
    {
      Send(b);
    }

    // CART_WRITE_FLASH_CMD: LK stores pair x at x + 16 with no bound of its own.
    method WriteFlashCmd()
      requires Valid() && !recvShort && !sendStall
      requires |Ahead()| >= HEADER && Ahead()[1] <= BATCH_ADMIT
      modifies `pendUsed, `pushUsed, `burst, `later, `taken, `recvShort, `room, `sent, `sendStall, cmdAddr, cmdVal
      ensures Valid() && pushUsed == |push|
      ensures var q, n := old(Ahead()), old(Ahead()[1]) as nat;
              if HEADER + 6 * n <= |q| then
                !recvShort && Ahead() == q[HEADER + 6 * n..] && later == old(later) && Consumed() == old(Consumed()) + HEADER + 6 * n
                && Stored(q, n) && Answered(old(sent), old(room), LK_OK)
              else recvShort && sent == old(sent) && room == old(room) && !sendStall
    {
      hide Stored;
      ghost var q := Ahead();
      StoredNone(q);
      var flash := RxByte();
      var num := RxByte();
      Skip(q, 1, 1);
      TakePairs(q, num, Consumed());
      Status(LK_OK);
    }

    // The loop over the pairs, with the two header bytes behind it.
    method TakePairs(ghost q: seq<byte>, num: byte, ghost at: int)
      requires Valid() && pushUsed == |push| && !recvShort && !sendStall && num <= BATCH_ADMIT
      requires |q| >= HEADER && Ahead() == q[HEADER..] && Consumed() == at && Stored(q, 0)
      modifies `pendUsed, `pushUsed, `burst, `later, `taken, `recvShort, cmdAddr, cmdVal
      ensures Valid() && pushUsed == |push|
      ensures if HEADER + 6 * num as nat <= |q| then
                !recvShort && Ahead() == q[HEADER + 6 * num as nat..] && later == old(later)
                && Consumed() == at + 6 * num as nat && Stored(q, num as nat)
              else recvShort
    {
      hide Stored, Ahead, Consumed;
      var x := 0;
      while x < num
        invariant Valid() && x <= num && pushUsed == |push|
        invariant if recvShort then HEADER + 6 * num as nat > |q|
                  else HEADER + 6 * x as nat <= |q| && Ahead() == q[HEADER + 6 * x as nat..]
                       && Consumed() == at + 6 * x as nat
        invariant !recvShort ==> Stored(q, x as nat) && later == old(later)
      {
        OnePair(q, x as nat);
        x := x + 1;
      }
    }

    method OnePair(ghost q: seq<byte>, x: nat)
      requires Valid() && BATCH_BASE + x < FLASHCMD_N
      requires !recvShort ==> HEADER + 6 * x <= |q| && Ahead() == q[HEADER + 6 * x..] && Stored(q, x)
      modifies `pendUsed, `pushUsed, `burst, `later, `taken, `recvShort, cmdAddr, cmdVal
      ensures Valid() && pushUsed >= old(pushUsed) && (old(recvShort) ==> recvShort)
      ensures if recvShort then old(recvShort) || HEADER + 6 * x + 6 > |q|
              else HEADER + 6 * x + 6 <= |q| && Ahead() == q[HEADER + 6 * x + 6..] && Stored(q, x + 1)
                   && Consumed() == old(Consumed()) + 6 && later == old(later)
    {
      ghost var at := HEADER + 6 * x;
      var a, v := RxPair();
      Skip(q, at, 6);
      assert !recvShort ==> q[at..][0..6] == q[at..at + 6];
      assert !recvShort ==> a == PairAddr(q, x) && v == PairVal(q, x);
      StorePair(q, x, a, v);
    }

    method StorePair(ghost q: seq<byte>, x: nat, a: nat, v: nat)
      requires cmdAddr.Length == FLASHCMD_N && cmdVal.Length == FLASHCMD_N && cmdAddr != cmdVal
      requires BATCH_BASE + x < FLASHCMD_N
      modifies cmdAddr, cmdVal
      ensures old(Stored(q, x)) && HEADER + 6 * x + 6 <= |q| && a == PairAddr(q, x) && v == PairVal(q, x) ==>
                Stored(q, x + 1)
    {
      cmdAddr[BATCH_BASE + x] := a;
      cmdVal[BATCH_BASE + x] := v;
    }

    lemma StoredNone(q: seq<byte>)
      requires Valid() && |q| >= HEADER
      ensures Stored(q, 0)
    {
    }

    ghost predicate Stored(q: seq<byte>, n: nat)
      reads cmdAddr, cmdVal
    {
      && cmdAddr.Length == FLASHCMD_N && cmdVal.Length == FLASHCMD_N
      && BATCH_BASE + n <= FLASHCMD_N && HEADER + 6 * n <= |q|
      && (forall x :: 0 <= x < n ==> cmdAddr[BATCH_BASE + x] == PairAddr(q, x))
      && (forall x :: 0 <= x < n ==> cmdVal[BATCH_BASE + x] == PairVal(q, x))
    }

    // DMG_CART_WRITE.
    method CartWrite()
      requires Valid() && !recvShort && !sendStall
      modifies `pendUsed, `pushUsed, `burst, `later, `taken, `recvShort, `room, `sent, `sendStall, `cartWrites
      ensures Valid()
      ensures var q := old(Ahead());
              if 5 <= |q| then
                !recvShort && Ahead() == q[5..] && later == old(later) && Consumed() == old(Consumed()) + 5
                && cartWrites == old(cartWrites) + [(Long(q, 0), q[4])] && Answered(old(sent), old(room), LK_OK)
              else recvShort && sent == old(sent) && room == old(room) && !sendStall
    {
      ghost var q := Ahead();
      var x := Recv(4);
      var data := RxByte();
      Skip(q, 4, 1);
      cartWrites := cartWrites + [(Long(x, 0), data)];
      Status(LK_OK);
    }

    // DMG_CART_WRITE_SRAM: TRANSFER_SIZE bytes into data_buffer, unchecked there.
    method CartWriteSram(n: nat)
      requires Valid() && !recvShort && !sendStall && n <= DATA_BUFFER
      modifies `pendUsed, `pushUsed, `burst, `later, `taken, `recvShort, `room, `sent, `sendStall, dataBuffer
      ensures Valid()
      ensures var q := old(Ahead());
              if n <= |q| then
                !recvShort && Ahead() == q[n..] && later == old(later) && Consumed() == old(Consumed()) + n
                && dataBuffer[..n] == q[..n] && Answered(old(sent), old(room), LK_OK)
              else recvShort && sent == old(sent) && room == old(room) && !sendStall
    {
      ghost var q := Ahead();
      var x := Recv(n);
      forall i | 0 <= i < n { dataBuffer[i] := x[i]; }
      assert dataBuffer[..n] == x;
      Status(LK_OK);
    }

    // lk_loop() for the commands modelled here; anything else it does not know.
    method LkLoop(op: byte, transferSize: nat)
      requires Valid() && !recvShort && !sendStall && Admits(transferSize, op, Ahead())
      modifies `pendUsed, `pushUsed, `burst, `later, `taken, `recvShort, `room, `sent, `sendStall, `cartWrites,
               `lkCalls, cmdAddr, cmdVal, dataBuffer
      ensures Valid() && lkCalls == old(lkCalls) + 1
      ensures op == C.CART_WRITE_FLASH_CMD ==> pushUsed == |push|
      ensures Modelled(op) ==>
                var n := Declared(transferSize, op, old(Ahead()));
                if n <= |old(Ahead())| then
                  !recvShort && Ahead() == old(Ahead())[n..] && later == old(later) && Consumed() == old(Consumed()) + n
                  && Answered(old(sent), old(room), LK_OK) && Carried(op, n, old(Ahead()), old(cartWrites))
                else recvShort && sent == old(sent) && room == old(room) && !sendStall
    {
      lkCalls := lkCalls + 1;
      if op == C.CART_WRITE_FLASH_CMD {
        WriteFlashCmd();
      } else if op == C.DMG_CART_WRITE {
        CartWrite();
      } else if op == C.DMG_CART_WRITE_SRAM {
        CartWriteSram(transferSize);
      } else {
        Send(LK_ERROR);
      }
    }

    // The command's effect, in terms of the n bytes of its frame.
    ghost predicate Carried(op: byte, n: nat, q: seq<byte>, writes: seq<(nat, byte)>)
      reads this, cmdAddr, cmdVal, dataBuffer
      requires n <= |q|
    {
      if op == C.CART_WRITE_FLASH_CMD then n >= HEADER && Stored(q, (n - HEADER) / 6)
      else if op == C.DMG_CART_WRITE then n == 5 && cartWrites == writes + [(Long(q, 0), q[4])]
      else n <= dataBuffer.Length && dataBuffer[..n] == q[..n]
    }

    // fw_lk_dispatch(): returns how many bytes of the batch's tail are used up.
    method Dispatch(op: byte, transferSize: nat, tail: seq<byte>) returns (used: nat, ghost q: seq<byte>)
      requires Valid()
      modifies this, cmdAddr, cmdVal, dataBuffer
      ensures Valid() && used <= |tail| && q == tail + old(burst)
      // a command over LK's bounds never reaches it
      ensures lkCalls == old(lkCalls) + if Admits(transferSize, op, q) then 1 else 0
      // with complete input, used plus what came from the endpoint is the declared frame
      ensures Followed(transferSize, op, q) && Declared(transferSize, op, q) <= |q| ==>
                used == Min(Declared(transferSize, op, q), |tail|)
                && burst == old(burst)[Declared(transferSize, op, q) - used..] && later == old(later)
      // one status byte, an error if refused or cut short
      ensures Followed(transferSize, op, q) ==> Answered(old(sent), old(room), Verdict(transferSize, op, q))
      ensures Modelled(op) && Verdict(transferSize, op, q) == LK_OK ==>
                Carried(op, Declared(transferSize, op, q), q, old(cartWrites))
    {
      hide Padded, Carried, Declared, Admits, Followed, Verdict, Answered;
      pend, pendUsed, push, pushUsed, taken := tail, 0, [], 0, 0;
      recvShort, sendStall := false, false;
      q := tail + burst;
      assert Ahead() == q;
      Carry(op, transferSize);
      used := pendUsed;
      ghost var n := Declared(transferSize, op, q);
      assert Followed(transferSize, op, q) && n <= |q| ==>
               used == Min(n, |tail|) && burst == old(burst)[n - used..] by {
        Settle(tail, old(burst), n);
      }
    }

    method Carry(op: byte, transferSize: nat)
      requires Fresh()
      modifies `pendUsed, `push, `pushUsed, `burst, `later, `taken, `recvShort, `room, `sent, `sendStall,
               `cartWrites, `lkCalls, cmdAddr, cmdVal, dataBuffer
      ensures Valid()
      ensures lkCalls == old(lkCalls) + if Admits(transferSize, op, old(Ahead())) then 1 else 0
      ensures Followed(transferSize, op, old(Ahead())) && Declared(transferSize, op, old(Ahead())) <= |old(Ahead())| ==>
                pushUsed == |push| && Consumed() == Declared(transferSize, op, old(Ahead()))
                && Ahead() == old(Ahead())[Consumed()..] && later == old(later)
      ensures Followed(transferSize, op, old(Ahead())) ==>
                Answered(old(sent), old(room), Verdict(transferSize, op, old(Ahead())))
      ensures Modelled(op) && Verdict(transferSize, op, old(Ahead())) == LK_OK ==>
                Carried(op, Declared(transferSize, op, old(Ahead())), old(Ahead()), old(cartWrites))
    {
      hide Padded, Carried, Declared, Admits, Ahead, Consumed;
      ghost var q := Ahead();
      var ok := Admit(transferSize, op);
      if ok {
        Admitted(op, transferSize, q);
      }
    }

    // lk_loop(), and an error if it ran out of input.
    method Admitted(op: byte, transferSize: nat, ghost q: seq<byte>)
      requires Valid() && !recvShort && !sendStall && Admits(transferSize, op, q) && Ahead() == q && Consumed() == 0
      requires op != C.CART_WRITE_FLASH_CMD ==> push == []
      modifies `pendUsed, `pushUsed, `burst, `later, `taken, `recvShort, `room, `sent, `sendStall,
               `cartWrites, `lkCalls, cmdAddr, cmdVal, dataBuffer
      ensures Valid() && lkCalls == old(lkCalls) + 1
      ensures Modelled(op) && Declared(transferSize, op, q) <= |q| ==>
                pushUsed == |push| && Consumed() == Declared(transferSize, op, q)
                && Ahead() == q[Consumed()..] && later == old(later)
      ensures Modelled(op) ==> Answered(old(sent), old(room), Verdict(transferSize, op, q))
      ensures Modelled(op) && Verdict(transferSize, op, q) == LK_OK ==>
                Carried(op, Declared(transferSize, op, q), q, old(cartWrites))
    {
      hide Padded, Declared, Admits;
      LkLoop(op, transferSize);
      if recvShort && !sendStall {
        SendRaw(ACK_ERROR);
      }
    }

    // With nothing handed back and nothing short, batch and endpoint have moved n bytes together.
    lemma Settle(tail: seq<byte>, before: seq<byte>, n: nat)
      requires Valid() && pend == tail
      ensures pushUsed == |push| && Consumed() == n && n <= |tail + before| && Ahead() == (tail + before)[n..] ==>
                pendUsed == Min(n, |tail|) && burst == before[n - pendUsed..]
    {
      var q := tail + before;
      if pushUsed == |push| && Consumed() == n && n <= |q| && Ahead() == q[n..] {
        assert Ahead() == tail[pendUsed..] + burst;
        assert |before| - (n - pendUsed) == |burst|;
        assert burst == Ahead()[|tail| - pendUsed..];
      }
    }
  }

  // Refused, or one of the three.
  predicate Followed(transferSize: nat, op: byte, q: seq<byte>) {
    Modelled(op) || !Admits(transferSize, op, q)
  }

  function Verdict(transferSize: nat, op: byte, q: seq<byte>): (b: byte)
    ensures b == LK_OK <==> Admits(transferSize, op, q) && Declared(transferSize, op, q) <= |q|
  {
    if Admits(transferSize, op, q) && Declared(transferSize, op, q) <= |q| then LK_OK else ACK_ERROR
  }

  // What the seam consumes is what the parser would have: the command table's own lengths.
  lemma FrameAgrees(d: Dev, op: byte, q: seq<byte>, a: C.Args)
    requires Modelled(op) || SavePayload(op)
    requires op == C.CART_WRITE_FLASH_CMD ==> |q| >= HEADER && a[1] == q[1]
    ensures Declared(d.v16[TRANSFER_SIZE], op, q) == C.ArgLen(op) + C.PayloadLen(d, op, a)
  {
    if op == C.CART_WRITE_FLASH_CMD {
      assert Padded(q, HEADER)[1] == q[1];
    }
  }

  // A batch is refused exactly if a store of it would be out of range, it is longer than the parser
  // takes, or its header never came; a save payload exactly if it would pass data_buffer's end.
  lemma RefusedExactly(transferSize: nat, op: byte, q: seq<byte>)
    ensures op == C.CART_WRITE_FLASH_CMD ==>
              (!Admits(transferSize, op, q) <==>
                 |q| < HEADER || BATCH_BASE + q[1] as nat > FLASHCMD_N || q[1] as nat > BATCH_MAX)
    ensures SavePayload(op) ==> (!Admits(transferSize, op, q) <==> transferSize > 4096)
    ensures op in {C.DMG_CART_WRITE, C.DMG_MBC_RESET, C.DMG_FLASH_WRITE_BYTE, 0xB5} ==> Admits(transferSize, op, q)
  {
  }

  function PairAddr(q: seq<byte>, x: nat): nat
    requires HEADER + 6 * x + 6 <= |q|
  {
    Long(q, HEADER + 6 * x)
  }

  function PairVal(q: seq<byte>, x: nat): nat
    requires HEADER + 6 * x + 6 <= |q|
  {
    Word(q[HEADER + 6 * x + 4], q[HEADER + 6 * x + 5])
  }

  // The three commands lk_loop() is followed through for.
  predicate Modelled(op: byte) {
    op == C.CART_WRITE_FLASH_CMD || op == C.DMG_CART_WRITE || op == C.DMG_CART_WRITE_SRAM
  }

  // What follows the opcode, as the command table declares it, if enough of it is there to tell.
  function Declared(transferSize: nat, op: byte, q: seq<byte>): nat {
    if SavePayload(op) then transferSize
    else if op == C.CART_WRITE_FLASH_CMD then HEADER + (Padded(q, HEADER)[1] as nat) * 6
    else if op == C.DMG_CART_WRITE || op == C.DMG_FLASH_WRITE_BYTE then 5
    else 0
  }

  // Which commands reach lk_loop().
  predicate Admits(transferSize: nat, op: byte, q: seq<byte>) {
    if SavePayload(op) then transferSize <= DATA_BUFFER
    else op == C.CART_WRITE_FLASH_CMD ==> |q| >= HEADER && q[1] <= BATCH_ADMIT
  }
}
