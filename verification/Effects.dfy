/** What each command of proto.c does to the session record and answers, told from the bytes the
    host sends: the host's encoders undo the firmware's decoders, every field a command may write is
    named, and every request it raises. */
module Effects {
  import opened Bytes
  import opened Device
  import opened Commands
  import opened Framing

  // ------------------------------------------------------------------ the wire in numbers

  // How much follows each opcode, by the numbers the host sends.
  lemma FollowsOpcode(d: Dev, op: byte, a: Args)
    ensures ArgLen(op) ==
            if op in {0xFE, 0xE1, 0xE2, 0xB8, 0xC5, 0xC6, 0xC7} then 1
            else if op == 0xD4 then 2
            else if op == 0xA9 || op == 0xD5 then 4
            else if op in {0xAD, 0xB2, 0xD1, 0xF5} then 5
            else if op == 0xC2 || op == 0xD2 then 6
            else if op == 0xA6 then 9
            else if op == 0xA7 then 39
            else 0
    ensures PayloadLen(d, op, a) ==
            if op == 0xD4 then 6 * (a[1] as nat)
            else if op == 0xB8 then 5 * (a[0] as nat)
            else if op == 0xAF then 64
            else if op in {0xB3, 0xB6, 0xB7, 0xB9, 0xC4, 0xC6, 0xC7, 0xD3, 0xE7} then GetVariable(d, 2, 0)
            else 0
  {
  }

  // The opcodes themselves, and the keys of the variables that do something of their own.
  lemma Numbers()
    ensures [RESYNC, CMD_NULL, DEBUG, QUERY_FW_INFO, SET_MODE_AGB, SET_MODE_DMG, SET_VOLTAGE_3_3V, SET_VOLTAGE_5V]
            == [0x00, 0x30, 0xA0, 0xA1, 0xA2, 0xA3, 0xA4, 0xA5]
    ensures [SET_ADDR_AS_INPUTS, ENABLE_PULLUPS, DISABLE_PULLUPS, GET_VAR_STATE, DMG_CART_READ, DMG_MBC_RESET]
            == [0xA8, 0xAB, 0xAC, 0xAE, 0xB1, 0xB4]
    ensures [AGB_CART_READ, AGB_CART_READ_SRAM, AGB_CART_READ_3D_MEMORY, AGB_BOOTUP_SEQUENCE, AGB_READ_GPIO_RTC]
            == [0xC1, 0xC3, 0xC8, 0xC9, 0xCA]
    ensures [FW_BENCH_TX, FW_DUMP_PAYLOAD, BOOTLOADER_RESET, CART_PWR_ON, CART_PWR_OFF, QUERY_CART_PWR, GET_SWITCH_STATE]
            == [0xE0, 0xE6, 0xF1, 0xF2, 0xF3, 0xF4, 0xF6]
    ensures [PING, FW_SET_STEP, FW_SET_LATCH, SET_VARIABLE, GET_VARIABLE, SET_FLASH_CMD, CLK_TOGGLE, SET_PIN, CALC_CRC32]
            == [0xFE, 0xE1, 0xE2, 0xA6, 0xAD, 0xA7, 0xA9, 0xF5, 0xD5]
    ensures [DMG_CART_WRITE, DMG_FLASH_WRITE_BYTE, AGB_CART_WRITE, AGB_FLASH_WRITE_SHORT, AGB_CART_READ_EEPROM]
            == [0xB2, 0xD1, 0xC2, 0xD2, 0xC5]
    ensures [DMG_CART_WRITE_SRAM, DMG_MBC7_WRITE_EEPROM, DMG_MBC6_MMSA_WRITE_FLASH, DMG_SET_BANK_CHANGE_CMD,
             DMG_EEPROM_WRITE, AGB_CART_WRITE_SRAM, AGB_CART_WRITE_EEPROM, AGB_CART_WRITE_FLASH_DATA]
            == [0xB3, 0xB6, 0xB7, 0xB8, 0xB9, 0xC4, 0xC6, 0xC7]
    ensures [SET_VAR_STATE, FLASH_PROGRAM, CART_WRITE_FLASH_CMD, FW_ECHO_PAYLOAD] == [0xAF, 0xD3, 0xD4, 0xE7]
    ensures [CART_MODE, DMG_ACCESS_MODE, FLASH_COMMAND_SET, FLASH_METHOD, FLASH_WE_PIN, DMG_READ_CS_PULSE,
             DMG_WRITE_CS_PULSE, DMG_READ_METHOD, AGB_READ_METHOD]
            == [0x00, 0x01, 0x02, 0x03, 0x04, 0x08, 0x09, 0x0B, 0x0C]
    ensures [CART_POWERED, PULLUPS_ENABLED, AUTO_POWEROFF_EN, AGB_IRQ_ENABLED, DMG_AUDIO_ENABLED]
            == [0x0D, 0x0E, 0x0F, 0x10, 0x11]
    ensures [TRANSFER_SIZE, BUFFER_SIZE, DMG_ROM_BANK, LAST_BANK] == [0, 1, 2, 4]
    ensures [ACK_OK, ACK_ERROR] == [1, 2]
    ensures [MAX_TRANSFER, PAYLOAD_MAX, BATCH_MAX, BANK_CMD_MAX, DEFAULT_LATCH] == [0x2000, 0x800, 32, 8, 128]
  {
  }

  // ------------------------------------------------------------------ the host's encoders

  // SET_FLASH_CMD and CART_WRITE_FLASH_CMD: 32-bit address, 16-bit value.
  function PutPairs(addrs: seq<nat>, vals: seq<nat>): (s: seq<byte>)
    requires |addrs| == |vals|
    ensures |s| == 6 * |addrs|
    decreases addrs
  {
    if addrs == [] then [] else Put32(addrs[0]) + Put16(vals[0]) + PutPairs(addrs[1..], vals[1..])
  }

  // DMG_SET_BANK_CHANGE_CMD: 32-bit value, one byte of type.
  function PutBanks(bs: seq<(nat, byte)>): (s: seq<byte>)
    ensures |s| == 5 * |bs|
    decreases |bs|
  {
    if bs == [] then []
    else PutBanks(bs[..|bs| - 1]) + (Put32(bs[|bs| - 1].0) + [bs[|bs| - 1].1])
  }

  ghost predicate PairsFit(addrs: seq<nat>, vals: seq<nat>) {
    |addrs| == |vals| && Words(addrs, |addrs|, 0x1_0000_0000) && Words(vals, |vals|, 0x1_0000)
  }

  lemma Regroup(x: seq<byte>, a: seq<byte>, b: seq<byte>, rest: seq<byte>, y: seq<byte>)
    ensures var s := x + ((a + b + rest) + y);
            s == x + a + (b + (rest + y)) && s == (x + a) + b + (rest + y) && s == (x + (a + b)) + (rest + y)
  {
  }

  lemma PairFront(x: seq<byte>, addrs: seq<nat>, vals: seq<nat>, y: seq<byte>)
    requires PairsFit(addrs, vals) && addrs != []
    ensures var s := x + (PutPairs(addrs, vals) + y);
            |s| >= |x| + 6 && Long(s, |x|) == addrs[0] && Word(s[|x| + 4], s[|x| + 5]) == vals[0]
            && s == (x + (Put32(addrs[0]) + Put16(vals[0]))) + (PutPairs(addrs[1..], vals[1..]) + y)
  {
    var a, b, rest := Put32(addrs[0]), Put16(vals[0]), PutPairs(addrs[1..], vals[1..]);
    Regroup(x, a, b, rest, y);
    LongAt(x, addrs[0], b + (rest + y));
    WordAt(x + a, vals[0], rest + y);
    hide Long, Word, Put32, Put16;
  }

  // The pairs a host encodes are the pairs read back, wherever they lie.
  lemma {:induction false} PairsAt(x: seq<byte>, addrs: seq<nat>, vals: seq<nat>, y: seq<byte>)
    requires PairsFit(addrs, vals)
    ensures Pairs(x + (PutPairs(addrs, vals) + y), |x|, |addrs|) == (addrs, vals)
    decreases addrs
  {
    if addrs != [] {
      PairFront(x, addrs, vals, y);
      PairsAt(x + (Put32(addrs[0]) + Put16(vals[0])), addrs[1..], vals[1..], y);
      hide Long, Word, Put32, Put16, PutPairs;
      assert [addrs[0]] + addrs[1..] == addrs && [vals[0]] + vals[1..] == vals;
    }
  }

  ghost predicate BanksFit(bs: seq<(nat, byte)>) {
    forall i :: 0 <= i < |bs| ==> bs[i].0 < 0x1_0000_0000
  }

  lemma BankLast(p: seq<byte>, k: seq<byte>, t: byte, y: seq<byte>)
    requires |k| == 4
    ensures var s := p + (k + [t]) + y;
            s == p + (k + [t] + y) && s == p + k + ([t] + y) && s[|p| + 4] == t
  {
  }

  lemma {:induction false} BanksAt(bs: seq<(nat, byte)>, y: seq<byte>)
    requires BanksFit(bs)
    ensures Banks(PutBanks(bs) + y, |bs|) == bs
    decreases |bs|
  {
    if bs != [] {
      var init, last := bs[..|bs| - 1], bs[|bs| - 1];
      var p, k := PutBanks(init), Put32(last.0);
      BanksAt(init, k + [last.1] + y);
      BankLast(p, k, last.1, y);
      LongAt(p, last.0, [last.1] + y);
      hide Long, Put32, BanksFit;
      assert init + [last] == bs;
    }
  }

  // Pair by pair.
  lemma {:induction false} PairAt(x: seq<byte>, addrs: seq<nat>, vals: seq<nat>, y: seq<byte>, i: nat)
    requires PairsFit(addrs, vals) && i < |addrs|
    ensures var s, k := x + (PutPairs(addrs, vals) + y), |x| + 6 * i;
            |s| >= k + 6 && Long(s, k) == addrs[i] && Word(s[k + 4], s[k + 5]) == vals[i]
    decreases addrs
  {
    PairFront(x, addrs, vals, y);
    hide Long, Word, Put32, Put16, PutPairs;
    if i > 0 {
      PairAt(x + (Put32(addrs[0]) + Put16(vals[0])), addrs[1..], vals[1..], y, i - 1);
    }
  }

  // ------------------------------------------------------------------ carrying a command out

  // Commands without a payload: the arguments sent are the ones the dispatcher reads.
  lemma Carried(c: Chan, d: Dev, op: byte, args: seq<byte>) returns (a: Args)
    requires Declared(c, d) && Idle(c) && |args| == ArgLen(op)
    requires op !in {CART_WRITE_FLASH_CMD, DMG_SET_BANK_CHANGE_CMD, SET_VAR_STATE} && !TakesTransfer(op)
    ensures a == Over(c.arg, args) && forall i :: 0 <= i < |args| ==> a[i] == args[i]
    ensures var m := Command(op, args, []);
            Legal(c, d, m)
            && var r := Perform(c, d, m); var x := Execute(d, op, a, c.pay, c.lastPay);
               r.dev == x.dev && r.reply == x.reply
  {
    hide Execute, PayloadDone;
    a := Over(c.arg, args);
  }

  // Commands with one that fits.
  lemma CarriedPayload(c: Chan, d: Dev, m: Command) returns (a: Args, pay: Pay)
    requires Declared(c, d) && Idle(c) && Legal(c, d, m) && 0 < |m.payload| <= PAYLOAD_MAX
    ensures a == Over(c.arg, m.args) && forall i :: 0 <= i < |m.args| ==> a[i] == m.args[i]
    ensures pay == m.payload + c.pay[|m.payload|..]
    ensures var e := Opened(d, m.op);
            |m.payload| == PayloadLen(e, m.op, a)
            && var r := Perform(c, d, m); var x := PayloadDone(e, m.op, a, pay, |m.payload|);
               r.dev == x.dev && r.reply == x.reply && r.chan.pay == pay && r.chan.lastPay == |m.payload|
  {
    hide Execute, PayloadDone, PayloadLen;
    PartwayLength(d, m.op, Over(c.arg, m.args));
    a, pay := Over(c.arg, m.args), Over(c.pay, m.payload);
  }

  lemma ArgsPrefix(a: seq<byte>, args: seq<byte>)
    requires |args| <= |a| && forall i :: 0 <= i < |args| ==> a[i] == args[i]
    ensures a == args + a[|args|..]
  {
  }

  // A command word of four octets read from the arguments.
  lemma LongArg(a: seq<byte>, x: seq<byte>, v: nat, y: seq<byte>)
    requires v < 0x1_0000_0000 && |x + Put32(v) + y| <= |a|
    requires forall i :: 0 <= i < |x + Put32(v) + y| ==> a[i] == (x + Put32(v) + y)[i]
    ensures Long(a, |x|) == v
  {
    LongAt(x, v, y);
  }

  // ------------------------------------------------------------------ lists of writes

  lemma BatchLegal(c: Chan, d: Dev, m: Command)
    requires m.op == CART_WRITE_FLASH_CMD && |m.args| == 2 && |m.payload| == 6 * (m.args[1] as int)
    ensures Legal(c, d, m)
  {
    assert Over(c.arg, m.args)[1] == m.args[1];
  }

  lemma BatchDone(d: Dev, a: Args, pay: Pay, addrs: seq<nat>, vals: seq<nat>, y: seq<byte>)
    requires PairsFit(addrs, vals) && 0 < |addrs| == a[1] as int && pay == PutPairs(addrs, vals) + y
    ensures var x := PayloadDone(d, CART_WRITE_FLASH_CMD, a, pay, 6 * |addrs|);
            if |addrs| > BATCH_MAX then x == Result(d, [ACK_ERROR])
            else x.reply == [ACK_OK] && Batch in x.dev.flags
                 && x.dev.job == BatchOf(Zip(addrs, vals), a[0])
  {
    hide Pairs, PutPairs, Zip, Banks, Fnv;
    PairsAt([], addrs, vals, y);
    assert [] + pay == pay;
  }

  // A batch of at most 32 writes is left for the main loop exactly as it was sent; a longer one
  // is refused whole and changes nothing.
  lemma BatchLeaves(c: Chan, d: Dev, flashcart: byte, addrs: seq<nat>, vals: seq<nat>)
    requires Declared(c, d) && Idle(c) && PairsFit(addrs, vals) && 0 < |addrs| < 0x100
    ensures var m := Command(CART_WRITE_FLASH_CMD, [flashcart, |addrs|], PutPairs(addrs, vals));
            Legal(c, d, m)
            && var r := Perform(c, d, m);
               if |addrs| > BATCH_MAX then r.dev == d && r.reply == [ACK_ERROR]
               else r.reply == [ACK_OK] && Batch in r.dev.flags && r.dev.job.BatchOf?
                    && r.dev.job.flashcart == flashcart && |r.dev.job.pairs| == |addrs|
                    && forall i :: 0 <= i < |addrs| ==> r.dev.job.pairs[i] == (addrs[i], vals[i])
  {
    hide Perform, Pairs, PutPairs, PayloadDone, PayloadLen, Over, Legal;
    var m := Command(CART_WRITE_FLASH_CMD, [flashcart, |addrs|], PutPairs(addrs, vals));
    BatchLegal(c, d, m);
    var a, pay := CarriedPayload(c, d, m);
    BatchDone(d, a, pay, addrs, vals, c.pay[|m.payload|..]);
  }

  // The six unlock pairs, the flash method and both copies of the write-enable selector.
  lemma FlashCmdLeaves(c: Chan, d: Dev, set_: byte, method_: byte, we: byte, addrs: seq<nat>, vals: seq<nat>)
    requires Declared(c, d) && Idle(c) && PairsFit(addrs, vals) && |addrs| == 6
    ensures var m := Command(SET_FLASH_CMD, [set_, method_, we] + PutPairs(addrs, vals), []);
            Legal(c, d, m)
            && var r := Perform(c, d, m);
               r.reply == [ACK_OK] && WePin in r.dev.flags && r.dev.unlock == Unlock(we, addrs, vals)
               && GetVariable(r.dev, 1, FLASH_COMMAND_SET) == set_
               && GetVariable(r.dev, 1, FLASH_METHOD) == method_
               && GetVariable(r.dev, 1, FLASH_WE_PIN) == we
  {
    var args := [set_, method_, we] + PutPairs(addrs, vals);
    var a := Carried(c, d, SET_FLASH_CMD, args);
    ArgsPrefix(a, args);
    assert a == [set_, method_, we] + (PutPairs(addrs, vals) + a[39..]);
    PairsAt([set_, method_, we], addrs, vals, a[39..]);
    hide Perform, Pairs, PutPairs;
  }

  lemma BanksLegal(c: Chan, d: Dev, m: Command)
    requires m.op == DMG_SET_BANK_CHANGE_CMD && |m.args| == 1 && |m.payload| == 5 * (m.args[0] as int)
    ensures Legal(c, d, m)
    ensures Declared(c, d) && Idle(c) && m.payload == [] ==>
              Perform(c, d, m).dev.bankCmd == [] && Perform(c, d, m).reply == [ACK_OK]
  {
    assert Over(c.arg, m.args)[0] == m.args[0];
  }

  lemma BanksDone(d: Dev, a: Args, pay: Pay, bs: seq<(nat, byte)>, y: seq<byte>)
    requires BanksFit(bs) && 0 < |bs| == a[0] as int && pay == PutBanks(bs) + y
    ensures var x := PayloadDone(d, DMG_SET_BANK_CHANGE_CMD, a, pay, 5 * |bs|);
            if |bs| > BANK_CMD_MAX then x == Result(d, [ACK_ERROR])
            else x.reply == [ACK_OK] && x.dev.bankCmd == bs
  {
    hide Pairs, PutBanks, Zip, Banks, Fnv;
    BanksAt(bs, y);
  }

  lemma OpenedElse(d: Dev, op: byte)
    ensures op != FLASH_PROGRAM ==> Opened(d, op) == d
  {
  }

  // Up to eight bank-change writes are kept as sent; none clears the list, more are refused.
  lemma BanksLeave(c: Chan, d: Dev, bs: seq<(nat, byte)>)
    requires Declared(c, d) && Idle(c) && BanksFit(bs) && |bs| < 0x100
    ensures var m := Command(DMG_SET_BANK_CHANGE_CMD, [|bs|], PutBanks(bs));
            Legal(c, d, m)
            && var r := Perform(c, d, m);
               if |bs| > BANK_CMD_MAX then r.dev == d && r.reply == [ACK_ERROR]
               else r.dev.bankCmd == bs && r.reply == [ACK_OK]
  {
    hide Perform, Banks, PutBanks, PayloadDone, PayloadLen, Over, Legal, BanksFit, Declared, Idle, Opened;
    var m := Command(DMG_SET_BANK_CHANGE_CMD, [|bs|], PutBanks(bs));
    BanksLegal(c, d, m);
    if bs != [] {
      var a, pay := CarriedPayload(c, d, m);
      OpenedElse(d, m.op);
      BanksDone(d, a, pay, bs, c.pay[|m.payload|..]);
    }
  }

  // ------------------------------------------------------------------ who may write what

  predicate WritesTable8(op: byte) {
    op in {SET_MODE_AGB, SET_MODE_DMG, SET_VARIABLE, SET_FLASH_CMD, ENABLE_PULLUPS, DISABLE_PULLUPS, SET_VAR_STATE}
  }

  predicate WritesJob(op: byte) {
    op in {CLK_TOGGLE, DMG_CART_WRITE, DMG_FLASH_WRITE_BYTE, AGB_CART_WRITE, AGB_FLASH_WRITE_SHORT,
           AGB_CART_READ_EEPROM, CALC_CRC32, CART_WRITE_FLASH_CMD}
  }

  predicate WritesSave(op: byte) {
    op in {DMG_CART_WRITE_SRAM, AGB_CART_WRITE_SRAM, AGB_CART_WRITE_EEPROM, AGB_CART_WRITE_FLASH_DATA}
  }

  predicate WritesRail(op: byte) {
    op in {SET_MODE_AGB, SET_VOLTAGE_3_3V, SET_VOLTAGE_5V, CART_PWR_ON, CART_PWR_OFF, SET_PIN}
  }

  // The fields a command leaves alone, field by field.
  predicate Keeps(d: Dev, e: Dev, op: byte) {
    && (op !in {SET_MODE_AGB, SET_MODE_DMG} ==> e.mode == d.mode)
    && (op !in {SET_VARIABLE, SET_VAR_STATE} ==> e.address == d.address && e.v16 == d.v16)
    && (!WritesTable8(op) ==> e.v8 == d.v8)
    && e.diag == d.diag && e.pcbVer == d.pcbVer
    && (op !in {SET_FLASH_CMD, SET_VAR_STATE} ==> e.unlock == d.unlock)
    && (!WritesJob(op) ==> e.job == d.job)
    && (!WritesSave(op) ==> e.save == d.save)
    && (!WritesRail(op) ==> e.rail == d.rail)
    && (op != DMG_SET_BANK_CHANGE_CMD ==> e.bankCmd == d.bankCmd)
    && (op != FLASH_PROGRAM ==> e.program == d.program)
    && (op != FW_SET_STEP ==> e.stepPin == d.stepPin)
    && (op != FW_SET_LATCH ==> e.latch == d.latch)
  }

  predicate SetsVariable8(m: Command, key: byte)
    requires |m.args| == ArgLen(m.op)
  {
    m.op == SET_VARIABLE && m.args[0] == 1 && m.args[1..5] == [0, 0, 0, key]
  }

  predicate Fitting(m: Command) {
    0 < |m.payload| <= PAYLOAD_MAX
  }

  // Which commands raise a request, request by request.
  predicate Asks(d: Dev, m: Command, f: Flag)
    requires |m.args| == ArgLen(m.op)
  {
    match f
    case Read => m.op in {DMG_CART_READ, AGB_CART_READ, AGB_CART_READ_SRAM, AGB_CART_READ_EEPROM,
                          AGB_CART_READ_3D_MEMORY}
    case ReadSave => m.op == AGB_CART_READ_SRAM
    case ReadEeprom => m.op == AGB_CART_READ_EEPROM
    case Read3d => m.op == AGB_CART_READ_3D_MEMORY
    case PageEnd => m.op == RESYNC && d.terminatorDue
    case RtcRead => m.op == AGB_READ_GPIO_RTC && d.mode == Agb
    case Bootup => m.op == AGB_BOOTUP_SEQUENCE && d.mode == Agb
    case Crc => m.op == CALC_CRC32
    case SaveWrite => Fitting(m) && WritesSave(m.op)
    case WePin => m.op == SET_FLASH_CMD || SetsVariable8(m, FLASH_WE_PIN)
                  || (m.op == SET_VAR_STATE && Fitting(m) && m.payload[0] == 1)
    case Audio => (d.mode == Agb && SetsVariable8(m, AGB_IRQ_ENABLED))
                  || (d.mode == Dmg && SetsVariable8(m, DMG_AUDIO_ENABLED))
    case Bench => m.op == FW_BENCH_TX
    case Power => m.op == CART_PWR_ON || m.op == CART_PWR_OFF || (m.op == SET_PIN && m.args[3] % 2 == 1)
    case Pullup => m.op == ENABLE_PULLUPS || m.op == DISABLE_PULLUPS
    case Tristate => m.op == SET_ADDR_AS_INPUTS
    case Voltage => m.op in {SET_MODE_AGB, SET_VOLTAGE_3_3V, SET_VOLTAGE_5V}
    case Write => m.op == DMG_CART_WRITE
    case MbcReset => m.op == DMG_MBC_RESET
    case Debug => m.op == DEBUG
    case Clk => m.op == CLK_TOGGLE
    case Batch => m.op == CART_WRITE_FLASH_CMD && 0 < m.args[1] <= BATCH_MAX
    case ProgramBlock => m.op == FLASH_PROGRAM && Fitting(m) && GetVariable(d, 1, FLASH_METHOD) <= 2
    case FlashWrite => m.op in {DMG_FLASH_WRITE_BYTE, AGB_CART_WRITE, AGB_FLASH_WRITE_SHORT}
    case Reset => m.op == BOOTLOADER_RESET
  }

  ghost predicate Asked(d: Dev, e: Dev, m: Command)
    requires |m.args| == ArgLen(m.op)
  {
    forall f: Flag :: f in e.flags <==> f in d.flags || Asks(d, m, f)
  }

  lemma KeyBytes(a: seq<byte>, k: byte)
    requires |a| >= 9
    ensures Long(a, 1) == k as int <==> a[1..5] == [0, 0, 0, k]
  {
    assert a[1..5] == [a[1], a[2], a[3], a[4]];
  }

  lemma VariableAsks(d: Dev, m: Command, a: Args)
    requires m.op == SET_VARIABLE && |m.args| == 9 && forall i :: 0 <= i < 9 ==> a[i] == m.args[i]
    ensures Asked(d, SetVariable(d, a[0], Long(a, 1), Long(a, 5)), m)
  {
    assert a[1..5] == m.args[1..5];
    KeyBytes(a, FLASH_WE_PIN);
    KeyBytes(a, AGB_IRQ_ENABLED);
    KeyBytes(a, DMG_AUDIO_ENABLED);
    hide Long;
  }

  lemma VariableKeeps(d: Dev, size: byte, key: nat, value: nat)
    requires value < 0x1_0000_0000
    ensures Keeps(d, SetVariable(d, size, key, value), SET_VARIABLE)
  {
  }

  lemma SessionKeeps(d: Dev, op: byte, a: Args)
    requires op < 0xB0
    ensures Keeps(d, ExecuteSession(d, op, a).dev, op)
  {
    hide Pairs, Long, Word, Put32, GetVarState, FwInfo, GetVariable, SetVariable;
    if op == SET_VARIABLE {
      VariableKeeps(d, a[0], Long(a, 1), Long(a, 5));
    }
  }

  lemma ModeAsks(d: Dev, m: Command, a: Args)
    requires m.op < SET_VARIABLE && m.op != RESYNC && m.payload == [] && |m.args| == ArgLen(m.op)
    ensures Asked(d, ExecuteSession(d, m.op, a).dev, m)
  {
    hide Pairs, Long, Word, Put32, GetVarState, FwInfo, GetVariable, SetVariable;
  }

  lemma OtherAsks(d: Dev, m: Command, a: Args)
    requires SET_VARIABLE < m.op < 0xB0 && m.payload == [] && m.op != SET_VAR_STATE && |m.args| == ArgLen(m.op)
    ensures Asked(d, ExecuteSession(d, m.op, a).dev, m)
  {
    hide Pairs, Long, Word, Put32, GetVarState, FwInfo, GetVariable, SetVariable;
  }

  lemma SessionAsks(d: Dev, m: Command, a: Args)
    requires m.op < 0xB0 && m.op != RESYNC && m.payload == [] && m.op != SET_VAR_STATE && |m.args| == ArgLen(m.op)
    requires forall i :: 0 <= i < |m.args| ==> a[i] == m.args[i]
    ensures Asked(d, ExecuteSession(d, m.op, a).dev, m)
  {
    hide Asked, Long, SetVariable;
    if m.op == SET_VARIABLE {
      VariableAsks(d, m, a);
    } else if m.op < SET_VARIABLE {
      ModeAsks(d, m, a);
    } else {
      OtherAsks(d, m, a);
    }
  }

  lemma CartKeeps(d: Dev, op: byte, a: Args)
    requires 0xB0 <= op < 0xD6
    ensures Keeps(d, ExecuteCart(d, op, a).dev, op)
  {
    hide Long, Word;
  }

  lemma CartAsks(d: Dev, m: Command, a: Args)
    requires 0xB0 <= m.op < 0xD6 && m.payload == [] && |m.args| == ArgLen(m.op)
    requires m.op == CART_WRITE_FLASH_CMD ==> m.args[1] == 0
    ensures Asked(d, ExecuteCart(d, m.op, a).dev, m)
  {
    hide Long, Word, GetVariable;
  }

  lemma PinBit(a: seq<byte>)
    requires |a| >= 4
    ensures Long(a, 0) % 2 == a[3] % 2
  {
  }

  lemma PrivateKeeps(d: Dev, op: byte, a: Args, pay: Pay, lastPay: nat)
    requires 0xD6 <= op
    ensures Keeps(d, ExecutePrivate(d, op, a, pay, lastPay).dev, op)
  {
    hide Long, Put16;
  }

  lemma PrivateAsks(d: Dev, m: Command, a: Args, pay: Pay, lastPay: nat)
    requires 0xD6 <= m.op && m.payload == [] && |m.args| == ArgLen(m.op)
    requires forall i :: 0 <= i < |m.args| ==> a[i] == m.args[i]
    ensures Asked(d, ExecutePrivate(d, m.op, a, pay, lastPay).dev, m)
  {
    PinBit(a);
    hide Long, Put16;
  }

  lemma DoneKeeps(d: Dev, op: byte, a: Args, pay: Pay, got: nat)
    requires 0 < got == PayloadLen(d, op, a) <= PAYLOAD_MAX
    ensures Keeps(d, PayloadDone(d, op, a, pay, got).dev, op)
  {
    hide Pairs, Zip, Banks, Fnv, Long, Word, Longs, Shorts;
  }

  lemma DoneAsks(d: Dev, m: Command, a: Args, pay: Pay)
    requires Fitting(m) && |m.args| == ArgLen(m.op) && |m.payload| == PayloadLen(d, m.op, a)
    requires forall i :: 0 <= i < |m.args| ==> a[i] == m.args[i]
    requires pay[0] == m.payload[0]
    ensures Asked(d, PayloadDone(d, m.op, a, pay, |m.payload|).dev, m)
  {
    hide Pairs, Zip, Banks, Fnv, Long, Word, Longs, Shorts;
  }

  // The same command found the mark of a 3D page, or an open block, beside everything else.
  lemma Besides(d: Dev, d1: Dev, e: Dev, m: Command)
    requires |m.args| == ArgLen(m.op) && m.op != RESYNC
    requires d1 == d.(terminatorDue := d1.terminatorDue, program := d1.program)
    requires d1.program == d.program || m.op == FLASH_PROGRAM
    requires Keeps(d1, e, m.op) && Asked(d1, e, m)
    ensures Keeps(d, e, m.op) && Asked(d, e, m)
  {
    forall f: Flag ensures Asks(d1, m, f) == Asks(d, m, f) {
    }
  }

  lemma ExecuteEffect(d: Dev, m: Command, a: Args, pay: Pay, lastPay: nat)
    requires m.payload == [] && |m.args| == ArgLen(m.op) && PayloadLen(d, m.op, a) == 0
    requires forall i :: 0 <= i < |m.args| ==> a[i] == m.args[i]
    ensures var e := Execute(d, m.op, a, pay, lastPay).dev; Keeps(d, e, m.op) && Asked(d, e, m)
  {
    var d1: Dev := d.(terminatorDue := false);
    if m.op != RESYNC && m.op != CMD_NULL {
      hide ExecuteSession, ExecuteCart, ExecutePrivate, Keeps, Asked, TakesTransfer;
      var e := Execute(d, m.op, a, pay, lastPay).dev;
      if m.op < 0xB0 {
        SessionKeeps(d1, m.op, a);
        SessionAsks(d1, m, a);
      } else if m.op < 0xD6 {
        CartKeeps(d1, m.op, a);
        CartAsks(d1, m, a);
      } else {
        PrivateKeeps(d1, m.op, a, pay, lastPay);
        PrivateAsks(d1, m, a, pay, lastPay);
      }
      Besides(d, d1, e, m);
    }
  }

  lemma RefusedEffect(d: Dev, m: Command)
    requires |m.args| == ArgLen(m.op) && |m.payload| > PAYLOAD_MAX
    requires |m.payload| == PayloadLen(d, m.op, Over(seq(ARG_MAX, _ => 0), m.args))
    ensures Keeps(d, Opened(d, m.op), m.op) && Asked(d, Opened(d, m.op), m)
  {
  }

  // Whatever the command and the state: only the fields named change, and exactly the requests
  // named are raised.  A payload too long to keep raises nothing.
  lemma CommandEffect(c: Chan, d: Dev, m: Command)
    requires Declared(c, d) && Idle(c) && Legal(c, d, m)
    ensures var e := Perform(c, d, m).dev; Keeps(d, e, m.op) && Asked(d, e, m)
  {
    var a := Over(c.arg, m.args);
    if m.payload == [] {
      ExecuteEffect(d, m, a, c.pay, c.lastPay);
      hide Execute, Keeps, Asked;
    } else if |m.payload| > PAYLOAD_MAX {
    } else {
      hide Perform, Keeps, Asked;
      var b, pay := CarriedPayload(c, d, m);
      var d1 := Opened(d, m.op);
      DoneKeeps(d1, m.op, b, pay, |m.payload|);
      DoneAsks(d1, m, b, pay);
      Besides(d, d1, Perform(c, d, m).dev, m);
    }
  }

  // ------------------------------------------------------------------ which byte answers

  // The commands a host is told were not carried out.
  predicate Refused(d: Dev, m: Command)
    requires |m.args| == ArgLen(m.op)
  {
    || |m.payload| > PAYLOAD_MAX
    || (m.op == CART_WRITE_FLASH_CMD && (m.args[1] == 0 || m.args[1] > BATCH_MAX))
    || (m.op == DMG_SET_BANK_CHANGE_CMD && m.args[0] > BANK_CMD_MAX)
    || (m.op == FLASH_PROGRAM && (m.payload == [] || GetVariable(d, 1, FLASH_METHOD) > 2))
    || (WritesSave(m.op) && m.payload == [])
    || m.op in {DMG_MBC7_WRITE_EEPROM, DMG_MBC6_MMSA_WRITE_FLASH, DMG_EEPROM_WRITE, 0xB5, 0xBA}
  }

  predicate AnswersItself(op: byte) {
    op in {QUERY_CART_PWR, GET_SWITCH_STATE, PING}
  }

  lemma SessionAnswers(d: Dev, m: Command, a: Args)
    requires m.op < 0xB0 && m.payload == [] && |m.args| == ArgLen(m.op) && m.op != SET_VAR_STATE
    requires m.op != RESYNC && m.op != CMD_NULL && ReplyCount(d, m) == 1
    ensures ExecuteSession(d, m.op, a).reply == [ACK_OK]
  {
    hide Pairs, Long, Word, Put32, GetVarState, FwInfo, GetVariable, SetVariable;
  }

  lemma CartAnswers(d: Dev, m: Command, a: Args)
    requires 0xB0 <= m.op < 0xD6 && m.payload == [] && |m.args| == ArgLen(m.op) && ReplyCount(d, m) == 1
    requires m.op == CART_WRITE_FLASH_CMD ==> m.args[1] == 0
    requires m.op == DMG_SET_BANK_CHANGE_CMD ==> m.args[0] == 0
    ensures ExecuteCart(d, m.op, a).reply == [if Refused(d, m) then ACK_ERROR else ACK_OK]
  {
    hide Long, Word, GetVariable;
  }

  lemma PrivateAnswers(d: Dev, m: Command, a: Args, pay: Pay, lastPay: nat)
    requires 0xD6 <= m.op && m.payload == [] && |m.args| == ArgLen(m.op) && ReplyCount(d, m) == 1
    requires !AnswersItself(m.op)
    ensures ExecutePrivate(d, m.op, a, pay, lastPay).reply == [ACK_OK]
  {
    hide Long, Put16;
  }

  lemma DoneAnswers(d: Dev, m: Command, a: Args, pay: Pay)
    requires Fitting(m) && |m.args| == ArgLen(m.op) && |m.payload| == PayloadLen(d, m.op, a)
    requires forall i :: 0 <= i < |m.args| ==> a[i] == m.args[i]
    ensures PayloadDone(d, m.op, a, pay, |m.payload|).reply ==
            if m.op == FW_ECHO_PAYLOAD then Put32(Fnv(pay[..|m.payload|]))
            else [if Refused(d, m) then ACK_ERROR else ACK_OK]
  {
    hide Pairs, Zip, Banks, Fnv, Put32, SetVarState;
  }

  lemma ExecuteAnswers(d: Dev, m: Command, a: Args, pay: Pay, lastPay: nat)
    requires m.payload == [] && |m.args| == ArgLen(m.op) && PayloadLen(d, m.op, a) == 0
    requires forall i :: 0 <= i < |m.args| ==> a[i] == m.args[i]
    requires ReplyCount(d, m) == 1 && !AnswersItself(m.op)
    ensures Execute(d, m.op, a, pay, lastPay).reply == [if Refused(d, m) then ACK_ERROR else ACK_OK]
  {
    var d1: Dev := d.(terminatorDue := false);
    if m.op != RESYNC && m.op != CMD_NULL {
      hide ExecuteSession, ExecuteCart, ExecutePrivate, TakesTransfer;
      if m.op < 0xB0 {
        SessionAnswers(d1, m, a);
      } else if m.op < 0xD6 {
        CartAnswers(d1, m, a);
      } else {
        PrivateAnswers(d1, m, a, pay, lastPay);
      }
    }
  }

  // A one-byte answer is the error byte exactly for the refusals, and the ACK for everything else.
  lemma OneByteAnswers(c: Chan, d: Dev, m: Command)
    requires Declared(c, d) && Idle(c) && Legal(c, d, m)
    requires ReplyCount(d, m) == 1 && !AnswersItself(m.op)
    ensures Perform(c, d, m).reply == [if Refused(d, m) then ACK_ERROR else ACK_OK]
  {
    if m.payload == [] {
      ExecuteAnswers(d, m, Over(c.arg, m.args), c.pay, c.lastPay);
    } else if |m.payload| <= PAYLOAD_MAX {
      hide Perform, Refused, ReplyCount;
      var a, pay := CarriedPayload(c, d, m);
      DoneAnswers(Opened(d, m.op), m, a, pay);
      SameRefusal(d, m);
    }
  }

  lemma SameRefusal(d: Dev, m: Command)
    requires |m.args| == ArgLen(m.op)
    ensures Refused(Opened(d, m.op), m) == Refused(d, m)
    ensures Fitting(m) && ReplyCount(d, m) == 1 ==> m.op != FW_ECHO_PAYLOAD
  {
  }

  // The challenge comes back complemented: the two add up to 255.
  lemma PingAnswers(c: Chan, d: Dev, challenge: byte)
    requires Declared(c, d) && Idle(c)
    ensures var m := Command(PING, [challenge], []);
            Legal(c, d, m)
            && var r := Perform(c, d, m);
               |r.reply| == 1 && r.reply[0] as int + challenge as int == 255
               && r.dev == d.(terminatorDue := false)
  {
    var a := Carried(c, d, PING, [challenge]);
  }

  // ------------------------------------------------------------------ values as sent

  // One write to the cartridge or its flash, a clock burst, a checksum length.
  lemma WriteLeaves(c: Chan, d: Dev, op: byte, addr: nat, v: byte)
    requires Declared(c, d) && Idle(c) && addr < 0x1_0000_0000
    requires op == DMG_CART_WRITE || op == DMG_FLASH_WRITE_BYTE
    ensures var m := Command(op, Put32(addr) + [v], []);
            Legal(c, d, m) && Perform(c, d, m).dev.job
              == if op == DMG_CART_WRITE then CartWrite(addr, v) else FlashWriteOf(addr, v, false)
  {
    var a := Carried(c, d, op, Put32(addr) + [v]);
    LongArg(a, [], addr, [v]);
    assert [] + Put32(addr) + [v] == Put32(addr) + [v];
    hide Perform, Long, Put32;
  }

  lemma ShortLeaves(c: Chan, d: Dev, op: byte, addr: nat, v: nat)
    requires Declared(c, d) && Idle(c) && addr < 0x1_0000_0000 && v < 0x1_0000
    requires op == AGB_CART_WRITE || op == AGB_FLASH_WRITE_SHORT
    ensures var m := Command(op, Put32(addr) + Put16(v), []);
            Legal(c, d, m) && Perform(c, d, m).dev.job == FlashWriteOf(addr, v, true)
  {
    var args := Put32(addr) + Put16(v);
    var a := Carried(c, d, op, args);
    assert [] + Put32(addr) + Put16(v) == args && args + [] == args;
    LongArg(a, [], addr, Put16(v));
    WordAt(Put32(addr), v, []);
    hide Perform, Long, Put32, Put16;
    assert a[4] == args[4] && a[5] == args[5];
  }

  lemma CountLeaves(c: Chan, d: Dev, op: byte, n: nat)
    requires Declared(c, d) && Idle(c) && n < 0x1_0000_0000
    requires op == CLK_TOGGLE || op == CALC_CRC32
    ensures var m := Command(op, Put32(n), []);
            Legal(c, d, m)
            && Perform(c, d, m).dev.job == if op == CLK_TOGGLE then ClkPulses(n) else CrcOver(n)
  {
    var a := Carried(c, d, op, Put32(n));
    assert [] + Put32(n) + [] == Put32(n);
    LongArg(a, [], n, []);
    hide Perform, Long, Put32;
  }

  lemma SetOnWire(c: Chan, d: Dev, size: byte, key: nat, value: nat)
    requires Declared(c, d) && Idle(c) && key < 0x1_0000_0000 && value < 0x1_0000_0000
    ensures var m := Command(SET_VARIABLE, [size] + Put32(key) + Put32(value), []);
            Legal(c, d, m)
            && Perform(c, d, m).dev == SetVariable(d.(terminatorDue := false), size, key, value)
  {
    var args := [size] + Put32(key) + Put32(value);
    var a := Carried(c, d, SET_VARIABLE, args);
    LongArg(a, [size], key, Put32(value));
    assert args + [] == args && |[size] + Put32(key)| == 5;
    LongArg(a, [size] + Put32(key), value, []);
    hide Perform, Long, Put32, SetVariable;
  }

  lemma GetOnWire(c: Chan, d: Dev, size: byte, key: nat)
    requires Declared(c, d) && Idle(c) && key < 0x1_0000_0000
    ensures var m := Command(GET_VARIABLE, [size] + Put32(key), []);
            Legal(c, d, m) && Perform(c, d, m).reply == Put32(GetVariable(d, size, key))
  {
    var args := [size] + Put32(key);
    var a := Carried(c, d, GET_VARIABLE, args);
    assert args + [] == args;
    LongArg(a, [size], key, []);
    hide Perform, Long, Put32;
  }

  lemma MarkIsNoVariable(d: Dev, due: bool, size: byte, key: nat)
    ensures GetVariable(d.(terminatorDue := due), size, key) == GetVariable(d, size, key)
    ensures GetVariable(d, size, key) < 0x1_0000_0000
  {
  }

  // Setting a variable over the link and asking for any variable afterwards answers, in four
  // octets, what VariableReadsBack says.
  lemma SetThenGet(c: Chan, d: Dev, size: byte, key: nat, value: nat, size2: byte, key2: nat)
    requires Declared(c, d) && Idle(c)
    requires key < 0x1_0000_0000 && value < 0x1_0000_0000 && key2 < 0x1_0000_0000
    ensures var set_ := Command(SET_VARIABLE, [size] + Put32(key) + Put32(value), []);
            var get_ := Command(GET_VARIABLE, [size2] + Put32(key2), []);
            Legal(c, d, set_)
            && var r := Perform(c, d, set_);
               Legal(r.chan, r.dev, get_)
               && var s := Perform(r.chan, r.dev, get_).reply;
                  |s| == 4 && Long(s, 0) ==
                  if Settable(size, key) && size == size2 && key == key2 then Stored(size, key, value)
                  else if size == 2 && key == DMG_ROM_BANK && size2 == 2 && key2 == LAST_BANK then value % 0x100
                  else GetVariable(d, size2, key2)
  {
    hide Perform, SetVariable, GetVariable, Long, Put32, Legal;
    var set_ := Command(SET_VARIABLE, [size] + Put32(key) + Put32(value), []);
    SetOnWire(c, d, size, key, value);
    var r := Perform(c, d, set_);
    GetOnWire(r.chan, r.dev, size2, key2);
    VariableReadsBack(d.(terminatorDue := false), size, key, value, size2, key2);
    MarkIsNoVariable(d, false, size2, key2);
    MarkIsNoVariable(r.dev, false, size2, key2);
  }

  // What GET_VAR_STATE answered, sent back with SET_VAR_STATE, restores exactly the saved fields;
  // a blob of another version restores nothing.
  lemma StateOnWire(c: Chan, d: Dev, c2: Chan, e: Dev)
    requires Declared(c, d) && Idle(c) && Declared(c2, e) && Idle(c2)
    ensures var ask := Command(GET_VAR_STATE, [], []);
            Legal(c, d, ask)
            && var put := Command(SET_VAR_STATE, [], Perform(c, d, ask).reply);
               Legal(c2, e, put) && Perform(c2, e, put).dev == Restored(d, e)
  {
    hide Perform, Legal, GetVarState, Restored;
    var d1: Dev := d.(terminatorDue := false);
    var blob := GetVarState(d1);
    StateAsked(c, d);
    VarStateRoundTrip(d1, e);
    StatePut(c2, e, blob);
    SameState(d, e);
  }

  lemma StateAsked(c: Chan, d: Dev)
    requires Declared(c, d) && Idle(c)
    ensures var m := Command(GET_VAR_STATE, [], []);
            Legal(c, d, m) && Perform(c, d, m).reply == GetVarState(d.(terminatorDue := false))
  {
    var a := Carried(c, d, GET_VAR_STATE, []);
    hide Perform, GetVarState;
  }

  lemma SameState(d: Dev, e: Dev)
    ensures Restored(d.(terminatorDue := false), e) == Restored(d, e)
  {
  }

  lemma StatePut(c: Chan, d: Dev, blob: seq<byte>)
    requires Declared(c, d) && Idle(c) && |blob| == VAR_STATE_LEN
    ensures var m := Command(SET_VAR_STATE, [], blob);
            Legal(c, d, m) && Perform(c, d, m).dev == SetVarState(d, blob)
            && (blob[0] != 1 ==> Perform(c, d, m).dev == d)
  {
    var m := Command(SET_VAR_STATE, [], blob);
    var a, pay := CarriedPayload(c, d, m);
    hide Perform, Over;
    StatePrefix(d, pay, blob);
  }

  lemma StatePrefix(d: Dev, pay: seq<byte>, blob: seq<byte>)
    requires blob <= pay && |blob| == VAR_STATE_LEN
    ensures SetVarState(d, pay) == SetVarState(d, blob)
  {
    LongsPrefix(pay, blob, 21, 6);
    ShortsPrefix(pay, blob, 45, 6);
    hide Longs, Shorts;
  }

  lemma {:induction false} LongsPrefix(p: seq<byte>, b: seq<byte>, i: nat, n: nat)
    requires b <= p && i + 4 * n <= |b|
    ensures Longs(p, i, n) == Longs(b, i, n)
    decreases n
  {
    if n > 0 { LongsPrefix(p, b, i + 4, n - 1); }
  }

  lemma {:induction false} ShortsPrefix(p: seq<byte>, b: seq<byte>, i: nat, n: nat)
    requires b <= p && i + 2 * n <= |b|
    ensures Shorts(p, i, n) == Shorts(b, i, n)
    decreases n
  {
    if n > 0 { ShortsPrefix(p, b, i + 2, n - 1); }
  }

  // ------------------------------------------------------------------ jobs and settings

  // A save image: which chip, which selector, how long.
  lemma SaveLeaves(c: Chan, d: Dev, m: Command)
    requires Declared(c, d) && Idle(c) && Legal(c, d, m) && Fitting(m) && WritesSave(m.op)
    ensures var s := Perform(c, d, m).dev.save;
            s.len == |m.payload| && (s.isDmg <==> m.op == DMG_CART_WRITE_SRAM)
            && (m.op == AGB_CART_WRITE_EEPROM ==>
                  s.flash == 0 && s.eeprom == if m.args[0] == 0 then 1 else m.args[0])
            && (m.op == AGB_CART_WRITE_FLASH_DATA ==> s.flash == m.args[0] && s.eeprom == 0)
            && (m.op in {AGB_CART_WRITE_SRAM, DMG_CART_WRITE_SRAM} ==> s.flash == 0 && s.eeprom == 0)
  {
    var a, pay := CarriedPayload(c, d, m);
    hide Perform, PayloadLen, Banks, Pairs, Fnv;
  }

  // A program block: progress starts again whatever becomes of it, and its length is the payload's.
  lemma ProgramLeaves(c: Chan, d: Dev, m: Command)
    requires Declared(c, d) && Idle(c) && Legal(c, d, m) && m.op == FLASH_PROGRAM && m.payload != []
    ensures var e := Perform(c, d, m).dev;
            e.program.done == 0 && !e.program.err
            && e.program.len == if Asks(d, m, ProgramBlock) then |m.payload| else d.program.len
  {
    if |m.payload| <= PAYLOAD_MAX {
      var a, pay := CarriedPayload(c, d, m);
      hide Perform, PayloadLen, Banks, Pairs, Fnv;
    }
  }

  // The last payload that fitted is what FW_DUMP_PAYLOAD shows next, with its length.
  lemma DumpShows(c: Chan, d: Dev, m: Command, e: Dev)
    requires Declared(c, d) && Idle(c) && Legal(c, d, m) && Fitting(m)
    ensures var r := Perform(c, d, m); var ask := Command(FW_DUMP_PAYLOAD, [], []);
            Legal(r.chan, e, ask)
            && var s := Perform(r.chan, e, ask).reply;
               |s| == 2 + Min(e.v16[TRANSFER_SIZE], PAYLOAD_MAX)
               && Word(s[0], s[1]) == |m.payload|
               && forall i :: 0 <= i < |m.payload| && 2 + i < |s| ==> s[2 + i] == m.payload[i]
  {
    var a, pay := CarriedPayload(c, d, m);
    var r := Perform(c, d, m);
    var b := Carried(r.chan, e, FW_DUMP_PAYLOAD, []);
    hide Perform, Put16;
  }

  // A payload that did not fit, or none at all, leaves the earlier length standing.
  lemma DumpKeeps(c: Chan, d: Dev, m: Command, e: Dev)
    requires Declared(c, d) && Idle(c) && Legal(c, d, m) && !Fitting(m) && c.lastPay < 0x1_0000
    ensures var r := Perform(c, d, m); var ask := Command(FW_DUMP_PAYLOAD, [], []);
            Legal(r.chan, e, ask)
            && var s := Perform(r.chan, e, ask).reply;
               |s| >= 2 && Word(s[0], s[1]) == c.lastPay
               && (m.payload == [] ==> s[2..] == c.pay[..|s| - 2])
  {
    var r := Perform(c, d, m);
    var b := Carried(r.chan, e, FW_DUMP_PAYLOAD, []);
    hide PayloadDone, Put16;
  }

  // The overrides of this board: 16 bytes a step, 32 a latch, 0 for the default.
  lemma SettingsLeave(c: Chan, d: Dev, k: byte)
    requires Declared(c, d) && Idle(c)
    ensures var step, latch := Command(FW_SET_STEP, [k], []), Command(FW_SET_LATCH, [k], []);
            Legal(c, d, step) && Perform(c, d, step).dev.stepPin == 16 * (k as nat)
            && Legal(c, d, latch)
            && Perform(c, d, latch).dev.latch == if k == 0 then DEFAULT_LATCH else 32 * (k as nat)
  {
    var a := Carried(c, d, FW_SET_STEP, [k]);
    a := Carried(c, d, FW_SET_LATCH, [k]);
  }

  lemma TableLeaves(c: Chan, d: Dev, op: byte, key: byte)
    requires Declared(c, d) && Idle(c) && key < 18 && key != AUTO_POWEROFF_EN
    requires op in {SET_MODE_AGB, SET_MODE_DMG, ENABLE_PULLUPS, DISABLE_PULLUPS}
    ensures var m := Command(op, [], []);
            Legal(c, d, m)
            && var e := Perform(c, d, m).dev;
               (e.mode == if op == SET_MODE_AGB then Agb else if op == SET_MODE_DMG then Dmg else d.mode)
               && GetVariable(e, 1, key) ==
                  if key == CART_MODE && op == SET_MODE_AGB then 2
                  else if key == CART_MODE && op == SET_MODE_DMG then 1
                  else if key == PULLUPS_ENABLED && op == ENABLE_PULLUPS then 1
                  else if key == PULLUPS_ENABLED && op == DISABLE_PULLUPS then 0
                  else GetVariable(d, 1, key)
  {
    var a := Carried(c, d, op, []);
  }

  // The standing requests for the rail: AGB mode and 3.3 V drop the 5 V request, 5 V raises it;
  // power on, power off and bit 0 of SET_PIN move the target.
  lemma RailLeaves(c: Chan, d: Dev, op: byte)
    requires Declared(c, d) && Idle(c)
    requires op in {SET_MODE_AGB, SET_VOLTAGE_3_3V, SET_VOLTAGE_5V, CART_PWR_ON, CART_PWR_OFF}
    ensures var m := Command(op, [], []);
            Legal(c, d, m)
            && var e := Perform(c, d, m).dev;
               e.rail.five == (if op in {CART_PWR_ON, CART_PWR_OFF} then d.rail.five else op == SET_VOLTAGE_5V)
               && e.rail.powerTarget == (if op in {CART_PWR_ON, CART_PWR_OFF} then op == CART_PWR_ON
                                         else d.rail.powerTarget)
               && e.rail.isFive == d.rail.isFive && e.rail.pinMask == d.rail.pinMask
               && e.rail.pinHigh == d.rail.pinHigh
  {
    var a := Carried(c, d, op, []);
  }

  lemma PinLeaves(c: Chan, d: Dev, mask: nat, high: byte)
    requires Declared(c, d) && Idle(c) && mask < 0x1_0000_0000
    ensures var m := Command(SET_PIN, Put32(mask) + [high], []);
            Legal(c, d, m)
            && var e := Perform(c, d, m).dev;
               e.rail.pinMask == mask && e.rail.pinHigh == high && e.rail.five == d.rail.five
               && e.rail.isFive == d.rail.isFive
               && (e.rail.powerTarget <==> if mask % 2 == 1 then high != 0 else d.rail.powerTarget)
  {
    var args := Put32(mask) + [high];
    var a := Carried(c, d, SET_PIN, args);
    assert [] + Put32(mask) + [high] == args;
    LongArg(a, [], mask, [high]);
    hide Perform, Long, Put32;
  }

  // The EEPROM selector of a read, and the answers that come from the record alone.
  lemma SelectorLeaves(c: Chan, d: Dev, sel: byte)
    requires Declared(c, d) && Idle(c)
    ensures var m := Command(AGB_CART_READ_EEPROM, [sel], []);
            Legal(c, d, m) && Perform(c, d, m).dev.job == EepromRead(sel)
  {
    var a := Carried(c, d, AGB_CART_READ_EEPROM, [sel]);
  }

  lemma RecordAnswers(c: Chan, d: Dev, op: byte)
    requires Declared(c, d) && Idle(c) && op in {QUERY_CART_PWR, GET_SWITCH_STATE, AGB_READ_GPIO_RTC}
    ensures var m := Command(op, [], []);
            Legal(c, d, m)
            && var s := Perform(c, d, m).reply;
               (op == QUERY_CART_PWR ==> s == [GetVariable(d, 1, CART_POWERED)])
               && (op == GET_SWITCH_STATE ==> s == [0])
               && (op == AGB_READ_GPIO_RTC && d.mode != Agb ==> s == [0x80, 0, 0, 0, 0, 0, 0, 0])
  {
    var a := Carried(c, d, op, []);
    hide Perform, Over, Legal;
  }

  lemma InfoIs(d: Dev)
    ensures var s := FwInfo(d);
            s[0] == 8 && s[1] == 0x4C && Word(s[2], s[3]) == 15 && s[4] == d.pcbVer
            && Long(s, 5) == TIMESTAMP && s[9] == 12 && s[10..22] == NAME && s[22] == 1 && s[23] == 1
  {
    var head, t, tail := [8, 0x4C] + Put16(15) + [d.pcbVer], Put32(TIMESTAMP), [12] + NAME + [1, 1];
    LongAt(head, TIMESTAMP, tail);
    hide Put32, Long;
    assert FwInfo(d) == head + t + tail;
    assert tail[1..13] == NAME;
  }

  // Eight bytes of numbers behind their length, the name behind its own, two capability bytes.
  lemma InfoFields(c: Chan, d: Dev)
    requires Declared(c, d) && Idle(c)
    ensures var m := Command(QUERY_FW_INFO, [], []);
            Legal(c, d, m)
            && var s := Perform(c, d, m).reply;
               |s| == 24 && s[0] == 8 && s[1] == 0x4C && Word(s[2], s[3]) == 15 && s[4] == d.pcbVer
               && Long(s, 5) == TIMESTAMP && s[9] == 12 && s[10..22] == NAME && s[22] == 1 && s[23] == 1
  {
    var a := Carried(c, d, QUERY_FW_INFO, []);
    InfoIs(d.(terminatorDue := false));
    hide Perform, FwInfo, Long, Word;
  }

  // The echo is FNV-1a of the payload, most significant octet first.
  lemma EchoAnswers(c: Chan, d: Dev, m: Command)
    requires Declared(c, d) && Idle(c) && Legal(c, d, m) && m.op == FW_ECHO_PAYLOAD && Fitting(m)
    ensures var s := Perform(c, d, m).reply; |s| == 4 && Long(s, 0) == Fnv(m.payload)
  {
    var a, pay := CarriedPayload(c, d, m);
    assert pay[..|m.payload|] == m.payload;
    DoneAnswers(d, m, a, pay);
    hide Perform, Put32, Long, Fnv, PayloadDone;
  }

  lemma FnvSnoc(p: seq<byte>, b: byte)
    ensures Fnv(p + [b]) == FnvStep(Fnv(p), b)
  {
    hide FnvStep;
    assert (p + [b])[..|p|] == p;
  }

  // The published sum of the one-letter string "a".
  lemma FnvOfA()
    ensures Fnv([0x61]) == 0xE40C_292C
  {
    FnvSnoc([], 0x61);
    assert [] + [0x61] == [0x61];
    StepOfA();
    hide FnvStep;
  }

  lemma StepOfA()
    ensures FnvStep(0x811C_9DC5, 0x61) == 0xE40C_292C
  {
    XorOfA();
    hide Xor8;
    assert 0x811C_9DC5 % 0x100 == 0xC5;
    assert 0x811C_9DA4 * 16777619 == 0x81_1D68 * 0x1_0000_0000 + 0xE40C_292C;
  }

  lemma XorOfA()
    ensures Xor8(0xC5, 0x61) == 0xA4
  {
    assert 0xC5 as bv8 ^ 0x61 as bv8 == 0xA4 as bv8;
  }
}
