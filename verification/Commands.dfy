/** proto.c's command table: how long each command is on the wire and what it does once it is all
    there.  Nothing on the wire says where a command ends, so the two length functions are the
    framing, and the second one depends on TRANSFER_SIZE. */
module Commands {
  import opened Bytes
  import opened Device

  const RESYNC := 0x00
  const CMD_NULL := 0x30
  const DEBUG := 0xA0
  const QUERY_FW_INFO := 0xA1
  const SET_MODE_AGB := 0xA2
  const SET_MODE_DMG := 0xA3
  const SET_VOLTAGE_3_3V := 0xA4
  const SET_VOLTAGE_5V := 0xA5
  const SET_VARIABLE := 0xA6
  const SET_FLASH_CMD := 0xA7
  const SET_ADDR_AS_INPUTS := 0xA8
  const CLK_TOGGLE := 0xA9
  const ENABLE_PULLUPS := 0xAB
  const DISABLE_PULLUPS := 0xAC
  const GET_VARIABLE := 0xAD
  const GET_VAR_STATE := 0xAE
  const SET_VAR_STATE := 0xAF
  const DMG_CART_READ := 0xB1
  const DMG_CART_WRITE := 0xB2
  const DMG_CART_WRITE_SRAM := 0xB3
  const DMG_MBC_RESET := 0xB4
  const DMG_MBC7_WRITE_EEPROM := 0xB6
  const DMG_MBC6_MMSA_WRITE_FLASH := 0xB7
  const DMG_SET_BANK_CHANGE_CMD := 0xB8
  const DMG_EEPROM_WRITE := 0xB9
  const AGB_CART_READ := 0xC1
  const AGB_CART_WRITE := 0xC2
  const AGB_CART_READ_SRAM := 0xC3
  const AGB_CART_WRITE_SRAM := 0xC4
  const AGB_CART_READ_EEPROM := 0xC5
  const AGB_CART_WRITE_EEPROM := 0xC6
  const AGB_CART_WRITE_FLASH_DATA := 0xC7
  const AGB_CART_READ_3D_MEMORY := 0xC8
  const AGB_BOOTUP_SEQUENCE := 0xC9
  const AGB_READ_GPIO_RTC := 0xCA
  const DMG_FLASH_WRITE_BYTE := 0xD1
  const AGB_FLASH_WRITE_SHORT := 0xD2
  const FLASH_PROGRAM := 0xD3
  const CART_WRITE_FLASH_CMD := 0xD4
  const CALC_CRC32 := 0xD5
  const FW_BENCH_TX := 0xE0
  const FW_SET_STEP := 0xE1
  const FW_SET_LATCH := 0xE2
  const FW_DUMP_PAYLOAD := 0xE6
  const FW_ECHO_PAYLOAD := 0xE7
  const BOOTLOADER_RESET := 0xF1
  const CART_PWR_ON := 0xF2
  const CART_PWR_OFF := 0xF3
  const QUERY_CART_PWR := 0xF4
  const SET_PIN := 0xF5
  const GET_SWITCH_STATE := 0xF6
  const PING := 0xFE

  type Args = a: seq<byte> | |a| == ARG_MAX witness seq(ARG_MAX, _ => 0)
  type Pay = a: seq<byte> | |a| == PAYLOAD_MAX witness seq(PAYLOAD_MAX, _ => 0)

  predicate Known(op: byte) {
    || op == CMD_NULL || (0xA0 <= op <= 0xAF && op != 0xAA) || 0xB1 <= op <= 0xBA
    || 0xC1 <= op <= 0xCA || 0xD1 <= op <= 0xD5 || 0xF1 <= op <= 0xF6 || op == PING
  }

  // arg_len(): argument bytes that follow the opcode.
  function ArgLen(op: byte): (n: nat)
    ensures n <= ARG_MAX
  {
    if op in {PING, FW_SET_STEP, FW_SET_LATCH, AGB_CART_READ_EEPROM, AGB_CART_WRITE_EEPROM,
              AGB_CART_WRITE_FLASH_DATA, DMG_SET_BANK_CHANGE_CMD} then 1
    else if op == CART_WRITE_FLASH_CMD then 2
    else if op in {CLK_TOGGLE, CALC_CRC32} then 4
    else if op in {SET_PIN, DMG_CART_WRITE, DMG_FLASH_WRITE_BYTE, GET_VARIABLE} then 5
    else if op in {AGB_FLASH_WRITE_SHORT, AGB_CART_WRITE} then 6
    else if op == SET_VARIABLE then 9
    else if op == SET_FLASH_CMD then 39
    else 0
  }

  predicate TakesTransfer(op: byte) {
    op in {FLASH_PROGRAM, FW_ECHO_PAYLOAD, DMG_CART_WRITE_SRAM, AGB_CART_WRITE_SRAM,
           DMG_MBC7_WRITE_EEPROM, DMG_MBC6_MMSA_WRITE_FLASH, DMG_EEPROM_WRITE,
           AGB_CART_WRITE_EEPROM, AGB_CART_WRITE_FLASH_DATA}
  }

  // payload_len(): payload bytes that follow the arguments.
  function PayloadLen(d: Dev, op: byte, a: Args): (n: nat)
    ensures n <= MAX_TRANSFER
  {
    if op == CART_WRITE_FLASH_CMD then a[1] * 6
    else if TakesTransfer(op) then d.v16[TRANSFER_SIZE]
    else if op == DMG_SET_BANK_CHANGE_CMD then a[0] * 5
    else if op == SET_VAR_STATE then VAR_STATE_LEN
    else 0
  }

  // What a finished command leaves: the state and the reply.
  datatype Result = Result(dev: Dev, reply: seq<byte>)

  function Ack(d: Dev, f: Flag): Result {
    Result(d.(flags := d.flags + {f}), [ACK_OK])
  }

  // The error byte goes out only for opcodes in the host's table.
  function Refuse(d: Dev, op: byte): Result {
    Result(d, if Known(op) then [ACK_ERROR] else [])
  }

  const NAME: seq<byte> := [0x4F, 0x70, 0x65, 0x6E, 0x2D, 0x47, 0x42, 0x46, 0x6C, 0x61, 0x73, 0x68]
  const TIMESTAMP := 1789512082

  function FwInfo(d: Dev): (s: seq<byte>)
    ensures |s| == 24 && s[0] == 8 && s[9] == |NAME|
  {
    [8, 0x4C] + Put16(15) + [d.pcbVer] + Put32(TIMESTAMP) + [12] + NAME + [1, 1]
  }

  function Pairs(a: seq<byte>, i: nat, n: nat): (s: (seq<nat>, seq<nat>))
    requires i + 6 * n <= |a|
    ensures Words(s.0, n, 0x1_0000_0000) && Words(s.1, n, 0x1_0000)
    decreases n
  {
    if n == 0 then ([], [])
    else
      var (x, y) := Pairs(a, i + 6, n - 1);
      ([Long(a, i)] + x, [Word(a[i + 4], a[i + 5])] + y)
  }

  // execute(): a command with no payload.  page_terminator_due is sampled and cleared on the way.
  function Execute(was: Dev, op: byte, a: Args, pay: Pay, lastPay: nat): Result {
    var d: Dev := was.(terminatorDue := false);
    if op == RESYNC && was.terminatorDue then
      Result(d.(flags := d.flags + {PageEnd}), [])
    else if op == RESYNC || op == CMD_NULL then Result(d, [ACK_OK])
    else if op < 0xB0 then ExecuteSession(d, op, a)
    else if op < 0xD6 then ExecuteCart(d, op, a)
    else ExecutePrivate(d, op, a, pay, lastPay)
  }

  function ExecuteSession(d: Dev, op: byte, a: Args): Result {
    if op == DEBUG then Ack(d, Debug)
    else if op == QUERY_FW_INFO then Result(d, FwInfo(d))
    // AGB drops the standing voltage request with the mode; DMG does not raise it
    else if op == SET_MODE_AGB then
      Ack(d.(mode := Agb, v8 := d.v8[CART_MODE := 2], rail := d.rail.(five := false)), Voltage)
    else if op == SET_MODE_DMG then
      Result(d.(mode := Dmg, v8 := d.v8[CART_MODE := 1]), [ACK_OK])
    else if op == SET_VOLTAGE_3_3V || op == SET_VOLTAGE_5V then
      Ack(d.(rail := d.rail.(five := op == SET_VOLTAGE_5V)), Voltage)
    else if op == SET_VARIABLE then Result(SetVariable(d, a[0], Long(a, 1), Long(a, 5)), [ACK_OK])
    else if op == SET_FLASH_CMD then
      var (addrs, vals) := Pairs(a, 3, 6);
      Ack(d.(v8 := d.v8[FLASH_COMMAND_SET := a[0]][FLASH_METHOD := a[1]][FLASH_WE_PIN := a[2]],
             unlock := Unlock(a[2], addrs, vals)), WePin)
    else if op == SET_ADDR_AS_INPUTS then Ack(d, Tristate)
    else if op == CLK_TOGGLE then Ack(d.(job := ClkPulses(Long(a, 0))), Clk)
    else if op == ENABLE_PULLUPS then Ack(d.(v8 := d.v8[PULLUPS_ENABLED := 1]), Pullup)
    else if op == DISABLE_PULLUPS then Ack(d.(v8 := d.v8[PULLUPS_ENABLED := 0]), Pullup)
    else if op == GET_VARIABLE then Result(d, Put32(GetVariable(d, a[0], Long(a, 1))))
    else if op == GET_VAR_STATE then Result(d, GetVarState(d))
    else Refuse(d, op)
  }

  function ExecuteCart(d: Dev, op: byte, a: Args): Result {
    if op == DMG_CART_READ || op == AGB_CART_READ then Result(d.(flags := d.flags + {Read}), [])
    else if op == DMG_CART_WRITE then Ack(d.(job := CartWrite(Long(a, 0), a[4])), Write)
    else if op == DMG_MBC_RESET then Ack(d, MbcReset)
    // reached only at count 0
    else if op == DMG_SET_BANK_CHANGE_CMD then Result(d.(bankCmd := []), [ACK_OK])
    else if op == DMG_FLASH_WRITE_BYTE then
      Ack(d.(job := FlashWriteOf(Long(a, 0), a[4], false)), FlashWrite)
    else if op == AGB_CART_WRITE || op == AGB_FLASH_WRITE_SHORT then
      Ack(d.(job := FlashWriteOf(Long(a, 0), Word(a[4], a[5]), true)), FlashWrite)
    else if op == AGB_CART_READ_SRAM then Result(d.(flags := d.flags + {Read, ReadSave}), [])
    else if op == AGB_CART_READ_EEPROM then
      Result(d.(job := EepromRead(a[0]), flags := d.flags + {Read, ReadEeprom}), [])
    else if op == AGB_CART_READ_3D_MEMORY then
      Result(d.(flags := d.flags + {Read, Read3d}, terminatorDue := true), [])
    else if op == AGB_BOOTUP_SEQUENCE then
      Result(if d.mode == Agb then d.(flags := d.flags + {Bootup}) else d, [ACK_OK])
    // in AGB mode the main loop fills the eight bytes
    else if op == AGB_READ_GPIO_RTC then
      if d.mode == Agb then Result(d.(flags := d.flags + {RtcRead}), [0, 0, 0, 0, 0, 0, 0, 0])
      else Result(d, [0x80, 0, 0, 0, 0, 0, 0, 0])
    else if op == CALC_CRC32 then Result(d.(job := CrcOver(Long(a, 0)), flags := d.flags + {Crc}), [])
    else Refuse(d, op)
  }

  function ExecutePrivate(d: Dev, op: byte, a: Args, pay: Pay, lastPay: nat): Result {
    if op == FW_BENCH_TX then Result(d.(flags := d.flags + {Bench}), [])
    else if op == FW_SET_STEP then Result(d.(stepPin := (a[0] as nat) * 16), [ACK_OK])
    else if op == FW_SET_LATCH then
      Result(d.(latch := if a[0] != 0 then a[0] * 32 else DEFAULT_LATCH), [ACK_OK])
    else if op == FW_DUMP_PAYLOAD then
      Result(d, Put16(lastPay) + pay[..Min(d.v16[TRANSFER_SIZE], PAYLOAD_MAX)])
    else if op == BOOTLOADER_RESET then Ack(d, Reset)
    else if op == CART_PWR_ON || op == CART_PWR_OFF then Ack(d.(rail := d.rail.(powerTarget := op == CART_PWR_ON)), Power)
    else if op == QUERY_CART_PWR then Result(d, [d.v8[CART_POWERED]])
    // of all the pins only bit 0, the cartridge rail, acts
    else if op == SET_PIN then
      var e := d.(rail := d.rail.(pinMask := Long(a, 0), pinHigh := a[4]));
      if Long(a, 0) % 2 == 1 then Ack(e.(rail := e.rail.(powerTarget := a[4] != 0)), Power) else Result(e, [ACK_OK])
    else if op == GET_SWITCH_STATE then Result(d, [0])
    else if op == PING then Result(d, [255 - a[0]])
    else Refuse(d, op)
  }

  function Zip(x: seq<nat>, y: seq<nat>): (z: seq<(nat, nat)>)
    requires |x| == |y|
    ensures |z| == |x| && forall i :: 0 <= i < |x| ==> z[i] == (x[i], y[i])
    decreases x
  {
    if x == [] then [] else [(x[0], y[0])] + Zip(x[1..], y[1..])
  }

  function Banks(p: seq<byte>, n: nat): seq<(nat, byte)>
    requires 5 * n <= |p|
  {
    if n == 0 then [] else Banks(p, n - 1) + [(Long(p, 5 * n - 5), p[5 * n - 1])]
  }

  function Xor8(x: byte, y: byte): byte {
    (x as bv8 ^ y as bv8) as byte
  }

  // FNV-1a, 32 bits wide: an octet meets the low eight bits only.
  function FnvStep(h: nat, b: byte): (r: nat)
    ensures r < 0x1_0000_0000
  {
    (h - h % 0x100 + Xor8(h % 0x100, b)) * 16777619 % 0x1_0000_0000
  }

  function Fnv(p: seq<byte>): (h: nat)
    ensures h < 0x1_0000_0000
  {
    if p == [] then 0x811C_9DC5 else FnvStep(Fnv(p[..|p| - 1]), p[|p| - 1])
  }

  function SaveWritten(d: Dev, flash: byte, eeprom: byte, isDmg: bool, len: nat): Result {
    Ack(d.(save := SaveJob(flash, eeprom, isDmg, len)), SaveWrite)
  }

  // payload_done(): a payload that fitted is all there.
  function PayloadDone(d: Dev, op: byte, a: Args, pay: Pay, got: nat): Result
    requires got == PayloadLen(d, op, a) <= PAYLOAD_MAX
  {
    if op == CART_WRITE_FLASH_CMD then
      // a longer batch is refused whole
      if a[1] > BATCH_MAX then Result(d, [ACK_ERROR])
      else
        var (addrs, vals) := Pairs(pay, 0, a[1]);
        Ack(d.(job := BatchOf(Zip(addrs, vals), a[0])), Batch)
    else if op == FLASH_PROGRAM then
      if d.v8[FLASH_METHOD] > 2 then Result(d, [ACK_ERROR])
      else Ack(d.(program := d.program.(len := got)), ProgramBlock)
    else if op == AGB_CART_WRITE_EEPROM then
      SaveWritten(d, 0, if a[0] != 0 then a[0] else 1, false, got)
    else if op == AGB_CART_WRITE_FLASH_DATA then SaveWritten(d, a[0], 0, false, got)
    else if op == AGB_CART_WRITE_SRAM || op == DMG_CART_WRITE_SRAM then
      SaveWritten(d, 0, 0, op == DMG_CART_WRITE_SRAM, got)
    else if op == DMG_SET_BANK_CHANGE_CMD then
      if a[0] > BANK_CMD_MAX then Result(d, [ACK_ERROR])
      else Result(d.(bankCmd := Banks(pay, a[0])), [ACK_OK])
    else if op == FW_ECHO_PAYLOAD then Result(d, Put32(Fnv(pay[..got])))
    else if op == SET_VAR_STATE then Result(SetVarState(d, pay), [ACK_OK])
    else Refuse(d, op)
  }

  // payload_opened()
  function Opened(d: Dev, op: byte): Dev {
    if op == FLASH_PROGRAM then d.(program := d.program.(done := 0, err := false)) else d
  }
}
