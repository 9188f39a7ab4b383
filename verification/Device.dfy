/** The record proto.c keeps about the cartridge session, and what each command does to it.  A
    request flag is raised here and drained by the main loop. */
module Device {
  import opened Bytes

  const MAX_TRANSFER := 0x2000   // FW_MAX_TRANSFER
  const PAYLOAD_MAX := 0x800     // FW_PAYLOAD_MAX
  const ARG_MAX := 0x40          // FW_CMD_BUF_LEN
  const BATCH_MAX := 32          // FW_BATCH_MAX
  const BANK_CMD_MAX := 8        // FW_BANK_CMD_MAX
  const VAR_STATE_LEN := 64      // FW_VAR_STATE_LEN
  const DEFAULT_LATCH := 128     // FW_CART_LATCH
  const ACK_OK: byte := 1
  const ACK_ERROR: byte := 2

  datatype Mode = NoMode | Dmg | Agb

  datatype Flag =
    | Read | ReadSave | ReadEeprom | Read3d | PageEnd | RtcRead | Bootup | Crc | SaveWrite | WePin
    | Audio | Bench | Power | Pullup | Tristate | Voltage | Write | MbcReset | Debug | Clk | Batch
    | ProgramBlock | FlashWrite | Reset

  // Keys of the 8-bit and the 16-bit table.
  const CART_MODE := 0x00
  const DMG_ACCESS_MODE := 0x01
  const FLASH_COMMAND_SET := 0x02
  const FLASH_METHOD := 0x03
  const FLASH_WE_PIN := 0x04
  const DMG_READ_CS_PULSE := 0x08
  const DMG_WRITE_CS_PULSE := 0x09
  const DMG_READ_METHOD := 0x0B
  const AGB_READ_METHOD := 0x0C
  const CART_POWERED := 0x0D
  const PULLUPS_ENABLED := 0x0E
  const AUTO_POWEROFF_EN := 0x0F
  const AGB_IRQ_ENABLED := 0x10
  const DMG_AUDIO_ENABLED := 0x11
  const TRANSFER_SIZE := 0
  const BUFFER_SIZE := 1
  const DMG_ROM_BANK := 2
  const LAST_BANK := 4

  // SET_FLASH_CMD: the pairs replayed before each word; wePin is flash_we_pin, while the live
  // selector is 8-bit variable 4.
  datatype Unlock = Unlock(wePin: byte, addr: seq<nat>, val: seq<nat>)

  datatype SaveJob = SaveJob(flash: byte, eeprom: byte, isDmg: bool, len: nat)

  datatype Rail = Rail(powerTarget: bool, pinMask: nat, pinHigh: byte, five: bool, isFive: bool)

  datatype Program = Program(len: nat, done: nat, err: bool)

  // Arguments of the requests that carry any.
  datatype Job =
    | NoJob
    | EepromRead(sel: byte)
    | CrcOver(len: nat)
    | CartWrite(addr: nat, value: byte)
    | ClkPulses(pulses: nat)
    | FlashWriteOf(flashAddr: nat, flashVal: nat, isAgb: bool)
    | BatchOf(pairs: seq<(nat, nat)>, flashcart: byte)

  datatype Raw = Raw(
    mode: Mode,
    address: nat,
    v16: seq<nat>,              // the 16-bit variables by key
    v8: seq<byte>,              // the 8-bit variables by key
    diag: seq<nat>,             // read-only 16-bit diagnostics, keys 0x7C to 0x7F
    pcbVer: byte,
    flags: set<Flag>,
    terminatorDue: bool,        // page_terminator_due
    job: Job,                   // arguments of the request raised last
    save: SaveJob,
    rail: Rail,
    unlock: Unlock,
    bankCmd: seq<(nat, byte)>,
    program: Program,
    stepPin: nat,
    latch: nat)

  predicate Words(s: seq<nat>, n: nat, bound: nat) {
    |s| == n && forall i :: 0 <= i < n ==> s[i] < bound
  }

  predicate Wf(d: Raw) {
    && Words(d.v16, 7, 0x1_0000) && d.v16[TRANSFER_SIZE] <= MAX_TRANSFER
    && |d.v8| == 18 && Words(d.diag, 4, 0x1_0000)
    && d.address < 0x1_0000_0000
    && Words(d.unlock.addr, 6, 0x1_0000_0000) && Words(d.unlock.val, 6, 0x1_0000)
  }

  const Start := Raw(NoMode, 0, [64, 0, 0, 0, 0, 0, 0],
                     [0, 0, 0, 0, 0, 0, 0, 0, 0, 0, 0, 0, 0, 0, 0, 0, 0, 0], [0, 0, 0, 0], 0,
                     {}, false, NoJob, SaveJob(0, 0, false, 0), Rail(false, 0, 0, false, false),
                     Unlock(0, [0, 0, 0, 0, 0, 0], [0, 0, 0, 0, 0, 0]), [],
                     Program(0, 0, false), 0, DEFAULT_LATCH)

  // Every state fw_proto_init() and the commands can reach keeps transfer_size in bounds.
  type Dev = d: Raw | Wf(d) witness Start

  function Word(hi: byte, lo: byte): (w: nat)
    ensures w < 0x1_0000
  {
    hi * 0x100 + lo
  }

  function Long(a: seq<byte>, i: nat): (v: nat)
    requires i + 4 <= |a|
    ensures v < 0x1_0000_0000
  {
    Be32(a[i], a[i + 1], a[i + 2], a[i + 3])
  }

  function Put16(v: nat): (s: seq<byte>)
    ensures |s| == 2 && (v < 0x1_0000 ==> Word(s[0], s[1]) == v && s[0] == v / 0x100)
  {
    [v / 0x100 % 0x100, v % 0x100]
  }

  function Put32(v: nat): (s: seq<byte>)
    ensures |s| == 4 && (v < 0x1_0000_0000 ==> Long(s, 0) == v)
  {
    var a := v / 0x100;
    var b := a / 0x100;
    [b / 0x100 % 0x100, b % 0x100, a % 0x100, v % 0x100]
  }

  // Most significant octet first.
  lemma OctetsInOrder(b3: byte, b2: byte, b1: byte, b0: byte)
    ensures Put32(b3 * 0x100_0000 + b2 * 0x1_0000 + b1 * 0x100 + b0) == [b3, b2, b1, b0]
    ensures Put16(b1 * 0x100 + b0) == [b1, b0]
  {
    var v := b3 * 0x100_0000 + b2 * 0x1_0000 + b1 * 0x100 + b0;
    var a := b3 * 0x1_0000 + b2 * 0x100 + b1;
    Shift(a, b0);
    Shift(b3 * 0x100 + b2, b1);
    Shift(b3, b2);
    Shift(b1, b0);
    assert v == a * 0x100 + b0;
  }

  lemma Shift(a: nat, b: byte)
    ensures (a * 0x100 + b) / 0x100 == a && (a * 0x100 + b) % 0x100 == b
  {
  }

  // ------------------------------------------------------------------ variables

  // The size byte picks the table before the key is looked at.
  function SetVariable(d: Dev, size: byte, key: nat, value: nat): Dev
    requires value < 0x1_0000_0000
  {
    if size == 4 then
      if key == 0 then d.(address := value) else d
    else if size == 2 then
      if key == TRANSFER_SIZE then d.(v16 := d.v16[key := Min(value, MAX_TRANSFER)])
      else if key == DMG_ROM_BANK then
        d.(v16 := d.v16[key := value % 0x1_0000][LAST_BANK := value % 0x100])
      else if key < 7 then d.(v16 := d.v16[key := value % 0x1_0000])
      else d
    else if size == 1 then SetVariable8(d, key, value % 0x100)
    else d
  }

  function SetVariable8(d: Dev, key: nat, value: byte): Dev {
    if key >= 18 || key == AUTO_POWEROFF_EN then d
    else d.(v8 := d.v8[key := value], flags := d.flags + Raised(d.mode, key))
  }

  // The live write-enable selector re-arms its pin; the audio pin follows the current mode only.
  function Raised(mode: Mode, key: nat): set<Flag> {
    if key == FLASH_WE_PIN then {WePin}
    else if (key == AGB_IRQ_ENABLED && mode == Agb) || (key == DMG_AUDIO_ENABLED && mode == Dmg) then {Audio}
    else {}
  }

  function GetVariable(d: Dev, size: byte, key: nat): nat {
    if size == 4 then (if key == 0 then d.address else 0)
    else if size == 2 then
      if key < 7 then d.v16[key] else if 0x7C <= key <= 0x7F then d.diag[key - 0x7C] else 0
    else if size == 1 then
      if key < 18 && key != AUTO_POWEROFF_EN then d.v8[key] else 0
    else 0
  }

  predicate Settable(size: byte, key: nat) {
    (size == 4 && key == 0) || (size == 2 && key < 7) || (size == 1 && key < 18 && key != AUTO_POWEROFF_EN)
  }

  function Stored(size: byte, key: nat, value: nat): nat {
    if size == 4 then value
    else if size == 2 then if key == TRANSFER_SIZE then Min(value, MAX_TRANSFER) else value % 0x1_0000
    else value % 0x100
  }

  // A variable reads back as it was stored, and no other variable moves, except that selecting a
  // DMG ROM bank also records it as the last bank accessed.
  lemma VariableReadsBack(d: Dev, size: byte, key: nat, value: nat, size2: byte, key2: nat)
    requires value < 0x1_0000_0000
    ensures GetVariable(SetVariable(d, size, key, value), size2, key2) ==
            if Settable(size, key) && size == size2 && key == key2 then Stored(size, key, value)
            else if size == 2 && key == DMG_ROM_BANK && size2 == 2 && key2 == LAST_BANK then value % 0x100
            else GetVariable(d, size2, key2)
  {
    if size == 1 {
      SetsOne8(d, key, value % 0x100);
    } else if size == 2 {
      SetsOne16(d, key, value);
    }
  }

  lemma SetsOne8(d: Dev, key: nat, value: byte)
    ensures var e := SetVariable8(d, key, value);
            e == d.(v8 := e.v8, flags := e.flags)
            && e.v8 == if key < 18 && key != AUTO_POWEROFF_EN then d.v8[key := value] else d.v8
  {
  }

  lemma SetsOne16(d: Dev, key: nat, value: nat)
    requires value < 0x1_0000_0000
    ensures var e := SetVariable(d, 2, key, value);
            e == d.(v16 := e.v16)
            && forall k :: 0 <= k < 7 ==>
                 (e.v16[k] == if k == key then Stored(2, key, value)
                              else if key == DMG_ROM_BANK && k == LAST_BANK then value % 0x100
                              else d.v16[k])
  {
  }

  // ------------------------------------------------------------------ the var-state blob

  function Puts32(s: seq<nat>): (t: seq<byte>)
    ensures |t| == 4 * |s|
    decreases s
  {
    if s == [] then [] else Put32(s[0]) + Puts32(s[1..])
  }

  function Puts16(s: seq<nat>): (t: seq<byte>)
    ensures |t| == 2 * |s|
    decreases s
  {
    if s == [] then [] else Put16(s[0]) + Puts16(s[1..])
  }

  function Longs(a: seq<byte>, i: nat, n: nat): (s: seq<nat>)
    requires i + 4 * n <= |a|
    decreases n
    ensures Words(s, n, 0x1_0000_0000)
  {
    if n == 0 then [] else [Long(a, i)] + Longs(a, i + 4, n - 1)
  }

  function Shorts(a: seq<byte>, i: nat, n: nat): (s: seq<nat>)
    requires i + 2 * n <= |a|
    decreases n
    ensures Words(s, n, 0x1_0000)
  {
    if n == 0 then [] else [Word(a[i], a[i + 1])] + Shorts(a, i + 2, n - 1)
  }

  function VarHead(d: Dev): (s: seq<byte>)
    ensures |s| == 8
  {
    [1, d.v8[CART_MODE], d.v8[DMG_ACCESS_MODE], d.v8[DMG_READ_METHOD], d.v8[DMG_READ_CS_PULSE],
     d.v8[DMG_WRITE_CS_PULSE], d.v8[AGB_READ_METHOD], d.v8[PULLUPS_ENABLED]]
  }

  function VarMiddle(d: Dev): (s: seq<byte>)
    ensures |s| == 13
  {
    Put32(d.address) + Put16(d.v16[TRANSFER_SIZE]) + Put16(d.v16[BUFFER_SIZE])
    + Put16(d.v16[DMG_ROM_BANK])
    + [d.v8[FLASH_COMMAND_SET], d.v8[FLASH_METHOD], d.v8[FLASH_WE_PIN]]
  }

  function GetVarState(d: Dev): (s: seq<byte>)
    ensures |s| == VAR_STATE_LEN
  {
    VarHead(d) + VarMiddle(d) + Puts32(d.unlock.addr) + Puts16(d.unlock.val) + [0, 0, 0, 0, 0, 0, 0]
  }

  // Cart power, mode and voltage are not in the blob.
  function SetVarState(d: Dev, b: seq<byte>): Dev
    requires |b| >= VAR_STATE_LEN
  {
    if b[0] != 1 then d
    else
      d.(v8 := d.v8[CART_MODE := b[1]][DMG_ACCESS_MODE := b[2]][DMG_READ_METHOD := b[3]]
                   [DMG_READ_CS_PULSE := b[4]][DMG_WRITE_CS_PULSE := b[5]][AGB_READ_METHOD := b[6]]
                   [PULLUPS_ENABLED := b[7]][FLASH_COMMAND_SET := b[18]][FLASH_METHOD := b[19]]
                   [FLASH_WE_PIN := b[20]],
         address := Long(b, 8),
         v16 := d.v16[TRANSFER_SIZE := Min(Word(b[12], b[13]), MAX_TRANSFER)]
                     [BUFFER_SIZE := Word(b[14], b[15])][DMG_ROM_BANK := Word(b[16], b[17])],
         unlock := Unlock(b[20], Longs(b, 21, 6), Shorts(b, 45, 6)), flags := d.flags + {WePin})
  }

  lemma LongAt(a: seq<byte>, v: nat, c: seq<byte>)
    requires v < 0x1_0000_0000
    ensures Long(a + Put32(v) + c, |a|) == v
  {
    var s := a + Put32(v) + c;
    assert s[|a|] == Put32(v)[0] && s[|a| + 1] == Put32(v)[1];
    assert s[|a| + 2] == Put32(v)[2] && s[|a| + 3] == Put32(v)[3];
  }

  lemma WordAt(a: seq<byte>, v: nat, c: seq<byte>)
    requires v < 0x1_0000
    ensures var s := a + Put16(v) + c; Word(s[|a|], s[|a| + 1]) == v
  {
  }

  lemma {:induction false} LongsAt(a: seq<byte>, s: seq<nat>, c: seq<byte>)
    requires Words(s, |s|, 0x1_0000_0000)
    ensures Longs(a + Puts32(s) + c, |a|, |s|) == s
    decreases s
  {
    if s != [] {
      hide Long;
      hide Put32;
      var t, rest := a + Puts32(s) + c, Puts32(s[1..]);
      assert t == a + Put32(s[0]) + (rest + c) == a + Put32(s[0]) + rest + c;
      LongAt(a, s[0], rest + c);
      LongsAt(a + Put32(s[0]), s[1..], c);
    }
  }

  lemma {:induction false} ShortsAt(a: seq<byte>, s: seq<nat>, c: seq<byte>)
    requires Words(s, |s|, 0x1_0000)
    ensures Shorts(a + Puts16(s) + c, |a|, |s|) == s
    decreases s
  {
    if s != [] {
      hide Word;
      hide Put16;
      var t, rest := a + Puts16(s) + c, Puts16(s[1..]);
      assert t == a + Put16(s[0]) + (rest + c) == a + Put16(s[0]) + rest + c;
      WordAt(a, s[0], rest + c);
      ShortsAt(a + Put16(s[0]), s[1..], c);
    }
  }

  // What GET_VAR_STATE saves of d, laid over e.
  function Restored(d: Dev, e: Dev): Raw {
    e.(v8 := e.v8[CART_MODE := d.v8[CART_MODE]][DMG_ACCESS_MODE := d.v8[DMG_ACCESS_MODE]]
                 [DMG_READ_METHOD := d.v8[DMG_READ_METHOD]][DMG_READ_CS_PULSE := d.v8[DMG_READ_CS_PULSE]]
                 [DMG_WRITE_CS_PULSE := d.v8[DMG_WRITE_CS_PULSE]][AGB_READ_METHOD := d.v8[AGB_READ_METHOD]]
                 [PULLUPS_ENABLED := d.v8[PULLUPS_ENABLED]][FLASH_COMMAND_SET := d.v8[FLASH_COMMAND_SET]]
                 [FLASH_METHOD := d.v8[FLASH_METHOD]][FLASH_WE_PIN := d.v8[FLASH_WE_PIN]],
       address := d.address,
       v16 := e.v16[TRANSFER_SIZE := d.v16[TRANSFER_SIZE]][BUFFER_SIZE := d.v16[BUFFER_SIZE]]
                   [DMG_ROM_BANK := d.v16[DMG_ROM_BANK]],
       unlock := d.unlock.(wePin := d.v8[FLASH_WE_PIN]), flags := e.flags + {WePin})
  }

  lemma BlobMiddle(d: Dev)
    ensures var b := GetVarState(d);
            Long(b, 8) == d.address
            && Word(b[12], b[13]) == d.v16[TRANSFER_SIZE] && Word(b[14], b[15]) == d.v16[BUFFER_SIZE]
            && Word(b[16], b[17]) == d.v16[DMG_ROM_BANK]
            && b[18] == d.v8[FLASH_COMMAND_SET] && b[19] == d.v8[FLASH_METHOD] && b[20] == d.v8[FLASH_WE_PIN]
  {
    var b, m := GetVarState(d), VarMiddle(d);
    hide Puts32, Puts16, VarHead, Put32, Put16;
    var rest := Puts32(d.unlock.addr) + Puts16(d.unlock.val) + [0, 0, 0, 0, 0, 0, 0];
    assert b == VarHead(d) + m + rest;
    assert b[8..21] == m;
    assert forall i :: 0 <= i < 13 ==> m[i] == b[8 + i];
  }

  lemma BlobHead(d: Dev)
    ensures var b := GetVarState(d);
            b[0] == 1 && b[1] == d.v8[CART_MODE] && b[2] == d.v8[DMG_ACCESS_MODE]
            && b[3] == d.v8[DMG_READ_METHOD] && b[4] == d.v8[DMG_READ_CS_PULSE]
            && b[5] == d.v8[DMG_WRITE_CS_PULSE] && b[6] == d.v8[AGB_READ_METHOD]
            && b[7] == d.v8[PULLUPS_ENABLED]
  {
    assert GetVarState(d)[..8] == VarHead(d);
  }

  lemma BlobTail(d: Dev)
    ensures Longs(GetVarState(d), 21, 6) == d.unlock.addr && Shorts(GetVarState(d), 45, 6) == d.unlock.val
  {
    hide Longs, Shorts, Puts32, Puts16, VarHead, VarMiddle;
    var b := GetVarState(d);
    var front, pad: seq<byte> := VarHead(d) + VarMiddle(d), [0, 0, 0, 0, 0, 0, 0];
    assert b == front + Puts32(d.unlock.addr) + (Puts16(d.unlock.val) + pad);
    LongsAt(front, d.unlock.addr, Puts16(d.unlock.val) + pad);
    assert b == (front + Puts32(d.unlock.addr)) + Puts16(d.unlock.val) + pad;
    ShortsAt(front + Puts32(d.unlock.addr), d.unlock.val, pad);
  }

  // Saving in one state and restoring in another carries over exactly these fields; restoring
  // where it was saved changes nothing but the write-enable copy, which takes the live pin.
  lemma VarStateRoundTrip(d: Dev, e: Dev)
    ensures SetVarState(e, GetVarState(d)) == Restored(d, e)
    ensures Restored(d, d) == d.(unlock := d.unlock.(wePin := d.v8[FLASH_WE_PIN]), flags := d.flags + {WePin})
  {
    hide GetVarState, Long, Word, Longs, Shorts;
    BlobHead(d);
    BlobMiddle(d);
    BlobTail(d);
  }
}
