/** FLASH_PROGRAM: src/main.c programs chunks of a block while the rest of it is still arriving, and
    finishes the block once it is complete.  The chip is an oracle over everything it has been
    asked so far.  Whatever the packets and whenever the pumps run, the chip sees exactly what
    programming the complete block would have asked of it. */
module Streaming {
  import opened Bytes
  import opened Device

  // One chunk handed to the chip: a buffer load, or a single word or byte.
  datatype Op = Op(buffered: bool, addr: nat, data: seq<byte>)

  // The completion poll: done, or 500 ms passed and this is what the chip read back.
  datatype Outcome = Done | TimedOut(status: nat)

  type Chip = seq<Op> -> Outcome

  // What a block has come to: the chip's history, whether every chunk retired, STATUS_REGISTER.
  datatype Fate = Fate(ops: seq<Op>, ok: bool, status: nat)

  function Wrap(a: nat): nat { a % 0x1_0000_0000 }

  // How a block is cut: unit is 2 bytes on AGB and 1 on DMG, load the units per chunk.
  datatype Cut = Cut(buffered: bool, unit: nat, load: nat)

  predicate Whole(k: Cut) { (k.unit == 1 || k.unit == 2) && k.load > 0 }

  // n units in bytes, and n bytes in whole units.
  function Span(k: Cut, n: nat): nat { if k.unit == 2 then 2 * n else n }
  function Units(k: Cut, n: nat): nat { if k.unit == 2 then n / 2 else n }

  function Piece(k: Cut, address: nat, block: seq<byte>, done: nat, have: nat): Op
    requires Whole(k) && done + Span(k, have) <= |block|
  {
    Op(k.buffered, Wrap(address + Units(k, done)), block[done..done + Span(k, have)])
  }

  lemma PieceIs(k: Cut, address: nat, block: seq<byte>, done: nat, have: nat)
    requires Whole(k) && done + Span(k, have) <= |block|
    ensures Piece(k, address, block, done, have)
            == Op(k.buffered, Wrap(address + Units(k, done)), block[done..done + Span(k, have)])
  {
  }

  function Have(k: Cut, n: nat, done: nat): (have: nat)
    requires Whole(k) && done + k.unit <= n
    ensures 0 < have <= k.load && done + Span(k, have) <= n
    ensures have == k.load || n < done + Span(k, have) + k.unit
  {
    Min(Units(k, n - done), k.load)
  }

  // The serial form: the complete block from byte `done' on, chunk after chunk, up to the first
  // chunk that times out.
  function Serial(chip: Chip, k: Cut, address: nat, block: seq<byte>, done: nat, f: Fate): Fate
    requires Whole(k)
    decreases |block| - done
  {
    if !f.ok || done + k.unit > |block| then f
    else
      var have := Have(k, |block|, done);
      Serial(chip, k, address, block, done + Span(k, have), Load(chip, f, Piece(k, address, block, done, have)))
  }

  function Load(chip: Chip, f: Fate, op: Op): Fate {
    var ops := f.ops + [op];
    match chip(ops)
    case Done => Fate(ops, true, f.status)
    case TimedOut(status) => Fate(ops, false, status)
  }

  // A full chunk inside what has arrived is the serial form's next chunk, whatever comes later.
  lemma FullChunkIsNext(chip: Chip, k: Cut, address: nat, block: seq<byte>, done: nat, f: Fate)
    requires Whole(k) && f.ok && done + Span(k, k.load) <= |block|
    ensures Have(k, |block|, done) == k.load
    ensures Serial(chip, k, address, block, done, f) ==
            Serial(chip, k, address, block, done + Span(k, k.load),
                   Load(chip, f, Piece(k, address, block, done, k.load)))
  {
  }

  lemma SerialStops(chip: Chip, k: Cut, address: nat, block: seq<byte>, done: nat, f: Fate)
    requires Whole(k) && !f.ok
    ensures Serial(chip, k, address, block, done, f) == f
  {
  }

  // FLASH_METHOD 1, and method 2 without a usable buffer: a unit at a time.  On DMG a byte of 0xFF
  // programs nothing and is passed over when FW_DMG_SKIP_FF is built in.
  function Singles(chip: Chip, k: Cut, skip: bool, address: nat, block: seq<byte>, done: nat, f: Fate): Fate
    requires Whole(k) && k.load == 1
    decreases |block| - done
  {
    if !f.ok || done + k.unit > |block| then f
    else
      Singles(chip, k, skip, address, block, done + k.unit,
              if skip && k.unit == 1 && block[done] == 255 then f
              else Load(chip, f, Piece(k, address, block, done, 1)))
  }

  lemma SerialPast(chip: Chip, k: Cut, address: nat, block: seq<byte>, done: nat, f: Fate)
    requires Whole(k) && done + k.unit > |block|
    ensures Serial(chip, k, address, block, done, f) == f
  {
  }

  // The units of a block: little-endian words on AGB, bytes on DMG; an odd last byte is no word.
  function Count(k: Cut, block: seq<byte>): nat {
    if k.unit == 2 then |block| / 2 else |block|
  }

  function UnitAt(k: Cut, block: seq<byte>, u: nat): seq<byte>
    requires u < Count(k, block)
  {
    if k.unit == 2 then [block[2 * u], block[2 * u + 1]] else [block[u]]
  }

  // Only a DMG byte is ever passed over.
  predicate Blank(k: Cut, skip: bool, block: seq<byte>, u: nat)
    requires u < Count(k, block)
  {
    skip && k.unit == 1 && UnitAt(k, block, u) == [255]
  }

  // The chip retired every operation after the first n but perhaps the last, and that one too
  // exactly if the block went well; the status is what a timeout read, or untouched.
  ghost predicate Retired(chip: Chip, n: nat, f: Fate, g: Fate) {
    && f.ops <= g.ops
    && (forall i :: n < i <= |g.ops| ==> (chip(g.ops[..i]) == Done <==> i < |g.ops| || g.ok))
    && (if g.ok then g.status == f.status
        else |g.ops| > n && chip(g.ops) == TimedOut(g.status))
  }

  // at[j] is the unit the j-th operation after the first n programs.
  ghost predicate Programs(k: Cut, skip: bool, address: nat, block: seq<byte>, ops: seq<Op>, n: nat, at: seq<nat>) {
    && |ops| == n + |at|
    && (forall j :: 0 <= j < |at| ==>
          at[j] < Count(k, block) && !Blank(k, skip, block, at[j])
          && ops[n + j] == Op(k.buffered, Wrap(address + at[j]), UnitAt(k, block, at[j])))
    && (forall i, j :: 0 <= i < j < |at| ==> at[i] < at[j])
  }

  lemma SinglesNext(chip: Chip, k: Cut, skip: bool, address: nat, block: seq<byte>, u: nat, f: Fate) returns (h: Fate)
    requires Whole(k) && k.load == 1 && f.ok && u < Count(k, block)
    ensures Singles(chip, k, skip, address, block, Span(k, u), f) ==
            Singles(chip, k, skip, address, block, Span(k, u + 1), h)
    ensures h == if Blank(k, skip, block, u) then f
                 else Load(chip, f, Op(k.buffered, Wrap(address + u), UnitAt(k, block, u)))
  {
    hide Load, Wrap;
    var p := Piece(k, address, block, Span(k, u), 1);
    assert Units(k, Span(k, u)) == u && p.data == UnitAt(k, block, u);
    h := if Blank(k, skip, block, u) then f else Load(chip, f, p);
  }

  lemma SinglesEnd(chip: Chip, k: Cut, skip: bool, address: nat, block: seq<byte>, done: nat, f: Fate)
    requires Whole(k) && k.load == 1 && (!f.ok || done + k.unit > |block|)
    ensures Singles(chip, k, skip, address, block, done, f) == f
  {
  }

  lemma Loaded(chip: Chip, f: Fate, op: Op)
    requires f.ok
    ensures Retired(chip, |f.ops|, f, Load(chip, f, op)) && Load(chip, f, op).ops == f.ops + [op]
  {
    var g := Load(chip, f, op);
    assert g.ops[..|g.ops|] == g.ops;
  }

  lemma RetiredOn(chip: Chip, f: Fate, g: Fate, h: Fate)
    requires g.ok && Retired(chip, |f.ops|, f, g) && Retired(chip, |g.ops|, g, h)
    ensures Retired(chip, |f.ops|, f, h)
  {
    forall i | |f.ops| < i <= |h.ops|
      ensures chip(h.ops[..i]) == Done <==> i < |h.ops| || h.ok
    {
      if i <= |g.ops| { assert h.ops[..i] == g.ops[..i]; }
    }
  }

  lemma {:induction false} SinglesRetire(chip: Chip, k: Cut, skip: bool, address: nat, block: seq<byte>, u: nat, f: Fate)
    requires Whole(k) && k.load == 1 && u <= Count(k, block) && f.ok
    ensures Retired(chip, |f.ops|, f, Singles(chip, k, skip, address, block, Span(k, u), f))
    decreases Count(k, block) - u
  {
    hide Singles, Load, Retired;
    if u == Count(k, block) {
      SinglesEnd(chip, k, skip, address, block, Span(k, u), f);
      Unchanged(chip, f);
    } else {
      var h := SinglesNext(chip, k, skip, address, block, u, f);
      if Blank(k, skip, block, u) {
        SinglesRetire(chip, k, skip, address, block, u + 1, h);
      } else {
        Loaded(chip, f, Op(k.buffered, Wrap(address + u), UnitAt(k, block, u)));
        if h.ok {
          SinglesRetire(chip, k, skip, address, block, u + 1, h);
          RetiredOn(chip, f, h, Singles(chip, k, skip, address, block, Span(k, u + 1), h));
        } else {
          SinglesEnd(chip, k, skip, address, block, Span(k, u + 1), h);
        }
      }
    }
  }

  lemma Unchanged(chip: Chip, f: Fate)
    requires f.ok
    ensures Retired(chip, |f.ops|, f, f)
  {
  }

  // From unit u on: what is programmed, and that nothing but a blank is passed over before the end
  // or the timeout.
  ghost predicate Lists(k: Cut, skip: bool, address: nat, block: seq<byte>, u: nat, f: Fate, g: Fate, at: seq<nat>) {
    && Programs(k, skip, address, block, g.ops, |f.ops|, at)
    && (forall j :: 0 <= j < |at| ==> u <= at[j])
    && (forall v :: u <= v < Count(k, block) && (g.ok || (at != [] && v < at[|at| - 1])) && !Blank(k, skip, block, v)
          ==> v in at)
  }

  lemma ListsBlank(k: Cut, skip: bool, address: nat, block: seq<byte>, u: nat, f: Fate, g: Fate, at: seq<nat>)
    requires u < Count(k, block) && Blank(k, skip, block, u) && Lists(k, skip, address, block, u + 1, f, g, at)
    ensures Lists(k, skip, address, block, u, f, g, at)
  {
  }

  lemma ProgramsCons(k: Cut, skip: bool, address: nat, block: seq<byte>, u: nat, ops: seq<Op>, n: nat, at: seq<nat>)
    requires u < Count(k, block) && !Blank(k, skip, block, u) && n < |ops|
    requires ops[n] == Op(k.buffered, Wrap(address + u), UnitAt(k, block, u))
    requires Programs(k, skip, address, block, ops, n + 1, at) && forall j :: 0 <= j < |at| ==> u < at[j]
    ensures Programs(k, skip, address, block, ops, n, [u] + at)
  {
    hide Wrap, UnitAt, Blank, Count;
    var all := [u] + at;
    forall j | 0 <= j < |all|
      ensures all[j] < Count(k, block) && !Blank(k, skip, block, all[j])
      ensures ops[n + j] == Op(k.buffered, Wrap(address + all[j]), UnitAt(k, block, all[j]))
    {
      if j > 0 { assert all[j] == at[j - 1] && ops[n + j] == ops[n + 1 + (j - 1)]; }
    }
  }

  lemma ListsCons(k: Cut, skip: bool, address: nat, block: seq<byte>, u: nat, f: Fate, h: Fate, g: Fate, at: seq<nat>)
    requires u < Count(k, block) && !Blank(k, skip, block, u) && h.ops <= g.ops
    requires h.ops == f.ops + [Op(k.buffered, Wrap(address + u), UnitAt(k, block, u))]
    requires Lists(k, skip, address, block, u + 1, h, g, at)
    ensures Lists(k, skip, address, block, u, f, g, [u] + at)
  {
    assert g.ops[|f.ops|] == h.ops[|f.ops|];
    ProgramsCons(k, skip, address, block, u, g.ops, |f.ops|, at);
    hide Wrap, UnitAt, Programs, Blank, Count;
    var all := [u] + at;
    forall v | u <= v < Count(k, block) && (g.ok || v < all[|all| - 1]) && !Blank(k, skip, block, v)
      ensures v in all
    {
      if v != u { assert v in at; }
    }
  }

  lemma ListsNone(k: Cut, skip: bool, address: nat, block: seq<byte>, u: nat, f: Fate)
    requires u == Count(k, block) || !f.ok
    ensures Lists(k, skip, address, block, u, f, f, [])
  {
  }

  lemma {:induction false} SinglesList(chip: Chip, k: Cut, skip: bool, address: nat, block: seq<byte>, u: nat, f: Fate)
    returns (at: seq<nat>)
    requires Whole(k) && k.load == 1 && u <= Count(k, block) && f.ok
    ensures Lists(k, skip, address, block, u, f, Singles(chip, k, skip, address, block, Span(k, u), f), at)
    decreases Count(k, block) - u, 0
  {
    hide Singles, Load, Lists, Retired, UnitAt, Wrap, Blank;
    var g := Singles(chip, k, skip, address, block, Span(k, u), f);
    if u == Count(k, block) {
      SinglesEnd(chip, k, skip, address, block, Span(k, u), f);
      at := [];
      ListsNone(k, skip, address, block, u, f);
    } else {
      var h := SinglesNext(chip, k, skip, address, block, u, f);
      if Blank(k, skip, block, u) {
        at := SinglesList(chip, k, skip, address, block, u + 1, h);
        ListsBlank(k, skip, address, block, u, f, g, at);
      } else {
        Loaded(chip, f, Op(k.buffered, Wrap(address + u), UnitAt(k, block, u)));
        at := SinglesRest(chip, k, skip, address, block, u + 1, h);
        ListsCons(k, skip, address, block, u, f, h, g, at);
        at := [u] + at;
      }
    }
  }

  lemma SinglesRest(chip: Chip, k: Cut, skip: bool, address: nat, block: seq<byte>, u: nat, f: Fate)
    returns (at: seq<nat>)
    requires Whole(k) && k.load == 1 && u <= Count(k, block)
    ensures var g := Singles(chip, k, skip, address, block, Span(k, u), f);
            f.ops <= g.ops && Lists(k, skip, address, block, u, f, g, at)
    decreases Count(k, block) - u, 1
  {
    hide Singles, Lists, Blank;
    if f.ok {
      at := SinglesList(chip, k, skip, address, block, u, f);
      SinglesRetire(chip, k, skip, address, block, u, f);
    } else {
      at := [];
      SinglesEnd(chip, k, skip, address, block, Span(k, u), f);
      ListsNone(k, skip, address, block, u, f);
    }
  }

  // What programming unit by unit is: the units of the block in order, each at ADDRESS plus its
  // index; all of them but the blanks if they all retire, else all up to the one that did not.
  lemma SinglesCovers(chip: Chip, k: Cut, skip: bool, address: nat, block: seq<byte>, f: Fate) returns (at: seq<nat>)
    requires Whole(k) && k.load == 1 && f.ok
    ensures var g := Singles(chip, k, skip, address, block, 0, f);
            Retired(chip, |f.ops|, f, g) && Programs(k, skip, address, block, g.ops, |f.ops|, at)
            && forall v :: 0 <= v < Count(k, block) && (g.ok || v < at[|at| - 1]) && !Blank(k, skip, block, v)
                 ==> v in at
  {
    SinglesRetire(chip, k, skip, address, block, 0, f);
    at := SinglesList(chip, k, skip, address, block, 0, f);
    hide Singles, Blank;
    assert Span(k, 0) == 0;
  }

  // Chunks are consecutive: each starts where the one before ended, and only the last may be short.
  ghost predicate Follows(ops: seq<Op>, from: nat, k: Cut, address: nat, block: seq<byte>, done: nat)
    requires Whole(k)
    decreases |ops| - from
  {
    if from >= |ops| then true
    else
      var op := ops[from];
      && op.buffered == k.buffered && op.addr == Wrap(address + Units(k, done))
      && 0 < |op.data| <= Span(k, k.load) && |op.data| % k.unit == 0
      && (|op.data| == Span(k, k.load) || from + 1 == |ops|)
      && op.data <= block[Min(done, |block|)..]
      && Follows(ops, from + 1, k, address, block, done + |op.data|)
  }

  function Covered(ops: seq<Op>, from: nat): nat
    decreases |ops| - from
  {
    if from >= |ops| then 0 else |ops[from].data| + Covered(ops, from + 1)
  }

  // What the serial form is: consecutive chunks of the block in order, full loads but perhaps the
  // last; all of the block but an odd last byte if they all retire, else up to the one that did not.
  lemma SerialCovers(chip: Chip, k: Cut, address: nat, block: seq<byte>, done: nat, f: Fate)
    requires Whole(k) && done <= |block| && f.ok
    ensures var g := Serial(chip, k, address, block, done, f);
            Retired(chip, |f.ops|, f, g) && Follows(g.ops, |f.ops|, k, address, block, done)
            && (g.ok ==> |block| - k.unit < done + Covered(g.ops, |f.ops|) <= |block|)
  {
    SerialRetire(chip, k, address, block, done, f);
    SerialFollows(chip, k, address, block, done, f);
  }

  lemma {:induction false} SerialRetire(chip: Chip, k: Cut, address: nat, block: seq<byte>, done: nat, f: Fate)
    requires Whole(k) && f.ok
    ensures Retired(chip, |f.ops|, f, Serial(chip, k, address, block, done, f))
    decreases |block| - done
  {
    hide Retired, Load;
    if done + k.unit <= |block| {
      var have := Have(k, |block|, done);
      var op := Piece(k, address, block, done, have);
      var h := Load(chip, f, op);
      Loaded(chip, f, op);
      if h.ok {
        SerialRetire(chip, k, address, block, done + Span(k, have), h);
        RetiredOn(chip, f, h, Serial(chip, k, address, block, done + Span(k, have), h));
      } else {
        SerialStops(chip, k, address, block, done + Span(k, have), h);
      }
    } else {
      Unchanged(chip, f);
    }
  }

  lemma RetiredGrows(chip: Chip, f: Fate, g: Fate)
    requires Retired(chip, |f.ops|, f, g)
    ensures f.ops <= g.ops
  {
  }

  lemma SerialNext(chip: Chip, k: Cut, address: nat, block: seq<byte>, done: nat, f: Fate) returns (op: Op, next: nat, h: Fate)
    requires Whole(k) && f.ok && done + k.unit <= |block|
    ensures Serial(chip, k, address, block, done, f) == Serial(chip, k, address, block, next, h)
    ensures next == done + |op.data| <= |block| && 0 < |op.data| <= Span(k, k.load) && |op.data| % k.unit == 0
    ensures op == Op(k.buffered, Wrap(address + Units(k, done)), block[done..next])
    ensures h.ops == f.ops + [op]
    ensures |op.data| == Span(k, k.load) || next + k.unit > |block|
  {
    hide Wrap, Units;
    var have := Have(k, |block|, done);
    op := Piece(k, address, block, done, have);
    next, h := done + Span(k, have), Load(chip, f, op);
    SpanWhole(k, have);
  }

  lemma SpanWhole(k: Cut, n: nat)
    requires Whole(k)
    ensures Span(k, n) % k.unit == 0
  {
  }

  lemma FollowsCons(ops: seq<Op>, from: nat, k: Cut, address: nat, block: seq<byte>, done: nat, next: nat)
    requires Whole(k) && from < |ops| && done <= next <= |block|
    requires ops[from] == Op(k.buffered, Wrap(address + Units(k, done)), block[done..next])
    requires 0 < next - done <= Span(k, k.load) && (next - done) % k.unit == 0
    requires next - done == Span(k, k.load) || from + 1 == |ops|
    requires Follows(ops, from + 1, k, address, block, next)
    ensures Follows(ops, from, k, address, block, done)
    ensures Covered(ops, from) == next - done + Covered(ops, from + 1)
  {
    assert block[done..next] <= block[done..];
  }

  lemma FollowsNone(ops: seq<Op>, k: Cut, address: nat, block: seq<byte>, done: nat)
    requires Whole(k)
    ensures Follows(ops, |ops|, k, address, block, done) && Covered(ops, |ops|) == 0
  {
  }

  lemma {:induction false} SerialFollows(chip: Chip, k: Cut, address: nat, block: seq<byte>, done: nat, f: Fate)
    requires Whole(k) && done <= |block| && f.ok
    ensures var g := Serial(chip, k, address, block, done, f);
            Follows(g.ops, |f.ops|, k, address, block, done)
            && (g.ok ==> |block| - k.unit < done + Covered(g.ops, |f.ops|) <= |block|)
    decreases |block| - done
  {
    hide Serial, Load, Retired, Follows, Covered, Wrap, Units, Span;
    if done + k.unit <= |block| {
      var op, next, h := SerialNext(chip, k, address, block, done, f);
      var g := Serial(chip, k, address, block, next, h);
      if h.ok {
        SerialRetire(chip, k, address, block, next, h);
        RetiredGrows(chip, h, g);
        SerialFollows(chip, k, address, block, next, h);
      } else {
        SerialStops(chip, k, address, block, next, h);
        FollowsNone(g.ops, k, address, block, next);
      }
      if next + k.unit > |block| { SerialPast(chip, k, address, block, next, h); }
      assert g.ops[|f.ops|] == op;
      FollowsCons(g.ops, |f.ops|, k, address, block, done, next);
    } else {
      SerialPast(chip, k, address, block, done, f);
      FollowsNone(f.ops, k, address, block, done);
    }
  }

  predicate Multiple(n: nat, m: nat)
    decreases n
  {
    n == 0 || (m > 0 && n >= m && Multiple(n - m, m))
  }

  class Programmer {
    const chip: Chip
    const skipFf: bool       // FW_DMG_SKIP_FF
    var mode: Mode
    var flashMethod: nat     // FLASH_METHOD
    var bufferSize: nat      // BUFFER_SIZE
    var address: nat         // ADDRESS
    var programDone: nat
    var streamErr: bool
    var streamed: nat        // VAR16_FW_STREAMED_CHUNKS
    var status: nat          // STATUS_REGISTER
    // the open payload
    var open: bool
    var over: bool           // pay_over
    var pay: seq<byte>
    ghost var block: seq<byte>   // what the host is sending
    var ops: seq<Op>             // everything the chip has been asked
    ghost var before: Fate       // as it stood when the block was opened

    function Unit(): nat
      reads `mode
    {
      if mode == Agb then 2 else 1
    }

    predicate Buffered()
      reads `mode, `flashMethod, `bufferSize
    {
      flashMethod == 2 && bufferSize >= Unit()
    }

    function Cutting(): Cut
      reads `mode, `flashMethod, `bufferSize
    {
      if Buffered() then Cut(true, Unit(), if mode == Agb then bufferSize / 2 else bufferSize) else Cut(false, Unit(), 1)
    }

    // The complete block, programmed serially from the state it was opened in.
    ghost function Fated(): Fate
      reads `mode, `flashMethod, `bufferSize, `address, `block, `before
    {
      if Buffered() then Serial(chip, Cutting(), address, block, 0, before)
      else Singles(chip, Cutting(), skipFf, address, block, 0, before)
    }

    ghost predicate Valid()
      reads this
    {
      && address < 0x1_0000_0000 && before.ok
      && (open ==> |pay| <= |block| && pay == block[..|pay|] && over == (|block| > PAYLOAD_MAX))
      && (open && (over || !Buffered()) ==>
            programDone == 0 && !streamErr && ops == before.ops && status == before.status)
      && (open && Buffered() && !over ==> Streaming())
    }

    // Never past what has arrived, always between chunks, and always the serial form's history.
    ghost predicate Streaming()
      reads this
      requires Buffered()
    {
      var k := Cutting();
      && programDone <= |pay| && Multiple(programDone, Span(k, k.load))
      && Fated() == if streamErr then Fate(ops, false, status)
                    else Serial(chip, k, address, block, programDone, Fate(ops, true, status))
    }

    constructor (chip: Chip, skipFf: bool)
      ensures Valid() && !open && ops == [] && this.chip == chip && this.skipFf == skipFf
    {
      this.chip, this.skipFf := chip, skipFf;
      mode, flashMethod, bufferSize, address := NoMode, 0, 0, 0;
      programDone, streamErr, streamed, status := 0, false, 0, 0;
      open, over, pay, block, ops, before := false, false, [], [], [], Fate([], true, 0);
    }

    // Commands between blocks: mode, method, buffer size and address are set freely.
    method Configure(mode: Mode, flashMethod: nat, bufferSize: nat, address: nat)
      requires Valid() && !open && address < 0x1_0000_0000
      modifies `mode, `flashMethod, `bufferSize, `address
      ensures Valid() && this.mode == mode && this.flashMethod == flashMethod
      ensures this.bufferSize == bufferSize && this.address == address
    {
      this.mode, this.flashMethod, this.bufferSize, this.address := mode, flashMethod, bufferSize, address;
    }

    // The opcode is in: payload_opened() forgets whatever an abandoned block left behind.
    method Open(ghost block: seq<byte>, size: nat)
      requires Valid() && !open && size == |block| > 0
      modifies `programDone, `streamErr, `open, `over, `pay, `block, `before
      ensures Valid() && open && pay == [] && this.block == block
      ensures before == Fate(ops, true, status)
    {
      programDone, streamErr := 0, false;
      open, over, pay := true, size > PAYLOAD_MAX, [];
      this.block := block;
      before := Fate(ops, true, status);
    }

    // More of the block arrives.
    method Arrive(bytes: seq<byte>)
      requires Valid() && open && |pay| + |bytes| <= |block|
      requires bytes == block[|pay|..|pay| + |bytes|]
      modifies `pay
      ensures Valid() && pay == old(pay) + bytes
    {
      pay := pay + bytes;
    }

    // The host went away: parser timeout or link reset.  Chunks already programmed stay.
    method Abandon()
      requires Valid()
      modifies `open
      ensures Valid() && !open
    {
      open := false;
    }

    // fw_proto_payload_filled()
    function Filled(): nat
      reads `open, `over, `pay
    {
      if !open || over then 0 else |pay|
    }

    // An open block is programmed in whole chunks, and only as far as it has arrived.
    predicate Between()
      reads `mode, `flashMethod, `bufferSize, `programDone, `open, `over, `pay
    {
      programDone <= Filled() && (Buffered() ==> Multiple(programDone, Span(Cutting(), Cutting().load)))
    }

    // agb_program_chunk() and dmg_program_chunk(): have units from byte offset `at'.  A timed-out
    // poll leaves what it read in STATUS_REGISTER.
    method ProgramChunk(at: nat, have: nat) returns (ok: bool)
      requires open && 0 < have && at + Span(Cutting(), have) <= |pay| <= |block| && pay == block[..|pay|]
      modifies `ops, `status
      ensures Fate(ops, ok, status) ==
              Load(chip, old(Fate(ops, true, status)),
                   Op(Buffered(), Wrap(address + Units(Cutting(), at)), block[at..at + Span(Cutting(), have)]))
    {
      assert pay[at..at + Span(Cutting(), have)] == block[at..at + Span(Cutting(), have)];
      ops := ops + [Op(Buffered(), Wrap(address + Units(Cutting(), at)), pay[at..at + Span(Cutting(), have)])];
      match chip(ops)
      case Done => ok := true;
      case TimedOut(v) =>
        status := v;
        ok := false;
    }

    // agb_stream_pump()
    method AgbStreamPump()
      requires Valid()
      modifies `programDone, `streamErr, `streamed, `ops, `status
      ensures Valid() && if open then Between() else programDone == old(programDone)
      ensures open && !over && mode == Agb && Buffered() && !streamErr ==>
                |pay| < programDone + Span(Cutting(), Cutting().load)
    {
      var filled := Filled();
      if filled == 0 {
        return;
      }
      if mode != Agb || flashMethod != 2 || bufferSize < 2 {
        return;
      }
      if streamErr {
        return;
      }
      Pump(bufferSize / 2 * 2, filled);
    }

    // dmg_stream_pump()
    method DmgStreamPump()
      requires Valid()
      modifies `programDone, `streamErr, `streamed, `ops, `status
      ensures Valid() && if open then Between() else programDone == old(programDone)
      ensures open && !over && mode != Agb && Buffered() && !streamErr ==>
                |pay| < programDone + Span(Cutting(), Cutting().load)
    {
      var filled := Filled();
      if filled == 0 {
        return;
      }
      if mode == Agb || flashMethod != 2 || bufferSize < 1 {
        return;
      }
      if streamErr {
        return;
      }
      Pump(bufferSize, filled);
    }

    // The loop the two pumps share.
    method Pump(chunk: nat, filled: nat)
      requires Valid() && open && !over && Buffered() && !streamErr && filled == |pay|
      requires chunk == Span(Cutting(), Cutting().load) > 0
      modifies `programDone, `streamErr, `streamed, `ops, `status
      ensures Valid() && programDone <= |pay| && (!streamErr ==> |pay| < programDone + chunk)
    {
      while filled >= programDone + chunk
        invariant Valid() && !streamErr && programDone <= |pay|
        decreases filled - programDone
      {
        PumpOne(chunk);
        if streamErr {
          break;
        }
      }
    }

    method PumpOne(chunk: nat)
      requires Valid() && open && !over && Buffered() && !streamErr
      requires chunk == Span(Cutting(), Cutting().load) && programDone + chunk <= |pay|
      modifies `programDone, `streamErr, `streamed, `ops, `status
      ensures Valid() && programDone <= |pay| && (!streamErr ==> programDone == old(programDone) + chunk)
    {
      hide Serial, Load, Fated;
      if programDone == 0 {
        streamed := 0;
      }
      ghost var g := Upcoming();
      var ok := ProgramChunk(programDone, Cutting().load);
      if !ok {
        streamErr := true;
        return;
      }
      programDone := programDone + chunk;
      streamed := (streamed + 1) % 0x1_0000;
    }

    // The next chunk that has arrived whole is the next thing the serial form does, for good or ill.
    lemma Upcoming() returns (g: Fate)
      requires Valid() && open && !over && Buffered() && !streamErr
      requires programDone + Span(Cutting(), Cutting().load) <= |pay|
      ensures var done, k := programDone, Cutting();
              var next := done + Span(k, k.load);
              g == Load(chip, Fate(ops, true, status), Op(true, Wrap(address + Units(k, done)), block[done..next]))
              && Fated() == (if g.ok then Serial(chip, k, address, block, next, g) else g)
              && Multiple(next, Span(k, k.load))
    {
      hide Serial, Load, Piece;
      var k, done, f := Cutting(), programDone, Fate(ops, true, status);
      FullChunkIsNext(chip, k, address, block, done, f);
      PieceIs(k, address, block, done, k.load);
      g := Load(chip, f, Piece(k, address, block, done, k.load));
      if !g.ok {
        SerialStops(chip, k, address, block, done + Span(k, k.load), g);
      }
    }

    // ------------------------------------------------------------------ the complete block

    ghost predicate Complete()
      reads this
    {
      Valid() && open && !over && |pay| == |block|
    }

    // The AGB arm of do_flash_program() with a usable buffer.
    method AgbBuffered() returns (ok: bool)
      requires Complete() && mode == Agb && Buffered()
      modifies `ops, `status
      ensures Fate(ops, ok, status) == old(Fated())
    {
      hide Serial, Load;
      var n, words, done := |pay|, bufferSize / 2, programDone;
      if streamErr {
        return false;
      }
      ok := true;
      while done + 1 < n
        invariant done <= n && ok && pay == block
        invariant old(Fated()) == Serial(chip, Cutting(), address, block, done, Fate(ops, ok, status))
        decreases n - done
      {
        var have := (n - done) / 2;
        if have > words {
          have := words;
        }
        SerialStep(done, Fate(ops, true, status));
        ok := ProgramChunk(done, have);
        done := done + have * 2;
        if !ok {
          break;
        }
      }
      SerialEnds(done, Fate(ops, ok, status));
    }

    // dmg_program_buffered()
    method DmgBuffered() returns (ok: bool)
      requires Complete() && mode != Agb && Buffered()
      modifies `ops, `status
      ensures Fate(ops, ok, status) == old(Fated())
    {
      hide Serial, Load;
      var n, bs, done := |pay|, bufferSize, programDone;
      if streamErr {
        return false;
      }
      ok := true;
      while done < n
        invariant done <= n && ok && pay == block
        invariant old(Fated()) == Serial(chip, Cutting(), address, block, done, Fate(ops, ok, status))
        decreases n - done
      {
        var have := n - done;
        if have > bs {
          have := bs;
        }
        SerialStep(done, Fate(ops, true, status));
        ok := ProgramChunk(done, have);
        done := done + have;
        if !ok {
          break;
        }
      }
      SerialEnds(done, Fate(ops, ok, status));
    }

    lemma SerialStep(done: nat, f: Fate)
      requires Buffered() && f.ok && done + Unit() <= |block|
      ensures var k := Cutting();
              var have := Have(k, |block|, done);
              Serial(chip, k, address, block, done, f) ==
              Serial(chip, k, address, block, done + Span(k, have), Load(chip, f, Piece(k, address, block, done, have)))
    {
    }

    lemma SerialEnds(done: nat, f: Fate)
      requires Buffered() && (f.ok ==> done + Unit() > |block|)
      ensures Serial(chip, Cutting(), address, block, done, f) == f
    {
    }

    // The unbuffered arms, and dmg_program_unbuffered().
    method Unbuffered() returns (ok: bool)
      requires Complete() && !Buffered()
      modifies `ops, `status
      ensures Fate(ops, ok, status) == old(Fated())
    {
      hide Load;
      var n, i := |pay|, 0;
      ok := true;
      while i + Unit() <= n
        invariant i <= n && ok && pay == block
        invariant old(Fated()) == Singles(chip, Cutting(), skipFf, address, block, i, Fate(ops, ok, status))
        decreases n - i
      {
        if !(skipFf && mode != Agb && pay[i] == 255) {
          ok := ProgramChunk(i, 1);
        }
        i := i + Unit();
        if !ok {
          break;
        }
      }
    }

    // do_flash_program(), once the whole payload is in.  ADDRESS advances whatever happened.
    method FlashProgram() returns (ok: bool)
      requires Complete()
      modifies `programDone, `streamErr, `ops, `status, `address, `open
      ensures Valid() && !open && programDone == 0 && !streamErr
      ensures Fate(ops, ok, status) == old(Fated())
      ensures address == Wrap(old(address) + Units(Cutting(), |block|))
    {
      hide Serial, Singles, Fated;
      if !Buffered() {
        ok := Unbuffered();
      } else if mode == Agb {
        ok := AgbBuffered();
      } else {
        ok := DmgBuffered();
      }
      programDone, streamErr, open := 0, false, false;
      address := Wrap(address + Units(Cutting(), |pay|));
    }

    // payload_done() and the drain behind it: the block's one reply byte.
    method Close() returns (ack: bool)
      requires Valid() && open && |pay| == |block|
      modifies `programDone, `streamErr, `ops, `status, `address, `open
      ensures Valid() && !open
      ensures if old(over) || flashMethod > 2
              then !ack && ops == before.ops && status == before.status && address == old(address)
              else Fate(ops, ack, status) == old(Fated())
                   && address == Wrap(old(address) + Units(Cutting(), |block|))
    {
      if over || flashMethod > 2 {
        ack, open := false, false;
      } else {
        ack := FlashProgram();
      }
    }

    // One block, in any packets, with the pumps run any number of times after each: the chip, the
    // reply, STATUS_REGISTER and ADDRESS are those of the serial form, whatever came before.
    method Block(block: seq<byte>, packets: seq<nat>, pumps: nat -> nat) returns (ack: bool)
      requires Valid() && !open && block != []
      modifies this
      ensures Valid() && !open
      ensures mode == old(mode) && flashMethod == old(flashMethod) && bufferSize == old(bufferSize)
      ensures var f := Fate(old(ops), true, old(status));
              if |block| > PAYLOAD_MAX || flashMethod > 2
              then !ack && ops == f.ops && status == f.status && address == old(address)
              else Fate(ops, ack, status) ==
                   (if flashMethod == 2 && mode == Agb && bufferSize >= 2 then
                      Serial(chip, Cut(true, 2, bufferSize / 2), old(address), block, 0, f)
                    else if flashMethod == 2 && mode != Agb && bufferSize >= 1 then
                      Serial(chip, Cut(true, 1, bufferSize), old(address), block, 0, f)
                    else Singles(chip, Cut(false, if mode == Agb then 2 else 1, 1), skipFf, old(address), block, 0, f))
                   && address == (old(address) + if mode == Agb then |block| / 2 else |block|) % 0x1_0000_0000
    {
      hide Serial, Singles;
      Open(block, |block|);
      ghost var k, a := Cutting(), address;
      for p := 0 to |packets|
        invariant Valid() && open && this.block == block && over == (|block| > PAYLOAD_MAX)
        invariant before == Fate(old(ops), true, old(status)) && address == a
        invariant mode == old(mode) && flashMethod == old(flashMethod) && bufferSize == old(bufferSize)
      {
        Packet(block, Min(packets[p], |block| - |pay|), pumps(p));
      }
      Packet(block, |block| - |pay|, 0);
      assert pay == block;
      ack := Close();
    }

    method Packet(block: seq<byte>, size: nat, pumps: nat)
      requires Valid() && open && block == this.block && |pay| + size <= |block|
      modifies `pay, `programDone, `streamErr, `streamed, `ops, `status
      ensures Valid() && |pay| == old(|pay|) + size
    {
      Arrive(block[|pay|..|pay| + size]);
      for i := 0 to pumps
        invariant Valid() && |pay| == old(|pay|) + size
      {
        AgbStreamPump();
        DmgStreamPump();
      }
    }
  }
}
