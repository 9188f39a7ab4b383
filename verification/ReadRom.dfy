/** The host's ReadROM (hw_GBFlash.py): one read opcode is kept outstanding, and the transfer size
    and access mode are sent only when a memo says the open device does not hold them already.
    The device may answer as early or as late as it likes; the buffer is that of reading one
    transfer at a time. */
module ReadRom {
  import opened Bytes
  import opened Device

  // What one read opcode makes of the device: the reply and the state after it.
  type Serve = Dev -> (seq<byte>, Dev)

  // k reads one after the other.
  function Replies(serve: Serve, d: Dev, k: nat): seq<byte>
    decreases k
  {
    if k == 0 then [] else serve(d).0 + Replies(serve, serve(d).1, k - 1)
  }

  function After(serve: Serve, d: Dev, k: nat): Dev
    decreases k
  {
    if k == 0 then d else After(serve, serve(d).1, k - 1)
  }

  lemma {:induction false} RepliesSnoc(serve: Serve, d: Dev, k: nat)
    ensures Replies(serve, d, k + 1) == Replies(serve, d, k) + serve(After(serve, d, k)).0
    ensures After(serve, d, k + 1) == serve(After(serve, d, k)).1
    decreases k
  {
    if k > 0 {
      RepliesSnoc(serve, serve(d).1, k - 1);
    } else {
      assert After(serve, serve(d).1, 0) == serve(d).1;
      assert Replies(serve, serve(d).1, 0) == [];
    }
  }

  lemma {:induction false} AfterAdd(serve: Serve, d: Dev, j: nat, k: nat)
    ensures After(serve, After(serve, d, j), k) == After(serve, d, j + k)
    decreases j
  {
    if j > 0 {
      AfterAdd(serve, serve(d).1, j - 1, k);
    }
  }

  // A read answers TRANSFER_SIZE bytes and moves neither that nor the access mode.
  ghost predicate Faithful(serve: Serve) {
    forall d: Dev :: Answers(serve, d)
  }

  ghost predicate Answers(serve: Serve, d: Dev) {
    && |serve(d).0| == d.v16[TRANSFER_SIZE] && serve(d).1.v16[TRANSFER_SIZE] == d.v16[TRANSFER_SIZE]
    && serve(d).1.v8[DMG_ACCESS_MODE] == d.v8[DMG_ACCESS_MODE]
  }

  lemma {:induction false} FullReplies(serve: Serve, d: Dev, k: nat)
    requires Faithful(serve)
    ensures |Replies(serve, d, k)| == k * d.v16[TRANSFER_SIZE]
    ensures After(serve, d, k).v16[TRANSFER_SIZE] == d.v16[TRANSFER_SIZE]
    ensures After(serve, d, k).v8[DMG_ACCESS_MODE] == d.v8[DMG_ACCESS_MODE]
    decreases k
  {
    if k > 0 {
      assert Answers(serve, d);
      FullReplies(serve, serve(d).1, k - 1);
      assert k * d.v16[TRANSFER_SIZE] == d.v16[TRANSFER_SIZE] + (k - 1) * d.v16[TRANSFER_SIZE];
    }
  }

  // _rom_var_memo: the port it was made on, the last length and access mode sent there.
  datatype Memo = Memo(port: nat, length: Option<nat>, access: Option<byte>)

  class Session {
    const serve: Serve
    var port: nat             // identity of the open DEVICE
    var dev: Dev              // what that device holds
    var mode: Mode            // MODE
    var maxRead: nat          // MAX_BUFFER_READ, at most what the device accepted
    var memo: Option<Memo>

    // the pipe: opcodes the device has not served, reply bytes not yet read
    var asked: nat
    var wire: seq<byte>
    ghost var owed: nat     // read opcodes written and not yet answered in full, as the host counts
    ghost var most: nat

    ghost predicate Valid()
      reads this
    {
      0 < maxRead <= MAX_TRANSFER
    }

    // When the memo is about the open device, it says what that device holds.
    ghost predicate MemoTrue()
      reads this
    {
      memo.Some? && memo.value.port == port ==>
        (memo.value.length.Some? ==> dev.v16[TRANSFER_SIZE] == memo.value.length.value)
        && (memo.value.access == Some(1) ==> dev.v8[DMG_ACCESS_MODE] == 1)
    }

    ghost predicate Quiet()
      reads this
    {
      asked == 0 && wire == []
    }

    constructor (serve: Serve, dev: Dev, mode: Mode, maxRead: nat)
      requires 0 < maxRead <= MAX_TRANSFER
      ensures Valid() && MemoTrue() && Quiet() && this.serve == serve && this.dev == dev && this.mode == mode
    {
      this.serve, this.dev, this.mode, this.maxRead := serve, dev, mode, maxRead;
      port, memo, asked, wire, owed, most := 0, None, 0, [], 0, 0;
    }

    // _set_fw_variable(): anyone's write of these two drops the memo.
    method SetVariable(size: byte, key: nat, value: nat)
      requires Valid() && Quiet() && value < 0x1_0000_0000
      modifies `memo, `dev
      ensures Valid() && (old(MemoTrue()) ==> MemoTrue())
      ensures dev == Device.SetVariable(old(dev), size, key, value)
      ensures memo == if (size == 2 && key == TRANSFER_SIZE) || (size == 1 && key == DMG_ACCESS_MODE)
                      then None else old(memo)
    {
      hide Device.SetVariable, Device.GetVariable;
      if (size == 2 && key == TRANSFER_SIZE) || (size == 1 && key == DMG_ACCESS_MODE) {
        memo := None;
      }
      Untouched(dev, size, key, value);
      dev := Device.SetVariable(dev, size, key, value);
    }

    static lemma Untouched(d: Dev, size: byte, key: nat, value: nat)
      requires value < 0x1_0000_0000
      ensures !(size == 2 && key == TRANSFER_SIZE) ==>
                Device.SetVariable(d, size, key, value).v16[TRANSFER_SIZE] == d.v16[TRANSFER_SIZE]
      ensures !(size == 1 && key == DMG_ACCESS_MODE) ==>
                Device.SetVariable(d, size, key, value).v8[DMG_ACCESS_MODE] == d.v8[DMG_ACCESS_MODE]
    {
    }

    // A saved variable state is sent back to the device while the port is open.  Nothing tells the
    // memo, which stays true exactly if the blob puts back what the memo says is there.
    method Restore(blob: seq<byte>)
      requires Valid() && MemoTrue() && Quiet() && |blob| == VAR_STATE_LEN
      modifies `dev
      ensures Valid() && dev == SetVarState(old(dev), blob)
      ensures MemoTrue() <==> memo.Some? && memo.value.port == port ==> PutsBack(memo.value, blob)
    {
      Restores(dev, blob);
      hide SetVarState;
      dev := SetVarState(dev, blob);
    }

    // Checked on the blob alone: another version is ignored, else its length and access mode count.
    static predicate PutsBack(m: Memo, blob: seq<byte>)
      requires |blob| == VAR_STATE_LEN
    {
      blob[0] == 1 ==>
        (m.length.Some? ==> Min(Word(blob[12], blob[13]), MAX_TRANSFER) == m.length.value)
        && (m.access == Some(1) ==> blob[2] == 1)
    }

    static lemma Restores(d: Dev, blob: seq<byte>)
      requires |blob| == VAR_STATE_LEN
      ensures SetVarState(d, blob).v16[TRANSFER_SIZE] ==
              if blob[0] == 1 then Min(Word(blob[12], blob[13]), MAX_TRANSFER) else d.v16[TRANSFER_SIZE]
      ensures SetVarState(d, blob).v8[DMG_ACCESS_MODE] == if blob[0] == 1 then blob[2] else d.v8[DMG_ACCESS_MODE]
    {
    }

    // The port is closed and another one owed: whatever device is there, the memo is not about it.
    method Reopen(dev: Dev, port: nat)
      requires Valid() && Quiet() && (memo.Some? ==> port != memo.value.port)
      modifies `dev, `port
      ensures Valid() && MemoTrue() && this.dev == dev && this.port == port
    {
      this.dev, this.port := dev, port;
    }

    method WriteOpcode()
      modifies `asked, `owed, `most
      ensures asked == old(asked) + 1 && owed == old(owed) + 1
      ensures most == if owed > old(most) then owed else old(most)
    {
      asked, owed := asked + 1, owed + 1;
      most := if owed > most then owed else most;
    }

    // The device carries out one opcode it has been sent.
    method ServeOne()
      requires asked > 0
      modifies `asked, `dev, `wire
      ensures asked == old(asked) - 1 && dev == serve(old(dev)).1 && wire == old(wire) + serve(old(dev)).0
    {
      var r := serve(dev);
      wire, dev, asked := wire + r.0, r.1, asked - 1;
    }

    // Everything the device still owes, on the wire or unserved.
    ghost function Coming(): seq<byte>
      reads `wire, `dev, `asked
    {
      wire + Replies(serve, dev, asked)
    }

    // _read(): the device may have answered ahead; it is waited for as long as it owes anything.
    method Read(n: nat, ahead: nat) returns (data: seq<byte>)
      modifies `asked, `dev, `wire
      ensures data + Coming() == old(Coming()) && After(serve, dev, asked) == old(After(serve, dev, asked))
      ensures |data| == Min(n, |old(Coming())|) && (|data| < n ==> Quiet())
      ensures asked <= old(asked) && dev == After(serve, old(dev), old(asked) - asked)
    {
      hide Min;
      var early := ahead;
      while asked > 0 && (early > 0 || |wire| < n)
        invariant Coming() == old(Coming()) && After(serve, dev, asked) == old(After(serve, dev, asked))
        invariant asked <= old(asked) && dev == After(serve, old(dev), old(asked) - asked)
        decreases asked
      {
        Unfold(wire);
        RepliesSnoc(serve, old(dev), old(asked) - asked);
        ServeOne();
        early := if early > 0 then early - 1 else 0;
      }
      data := Front(n);
    }

    method Front(n: nat) returns (data: seq<byte>)
      requires asked == 0 || |wire| >= n
      modifies `wire
      ensures data + Coming() == old(Coming())
      ensures |data| == Min(n, |old(Coming())|) && (|data| < n ==> Quiet())
    {
      assert asked == 0 ==> Coming() == wire;
      var k := Min(n, |wire|);
      data := wire[..k];
      assert wire == data + wire[k..];
      wire := wire[k..];
    }

    lemma Unfold(w: seq<byte>)
      requires asked > 0
      ensures w + Replies(serve, dev, asked) == w + serve(dev).0 + Replies(serve, serve(dev).1, asked - 1)
      ensures After(serve, dev, asked) == After(serve, serve(dev).1, asked - 1)
    {
    }

    // _drain_outstanding(): read until the device has nothing left to say.
    method Drain()
      modifies `asked, `dev, `wire, `owed
      ensures Quiet() && dev == old(After(serve, dev, asked)) && owed == 0
    {
      while asked > 0
        invariant After(serve, dev, asked) == old(After(serve, dev, asked))
        decreases asked
      {
        Unfold(wire);
        ServeOne();
      }
      wire, owed := [], 0;
    }

    // Only what the open device does not hold already is sent.
    method Prepare(address: nat, length: nat)
      requires Valid() && Quiet() && mode != NoMode && length <= MAX_TRANSFER && address < 0x1_0000_0000
      modifies `memo, `dev
      ensures Valid() && dev.address == if mode == Dmg then address else address / 2
      ensures old(MemoTrue()) ==> MemoTrue() && dev.v16[TRANSFER_SIZE] == length
                                  && (mode == Dmg ==> dev.v8[DMG_ACCESS_MODE] == 1)
    {
      var m := if memo.Some? && memo.value.port == port then memo.value else Memo(port, None, None);
      var sendXfer := m.length != Some(length);
      var sendMode := m.access != Some(1);
      if sendXfer {
        SetVariable(2, TRANSFER_SIZE, length);
      }
      assert old(MemoTrue()) ==> dev.v16[TRANSFER_SIZE] == length;
      if mode == Dmg {
        SetVariable(4, 0, address);
        if sendMode {
          SetVariable(1, DMG_ACCESS_MODE, 1);
        }
      } else {
        SetVariable(4, 0, address / 2);
      }
      memo := Some(Memo(port, Some(length), if mode == Dmg then Some(1) else m.access));
    }

    // Where the loop stands: issued opcodes written, got read, the rest still to come.
    ghost predicate Standing(d0: Dev, issued: nat, got: seq<byte>)
      reads `wire, `dev, `asked
    {
      && got + Coming() == Replies(serve, d0, issued)
      && asked <= issued && dev == After(serve, d0, issued - asked)
      && After(serve, dev, asked) == After(serve, d0, issued)
    }

    // The pipelined loop: an opcode ahead of every read but the last.
    method Pipeline(count: nat, length: nat, ahead: nat -> nat)
      returns (buffer: Option<seq<byte>>, ghost done: nat)
      requires Quiet() && owed == 0 && most == 0
      modifies `asked, `dev, `wire, `owed, `most
      ensures most <= 2 && owed == 0 && wire == [] && (buffer.None? ==> Quiet())
      ensures dev == After(serve, old(dev), done)
      ensures buffer.Some? ==> |buffer.value| == Times(count, length) && Standing(old(dev), count, buffer.value)
      // a device whose replies all have the length asked for cannot make it fail
      ensures Even(old(dev), count, length) ==> buffer.Some? && (length > 0 ==> asked == 0)
    {
      hide Replies, After, Even, Times, Standing, Coming;
      ghost var d0 := dev;
      var issued := 0;
      var got := [];
      Nothing(d0);
      if count > 0 {
        Issue(d0, 0, got);
        issued := 1;
      }
      TimesNone(length);
      for n := 0 to count
        invariant issued == Min(n + 1, count) && owed == issued - n && most <= 2
        invariant Standing(d0, issued, got) && |got| == Times(n, length)
      {
        if issued < count {
          Issue(d0, issued, got);
          issued := issued + 1;
        }
        var temp := Turn(d0, issued, got, length, ahead(n));
        LongEnough(d0, count, length, n, issued);
        if |temp| != length {
          Drained(d0, issued, got + temp);
          Drain();
          return None, issued;
        }
        got := got + temp;
        owed := owed - 1;
      }
      Settled(d0, count, length, got);
      Drained(d0, count, got);
      if wire != [] {
        Drain();
        return None, count;
      }
      buffer, done := Some(got), count - asked;
    }

    method Issue(ghost d0: Dev, ghost issued: nat, ghost got: seq<byte>)
      requires Standing(d0, issued, got)
      modifies `asked, `owed, `most
      ensures Standing(d0, issued + 1, got) && owed == old(owed) + 1
      ensures most == if owed > old(most) then owed else old(most)
    {
      hide Replies, After;
      OneMore(got, d0, issued);
      WriteOpcode();
    }

    // Where the device is now, and where it will be when it owes nothing.
    lemma Drained(d0: Dev, issued: nat, got: seq<byte>)
      requires Standing(d0, issued, got)
      ensures asked <= issued && dev == After(serve, d0, issued - asked)
      ensures After(serve, dev, asked) == After(serve, d0, issued)
    {
      hide Replies, After;
    }

    method Turn(ghost d0: Dev, ghost issued: nat, ghost got: seq<byte>, length: nat, ahead: nat) returns (temp: seq<byte>)
      requires Standing(d0, issued, got)
      modifies `asked, `dev, `wire
      ensures Standing(d0, issued, got + temp)
      ensures |temp| == Min(length, |Replies(serve, d0, issued)| - |got|)
    {
      hide Replies, After, Coming;
      ghost var coming, k, was := Coming(), issued - asked, asked;
      temp := Read(length, ahead);
      assert (got + temp) + Coming() == got + coming;
      AfterAdd(serve, d0, k, was - asked);
    }

    // The next count replies all have this length.
    ghost predicate Even(d: Dev, count: nat, length: nat) {
      forall k: nat :: k < count ==> |serve(After(serve, d, k)).0| == length
    }

    lemma {:induction false} EvenTotal(d: Dev, count: nat, length: nat, k: nat)
      requires Even(d, count, length) && k <= count
      ensures |Replies(serve, d, k)| == Times(k, length)
      decreases k
    {
      if k > 0 {
        EvenTotal(d, count, length, k - 1);
        RepliesSnoc(serve, d, k - 1);
      }
    }

    // With even replies there is always a whole one more than has been read.
    lemma LongEnough(d0: Dev, count: nat, length: nat, n: nat, issued: nat)
      requires n < count && issued <= count && (issued == n + 1 || issued == n + 2)
      ensures Times(n + 1, length) == Times(n, length) + length
      ensures Even(d0, count, length) ==> |Replies(serve, d0, issued)| >= Times(n, length) + length
    {
      if Even(d0, count, length) {
        EvenTotal(d0, count, length, issued);
      }
    }

    lemma Settled(d0: Dev, count: nat, length: nat, got: seq<byte>)
      requires Standing(d0, count, got) && |got| == Times(count, length)
      ensures Even(d0, count, length) ==> wire == [] && (length > 0 ==> asked == 0)
    {
      if Even(d0, count, length) {
        EvenTotal(d0, count, length, count);
        assert |got + Coming()| == |got|;
        if asked > 0 {
          assert |serve(After(serve, d0, count - asked)).0| == length;
          assert |serve(dev).0| <= |Replies(serve, dev, asked)|;
        }
      }
    }

    lemma Nothing(d0: Dev)
      requires Quiet() && dev == d0
      ensures Standing(d0, 0, [])
    {
    }

    lemma OneMore(got: seq<byte>, d0: Dev, issued: nat)
      requires Standing(d0, issued, got)
      ensures got + (wire + Replies(serve, dev, asked + 1)) == Replies(serve, d0, issued + 1)
      ensures After(serve, dev, asked + 1) == After(serve, d0, issued + 1)
    {
      RepliesSnoc(serve, dev, asked);
      RepliesSnoc(serve, d0, issued);
      var r := serve(After(serve, dev, asked)).0;
      assert got + (wire + (Replies(serve, dev, asked) + r)) == got + (wire + Replies(serve, dev, asked)) + r;
    }

    // ReadROM().  On success the buffer is what the same reads give one at a time, and no opcode was
    // ever the third unanswered.  A device that answers TRANSFER_SIZE bytes each time gives success
    // with none owed exactly if it holds the length one read is taken to have, sent or not; and with
    // a true memo, skipping a variable the memo vouches for leaves it holding that.
    method ReadRom(address: nat, wanted: nat, skipInit: bool, max: nat, ahead: nat -> nat)
      returns (buffer: Option<seq<byte>>, ghost start: Dev, ghost num: nat)
      requires Valid() && Quiet() && mode != NoMode && max > 0 && address < 0x1_0000_0000
      requires owed == 0 && most == 0
      modifies this
      ensures most <= 2 && owed == 0 && wire == [] && (buffer.None? ==> Quiet())
      ensures buffer.Some? ==> buffer.value + Replies(serve, dev, asked) == Replies(serve, start, num)
      ensures Valid() && (!skipInit ==> start.address == if mode == Dmg then address else address / 2)
      ensures !skipInit && old(MemoTrue()) ==> start.v16[TRANSFER_SIZE] == Min(wanted, Min(max, maxRead))
                                               && (mode == Dmg ==> start.v8[DMG_ACCESS_MODE] == 1)
      ensures Faithful(serve) && old(MemoTrue()) ==> MemoTrue()
      ensures Faithful(serve) && wanted > 0 ==>
                (buffer.Some? && Quiet() <==> start.v16[TRANSFER_SIZE] == Min(wanted, Min(max, maxRead)))
      // one that holds less fails; one that holds more may pass, and then owes the difference
      ensures Faithful(serve) && buffer.Some? && wanted > 0 ==>
                var length := Min(wanted, Min(max, maxRead));
                start.v16[TRANSFER_SIZE] >= length
                && |Replies(serve, dev, asked)| == num * (start.v16[TRANSFER_SIZE] - length)
      ensures Faithful(serve) && old(MemoTrue()) && !skipInit && wanted > 0 ==>
                buffer == Some(Replies(serve, start, num)) && Quiet() && |buffer.value| >= wanted
    {
      hide Replies, After, Times, Even, Standing, Faithful;
      var cap := Min(max, maxRead);
      var count := (wanted + cap - 1) / cap;
      var length := Min(wanted, cap);
      if !skipInit {
        Prepare(address, length);
      }
      start, num := dev, count;
      ghost var done;
      buffer, done := Pipeline(count, length, ahead);
      if Faithful(serve) {
        Steady(start, count, length);
        EnoughReads(wanted, cap, count, length);
        FullReplies(serve, start, done);
        if buffer.Some? && wanted > 0 {
          Whole(start, count, length, buffer.value);
          Pending();
        }
      }
      Remains(start, count, buffer);
    }

    // What has been read, and what the device still owes, are the replies.
    lemma Remains(d0: Dev, count: nat, buffer: Option<seq<byte>>)
      requires buffer.Some? ==> Standing(d0, count, buffer.value) && wire == []
      ensures buffer.Some? ==> buffer.value + Replies(serve, dev, asked) == Replies(serve, d0, count)
      ensures buffer.Some? && asked == 0 ==> buffer.value == Replies(serve, d0, count)
    {
      NoneLeft();
      hide Replies, After;
      if buffer.Some? {
        assert buffer.value + [] == buffer.value;
        assert [] + Replies(serve, dev, asked) == Replies(serve, dev, asked);
      }
    }

    // count full-length reads came out of count replies.
    lemma Whole(d: Dev, count: nat, length: nat, got: seq<byte>)
      requires Faithful(serve) && count > 0 && Standing(d, count, got) && |got| == Times(count, length)
      ensures d.v16[TRANSFER_SIZE] >= length && |Coming()| == count * (d.v16[TRANSFER_SIZE] - length)
      ensures Quiet() ==> d.v16[TRANSFER_SIZE] == length
    {
      hide Replies, After, Times;
      var held := d.v16[TRANSFER_SIZE];
      FullReplies(serve, d, count);
      assert |got + Coming()| == |got| + |Coming()|;
      TimesIs(count, length);
      Cancels(count, length, held);
      Cancels(count, held, length);
      NoneLeft();
      assert count * held == count * length + count * (held - length);
    }

    lemma Pending()
      requires wire == []
      ensures Coming() == Replies(serve, dev, asked)
    {
    }

    lemma NoneLeft()
      ensures asked == 0 ==> Replies(serve, dev, asked) == []
    {
    }

    lemma Steady(d: Dev, count: nat, length: nat)
      requires Faithful(serve)
      ensures d.v16[TRANSFER_SIZE] == length ==> Even(d, count, length)
    {
      hide Replies;
      if d.v16[TRANSFER_SIZE] == length {
        forall k: nat | k < count ensures |serve(After(serve, d, k)).0| == length {
          FullReplies(serve, d, k);
          assert Answers(serve, After(serve, d, k));
        }
      }
    }
  }

  // num is the length divided by what one read takes, rounded up.
  lemma EnoughReads(wanted: nat, cap: nat, count: nat, length: nat)
    requires cap > 0 && count == (wanted + cap - 1) / cap && length == Min(wanted, cap)
    ensures Times(count, length) >= wanted && (wanted > 0 ==> count > 0)
  {
    TimesIs(count, length);
    assert count * cap + (wanted + cap - 1) % cap == wanted + cap - 1;
    if wanted <= cap {
      assert wanted > 0 ==> count >= 1;
      assert count * length >= length || wanted == 0;
    }
  }

  function Times(n: nat, length: nat): nat { if n == 0 then 0 else Times(n - 1, length) + length }

  lemma Cancels(n: nat, a: nat, b: nat)
    requires n > 0
    ensures n * a <= n * b <==> a <= b
  {
    if a <= b {
      assert n * b == n * a + n * (b - a);
    } else {
      assert n * a == n * b + n * (a - b);
    }
  }

  lemma TimesNone(length: nat)
    ensures Times(0, length) == 0
  {
  }

  lemma {:induction false} TimesIs(n: nat, length: nat)
    ensures Times(n, length) == n * length
  {
    if n > 0 {
      TimesIs(n - 1, length);
      assert n * length == (n - 1) * length + length;
    }
  }
}
