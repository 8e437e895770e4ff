/** The bytes of a delta, named one by one, and what the interpreter makes of deltas that were not printed whole. */
module DeltaFormat {
  import opened Wrappers
  import opened Bytes
  import opened Delta
  import opened DeltaFraming

  // ------------------------------------------------------------ what is printed

  /** Bit by bit the mask of a changed region is where the buffers differ, so equal bytes give zero. */
  predicate DifferenceMask(mask: seq<byte>, a: seq<byte>, b: seq<byte>) {
    && |mask| == |a| == |b|
    && (forall i, k: nat :: 0 <= i < |mask| && k < 8 ==>
          (BitSet(mask[i], k) <==> BitSet(a[i], k) != BitSet(b[i], k)))
    && (forall i :: 0 <= i < |mask| ==> (mask[i] == 0 <==> a[i] == b[i]))
  }

  /** A changed region is one command at its start: the difference of the two buffers, or the new bytes. */
  lemma ChangedRegionMeaning(ch: Change, start: nat, length: nat)
    requires start + length <= |ch.oldData| && start + length <= |ch.newData| && length > 0
    ensures var actions := ChangedRegion(ch, start, length);
      var was, now := ch.oldData[start..start + length], ch.newData[start..start + length];
      && |actions| == 1
      && if ch.cfg.xorWithOld then
           actions[0].XorWith? && actions[0].offset == start && DifferenceMask(actions[0].mask, was, now)
         else actions[0] == Overwrite(start, now)
  {
    hide Xor, BitSet;
    var was, now := ch.oldData[start..start + length], ch.newData[start..start + length];
    forall i, k: nat | 0 <= i < length && k < 8
      ensures BitSet(XorBytes(was, now)[i], k) <==> BitSet(was[i], k) != BitSet(now[i], k)
    {
      XorBit(was[i], now[i], k);
    }
    forall i | 0 <= i < length ensures XorBytes(was, now)[i] == 0 <==> was[i] == now[i] {
      XorZero(was[i], now[i]);
    }
  }

  /** A page is left out exactly if it lies wholly in both buffers and repeats the old buffer's first bytes, or starts
      after the old data and the bytes the zero test looks at are all zero. */
  lemma PageLeftOut(ch: Change, start: nat)
    requires ch.cfg.pageSize > 0 && start < |ch.newData|
    ensures var memory, end := ch.newData + ch.beyond, start + ch.cfg.pageSize;
      PageActions(AsWritten, ch, start) == [] <==>
        if end <= |ch.newData| && end <= |ch.oldData| then
          forall i :: 0 <= i < ch.cfg.pageSize ==> ch.newData[start + i] == ch.oldData[i]
        else start >= |ch.oldData| && forall i :: start <= i < end && i < |memory| ==> memory[i] == 0
  {
    var memory, end := ch.newData + ch.beyond, start + ch.cfg.pageSize;
    if InBoth(ch, start) {
      var page, first := ch.newData[start..end], ch.oldData[0..ch.cfg.pageSize];
      if forall i :: 0 <= i < ch.cfg.pageSize ==> ch.newData[start + i] == ch.oldData[i] {
        assert page == first;
      } else {
        var i :| 0 <= i < ch.cfg.pageSize && ch.newData[start + i] != ch.oldData[i];
        assert page[i] != first[i];
      }
    } else if start >= |ch.oldData| {
      var tested := TestedBytes(ch, start);
      assert forall i :: 0 <= i < |tested| ==> tested[i] == memory[start + i];
      assert forall i :: start <= i < end && i < |memory| ==> memory[i] == tested[i - start];
    }
  }

  predicate LittleEndianAt(b: seq<byte>, at: nat, n: nat, width: nat) {
    at + width <= |b| && forall k: nat :: k < width ==> b[at + k] as nat == (n / Pow256(k)) % 256
  }

  /** A block command byte by byte: tag, offset, length, the block. */
  lemma BlockLayout(tag: byte, offset: nat, block: seq<byte>)
    ensures var b := Block(tag, offset, block);
      && |b| == 9 + |block| && b[0] == tag && b[9..] == block
      && LittleEndianAt(b, 1, offset, 4) && LittleEndianAt(b, 5, |block|, 4)
  {
    hide U32Field, Pow256;
    forall k: nat | k < 4
      ensures U32Field(offset)[k] as nat == (offset / Pow256(k)) % 256
      ensures U32Field(|block|)[k] as nat == (|block| / Pow256(k)) % 256
    {
      U32FieldByte(offset, k);
      U32FieldByte(|block|, k);
    }
  }

  /** A compressed block byte by byte: tag, compressed size, decompressed size, the payload. */
  lemma EnvelopeLayout(size: nat, payload: seq<byte>)
    ensures var b := EncodeEnvelope(size, payload);
      && |b| == 17 + |payload| && b[0] == 1 && b[17..] == payload
      && LittleEndianAt(b, 1, |payload|, 8) && LittleEndianAt(b, 9, size, 8)
  {
    hide U64Field, Pow256;
    forall k: nat | k < 8
      ensures U64Field(|payload|)[k] as nat == (|payload| / Pow256(k)) % 256
      ensures U64Field(size)[k] as nat == (size / Pow256(k)) % 256
    {
      U64FieldByte(|payload|, k);
      U64FieldByte(size, k);
    }
  }

  lemma SmallField(n: nat)
    requires n < 256
    ensures U32Field(n) == [n as byte, 0, 0, 0]
  {
    assert U32Field(n) == LittleEndian(n, 4);
  }

  const ONE_CHANGED_ONE_NEW: Change := Change(Settings(false, 0, true, false, 0), [1], [3, 5], [])

  lemma SmallActions()
    ensures DeltaActions(AsWritten, ONE_CHANGED_ONE_NEW) == [TotalSize(2)] + [XorWith(0, [2])] + [Overwrite(1, [5])]
  {
    var ch := ONE_CHANGED_ONE_NEW;
    assert Xor(1, 3) == 2;
    assert ch.oldData[0..1] == [1] && ch.newData[0..1] == [3] && ch.newData[1..2] == [5];
    assert XorBytes([1], [3]) == [2];
    assert RegionActions(AsWritten, ch) == [XorWith(0, [2])] + [Overwrite(1, [5])];
  }

  lemma SmallCommands()
    ensures Encode(TotalSize(2)) == [0, 2, 0, 0, 0]
    ensures Encode(XorWith(0, [2])) == [3, 0, 0, 0, 0, 1, 0, 0, 0, 2]
    ensures Encode(Overwrite(1, [5])) == [2, 1, 0, 0, 0, 1, 0, 0, 0, 5]
  {
    hide U32Field;
    SmallField(0);
    SmallField(1);
    SmallField(2);
  }

  lemma Spread(a: seq<byte>, b: seq<byte>, c: seq<byte>)
    ensures Stream(a + b + c) == [1] + a + b + c + [0xFE]
  {
  }

  /** A whole delta in bytes: version, total size, the difference of the first byte, the second byte, end. */
  lemma SmallDelta(codec: Codec)
    ensures Serialized(AsWritten, ONE_CHANGED_ONE_NEW, codec)
         == Some([1] + [0, 2, 0, 0, 0] + [3, 0, 0, 0, 0, 1, 0, 0, 0, 2] + [2, 1, 0, 0, 0, 1, 0, 0, 0, 5] + [0xFE])
  {
    hide EncodeAll, Encode;
    var size, mask, tail := TotalSize(2), XorWith(0, [2]), Overwrite(1, [5]);
    SmallActions();
    SmallCommands();
    EncodeAllConcat([size] + [mask], [tail]);
    EncodeAllConcat([size], [mask]);
    EncodeOne(size);
    EncodeOne(mask);
    EncodeOne(tail);
    Spread(Encode(size), Encode(mask), Encode(tail));
    assert !ONE_CHANGED_ONE_NEW.cfg.useZstd;
    hide DeltaActions, Stream;
  }

  lemma {:induction false} PagesIgnoreCompression(ch: Change, from: nat)
    requires ch.cfg.pageSize > 0
    ensures PagedActions(AsWritten, ch.(cfg := ch.cfg.(useZstd := false)), from) == PagedActions(AsWritten, ch, from)
    decreases |ch.newData| - from
  {
    hide PageActions;
    if from < |ch.newData| {
      PageIgnoresCompression(ch, from);
      PagesIgnoreCompression(ch, from + ch.cfg.pageSize);
    }
  }

  lemma PageIgnoresCompression(ch: Change, start: nat)
    requires start < |ch.newData|
    ensures PageActions(AsWritten, ch.(cfg := ch.cfg.(useZstd := false)), start) == PageActions(AsWritten, ch, start)
  {
    var plain := ch.(cfg := ch.cfg.(useZstd := false));
    assert TestedBytes(plain, start) == TestedBytes(ch, start);
  }

  /** With compression a delta is the delta printed without, compressed at the configured level and put into one
      compressed block; it is an error exactly if the compressor fails. */
  lemma CompressedDelta(ch: Change, codec: Codec)
    requires Usable(ch) && ch.cfg.useZstd
    ensures var plain := Serialized(AsWritten, ch.(cfg := ch.cfg.(useZstd := false)), codec);
      && plain.Some?
      && var compressed := codec.compress(ch.cfg.zstdLevel, plain.value);
         var delta := Serialized(AsWritten, ch, codec);
         && (delta.None? <==> compressed.None?)
         && (delta.Some? ==>
               delta.value == [1] + EncodeEnvelope(|plain.value|, compressed.value) + [0xFE])
  {
    hide EncodeAll, EncodeEnvelope, PagedActions;
    if ch.cfg.usePages {
      PagesIgnoreCompression(ch, 0);
    }
    assert DeltaActions(AsWritten, ch.(cfg := ch.cfg.(useZstd := false))) == DeltaActions(AsWritten, ch);
  }

  // ---------------------------------------------------------- what is refused

  /** A delta too short for a version and a command, or of another version, is refused untouched. */
  lemma HeaderChecked(delta: seq<byte>, data: seq<byte>, codec: Codec, depth: nat)
    ensures |delta| < 2 ==> Apply(delta, data, codec, depth) == Outcome(data, TooShort)
    ensures |delta| >= 2 && delta[0] != 1 ==> Apply(delta, data, codec, depth) == Outcome(data, BadVersion)
  {
  }

  /** The length of a printed action before its block. */
  function HeaderLength(a: Action): nat {
    if a.TotalSize? then 5 else 9
  }

  /** A delta that ends inside a command is an error there, and the command has no effect. */
  lemma TruncatedAction(a: Action, n: nat, data: seq<byte>, codec: Codec, depth: nat)
    requires Printable(a) && 0 < n < |Encode(a)|
    ensures Apply([PROTOCOL_VERSION] + Encode(a)[..n], data, codec, depth)
         == Outcome(data, if n < HeaderLength(a) then FieldOutOfRange else BlockOutOfRange)
  {
    hide U32Field, EncodeAll, FromLittleEndian;
    var delta := [PROTOCOL_VERSION] + Encode(a)[..n];
    assert delta[1] == Encode(a)[0];
    if n >= 9 && !a.TotalSize? {
      var block := if a.Overwrite? then a.data else a.mask;
      assert delta[6..10] == Encode(a)[5..9] == U32Field(|block|);
      U32FieldAt(|block|, delta, 6);
    }
    assert DecodeAt(delta, 1) == Unreadable(if n < HeaderLength(a) then FieldOutOfRange else BlockOutOfRange);
  }

  /** Whatever follows the end command is not looked at. */
  lemma TailIgnored(actions: seq<Action>, rest: seq<byte>, data: seq<byte>, codec: Codec, depth: nat)
    requires forall a | a in actions :: Printable(a)
    ensures Apply(Stream(EncodeAll(actions)) + rest, data, codec, depth) == Run(actions, data)
  {
    hide EncodeAll, Run;
    var commands := EncodeAll(actions);
    var delta := Stream(commands) + rest;
    assert delta[0] == PROTOCOL_VERSION && delta[|commands| + 1] == CMD_END;
    assert Occurs(commands, delta, 1);
    InterpretsActions(actions, delta, 1, data, codec, depth);
    assert DecodeAt(delta, |commands| + 1) == Stop;
  }

  predicate UnknownFrom(delta: seq<byte>, idx: nat) {
    forall i :: idx <= i < |delta| ==> 3 < delta[i] < 0xFE || delta[i] == 0xFF
  }

  /** Bytes that are no command are passed over. */
  lemma {:induction false} UnknownPassedOver(delta: seq<byte>, idx: nat, data: seq<byte>, codec: Codec, depth: nat)
    requires 0 < idx <= |delta| && UnknownFrom(delta, idx)
    ensures ApplyFrom(delta, idx, data, codec, depth) == Outcome(data, Done)
    decreases |delta| - idx
  {
    if idx < |delta| {
      assert DecodeAt(delta, idx) == Unknown;
      UnknownPassedOver(delta, idx + 1, data, codec, depth);
    }
  }

  /** A compressed block is refused, with the data untouched, exactly if its payload does not decompress or not to the
      size it states; a larger result does not fit the buffer made for it. */
  lemma PayloadChecked(size: nat, payload: seq<byte>, data: seq<byte>, codec: Codec, depth: nat)
    requires size < U64 && |payload| < U64
    ensures var result := codec.decompress(payload);
      var r := Apply(Stream(EncodeEnvelope(size, payload)), data, codec, depth + 1);
      r == (if result.None? || |result.value| > size then Outcome(data, CorruptPayload)
            else if |result.value| < size then Outcome(data, SizeMismatch)
            else Apply(result.value, data, codec, depth))
  {
    hide EncodeEnvelope, Stream, Apply;
    var commands := EncodeEnvelope(size, payload);
    var delta := Stream(commands);
    EnvelopeLength(size, payload);
    StreamOccurs(commands);
    DecodesEnvelope(size, payload, delta, 1);
    EnvelopeOnly(size, payload, delta, data, codec, depth);
  }

  lemma EnvelopeOnly(size: nat, payload: seq<byte>, delta: seq<byte>, data: seq<byte>, codec: Codec, depth: nat)
    requires |delta| > 2 && delta[0] == PROTOCOL_VERSION && delta[|delta| - 1] == CMD_END
    requires DecodeAt(delta, 1) == Envelope(size, payload, |delta| - 1)
    ensures Apply(delta, data, codec, depth + 1) == Unwrapped(size, payload, data, codec, depth + 1)
  {
    hide Unwrapped;
    var r := Unwrapped(size, payload, data, codec, depth + 1);
    assert DecodeAt(delta, |delta| - 1) == Stop;
    assert ApplyFrom(delta, |delta| - 1, r.data, codec, depth + 1) == Outcome(r.data, Done);
  }
}
