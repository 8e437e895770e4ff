/** The delta codec: a printer that describes a buffer's change as commands, and the interpreter of those commands. */
module Delta {
  import opened Wrappers
  import opened Bytes
  import opened Numbers

  const PROTOCOL_VERSION: byte := 1
  const CMD_TOTAL_SIZE: byte := 0x00
  const CMD_ZSTD_COMPRESSED_COMMANDS: byte := 0x01
  const CMD_DELTA_OVERWRITE: byte := 0x02
  const CMD_DELTA_XOR: byte := 0x03
  const CMD_END: byte := 0xFE

  datatype Settings = Settings(usePages: bool, pageSize: nat, xorWithOld: bool, useZstd: bool, zstdLevel: int)

  /** The compressor and decompressor of the zstd library; None is an error code. */
  datatype Codec = Codec(compress: (int, seq<byte>) -> Option<seq<byte>>, decompress: seq<byte> -> Option<seq<byte>>)

  ghost predicate Faithful(codec: Codec) {
    forall level: int, s: seq<byte> {:trigger codec.compress(level, s)} ::
      codec.compress(level, s).Some? ==>
        && codec.decompress(codec.compress(level, s).value) == Some(s)
        && |codec.compress(level, s).value| + 19 < U64
  }

  // ---------------------------------------------------------------- commands

  /** The commands that act on the data. */
  datatype Action =
    | TotalSize(size: nat)
    | Overwrite(offset: nat, data: seq<byte>)
    | XorWith(offset: nat, mask: seq<byte>)

  /** The actions whose fields fit the widths they are printed with. */
  predicate Printable(a: Action) {
    match a
    case TotalSize(size) => size < U32
    case Overwrite(offset, data) => offset < U32 && |data| < U32
    case XorWith(offset, mask) => offset < U32 && |mask| < U32
  }

  function Block(tag: byte, offset: nat, block: seq<byte>): (b: seq<byte>)
    ensures |b| == 9 + |block|
  {
    [tag] + U32Field(offset) + U32Field(|block|) + block
  }

  function Encode(a: Action): (b: seq<byte>)
    ensures |b| > 0
  {
    match a
    case TotalSize(size) => [CMD_TOTAL_SIZE] + U32Field(size)
    case Overwrite(offset, data) => Block(CMD_DELTA_OVERWRITE, offset, data)
    case XorWith(offset, mask) => Block(CMD_DELTA_XOR, offset, mask)
  }

  function EncodeAll(actions: seq<Action>): seq<byte> {
    if actions == [] then [] else Encode(actions[0]) + EncodeAll(actions[1..])
  }

  function EncodeEnvelope(decompressedSize: nat, payload: seq<byte>): seq<byte> {
    [CMD_ZSTD_COMPRESSED_COMMANDS] + U64Field(|payload|) + U64Field(decompressedSize) + payload
  }

  /** A whole delta around its commands. */
  function Stream(commands: seq<byte>): seq<byte> {
    [PROTOCOL_VERSION] + commands + [CMD_END]
  }

  lemma {:induction false} EncodeAllConcat(a: seq<Action>, b: seq<Action>)
    ensures EncodeAll(a + b) == EncodeAll(a) + EncodeAll(b)
  {
    hide Encode;
    if a == [] {
      assert a + b == b;
    } else {
      assert (a + b)[1..] == a[1..] + b;
      EncodeAllConcat(a[1..], b);
    }
  }

  lemma EncodeNone(outb: seq<byte>)
    ensures outb + EncodeAll([]) == outb
  {
  }

  lemma EncodeOne(a: Action)
    ensures EncodeAll([a]) == Encode(a)
  {
    hide Encode;
    assert EncodeAll([a]) == Encode(a) + EncodeAll([]);
  }

  // -------------------------------------------------------------- serializer

  /** Which bytes of the old buffer a full page present in both buffers is compared with. */
  datatype PageTest = AsWritten | OwnPage

  function CompareBase(test: PageTest, start: nat): nat {
    if test.AsWritten? then 0 else start
  }

  function XorBytes(a: seq<byte>, b: seq<byte>): (r: seq<byte>)
    requires |a| == |b|
    ensures |r| == |a|
  {
    seq(|a|, i requires 0 <= i < |a| => Xor(a[i], b[i]))
  }

  /** What the serializer is given. `beyond` is the memory after the new data, which the zero test of a last
      partial page reads. */
  datatype Change = Change(cfg: Settings, oldData: seq<byte>, newData: seq<byte>, beyond: seq<byte>)

  predicate Usable(ch: Change) {
    ch.cfg.usePages ==> ch.cfg.pageSize > 0
  }

  function ChangedRegion(ch: Change, start: nat, length: nat): seq<Action>
    requires start + length <= |ch.oldData| && start + length <= |ch.newData|
  {
    var block := ch.newData[start..start + length];
    if length == 0 then []
    else if ch.cfg.xorWithOld then [XorWith(start, XorBytes(ch.oldData[start..start + length], block))]
    else [Overwrite(start, block)]
  }

  function NewRegion(ch: Change, start: nat, length: nat): seq<Action>
    requires start + length <= |ch.newData|
  {
    if length == 0 then [] else [Overwrite(start, ch.newData[start..start + length])]
  }

  /** Whether a page lies wholly in both buffers. */
  predicate InBoth(ch: Change, start: nat) {
    start + ch.cfg.pageSize <= |ch.newData| && start + ch.cfg.pageSize <= |ch.oldData|
  }

  predicate AnyNonZero(s: seq<byte>) {
    exists i :: 0 <= i < |s| && s[i] != 0
  }

  /** The bytes the zero test of a page looks at. */
  function TestedBytes(ch: Change, start: nat): seq<byte>
    requires start < |ch.newData|
  {
    (ch.newData + ch.beyond)[start..Min(start + ch.cfg.pageSize, |ch.newData| + |ch.beyond|)]
  }

  /** The part of a page that the new data fills. */
  function PageLength(ch: Change, start: nat): nat
    requires start < |ch.newData|
  {
    Min(start + ch.cfg.pageSize, |ch.newData|) - start
  }

  function PageActions(test: PageTest, ch: Change, start: nat): seq<Action>
    requires start < |ch.newData|
  {
    if start < |ch.oldData| && InBoth(ch, start) then
      var base := CompareBase(test, start);
      if ch.newData[start..start + ch.cfg.pageSize] != ch.oldData[base..base + ch.cfg.pageSize]
      then ChangedRegion(ch, start, ch.cfg.pageSize) else []
    else if start >= |ch.oldData| && !AnyNonZero(TestedBytes(ch, start)) then []
    else NewRegion(ch, start, PageLength(ch, start))
  }

  function PagedActions(test: PageTest, ch: Change, from: nat): seq<Action>
    requires ch.cfg.pageSize > 0
    decreases |ch.newData| - from
  {
    if from >= |ch.newData| then []
    else PageActions(test, ch, from) + PagedActions(test, ch, from + ch.cfg.pageSize)
  }

  function RegionActions(test: PageTest, ch: Change): seq<Action>
    requires Usable(ch)
  {
    if ch.cfg.usePages then PagedActions(test, ch, 0)
    else if |ch.newData| >= |ch.oldData| then
      ChangedRegion(ch, 0, |ch.oldData|) + NewRegion(ch, |ch.oldData|, |ch.newData| - |ch.oldData|)
    else ChangedRegion(ch, 0, |ch.newData|)
  }

  function DeltaActions(test: PageTest, ch: Change): seq<Action>
    requires Usable(ch)
  {
    [TotalSize(|ch.newData| % U32)] + RegionActions(test, ch)
  }

  /** The whole delta; None where the compressor's error is thrown. */
  function Serialized(test: PageTest, ch: Change, codec: Codec): Option<seq<byte>>
    requires Usable(ch)
  {
    var inner := Stream(EncodeAll(DeltaActions(test, ch)));
    if !ch.cfg.useZstd then Some(inner)
    else match codec.compress(ch.cfg.zstdLevel, inner)
      case None => None
      case Some(payload) => Some(Stream(EncodeEnvelope(|inner|, payload)))
  }

  method EncodeBlock(outb: seq<byte>, tag: byte, offset: nat, block: seq<byte>) returns (extended: seq<byte>)
    ensures extended == outb + Block(tag, offset, block)
  {
    extended := outb + [tag];
    extended := AppendU32(extended, offset);
    extended := AppendU32(extended, |block|);
    extended := extended + block;
  }

  method EncodeChangedRegion(ch: Change, outb: seq<byte>, start: nat, length: nat) returns (extended: seq<byte>)
    requires start + length <= |ch.oldData| && start + length <= |ch.newData|
    ensures extended == outb + EncodeAll(ChangedRegion(ch, start, length))
  {
    if length == 0 {
      return outb;
    }
    var end := start + length;
    if ch.cfg.xorWithOld {
      var mask := XorBytes(ch.oldData[start..end], ch.newData[start..end]);
      extended := EncodeBlock(outb, CMD_DELTA_XOR, start, mask);
      EncodeOne(XorWith(start, mask));
    } else {
      extended := EncodeBlock(outb, CMD_DELTA_OVERWRITE, start, ch.newData[start..end]);
      EncodeOne(Overwrite(start, ch.newData[start..end]));
    }
  }

  method EncodeNewRegion(ch: Change, outb: seq<byte>, start: nat, length: nat) returns (extended: seq<byte>)
    requires start + length <= |ch.newData|
    ensures extended == outb + EncodeAll(NewRegion(ch, start, length))
  {
    if length == 0 {
      return outb;
    }
    extended := EncodeBlock(outb, CMD_DELTA_OVERWRITE, start, ch.newData[start..start + length]);
    EncodeOne(Overwrite(start, ch.newData[start..start + length]));
  }

  method EncodePage(ch: Change, outb: seq<byte>, pageStart: nat) returns (extended: seq<byte>)
    requires pageStart < |ch.newData|
    ensures extended == outb + EncodeAll(PageActions(AsWritten, ch, pageStart))
  {
    var pageEnd := pageStart + ch.cfg.pageSize;
    var startInBoth := pageStart < |ch.oldData|;
    var endInBoth := pageEnd <= |ch.newData| && pageEnd <= |ch.oldData|;
    extended := outb;
    EncodeNone(outb);
    hide EncodeAll, ChangedRegion, NewRegion;
    if startInBoth && endInBoth {
      var anyChanges := ch.newData[pageStart..pageEnd] != ch.oldData[0..ch.cfg.pageSize];
      if anyChanges {
        extended := EncodeChangedRegion(ch, outb, pageStart, ch.cfg.pageSize);
      }
    } else if !startInBoth {
      if AnyNonZero(TestedBytes(ch, pageStart)) {
        extended := EncodeNewRegion(ch, outb, pageStart, Min(pageEnd, |ch.newData|) - pageStart);
      }
    } else {
      extended := EncodeNewRegion(ch, outb, pageStart, Min(pageEnd, |ch.newData|) - pageStart);
    }
  }

  lemma EncodePagesStep(ch: Change, from: nat, outb: seq<byte>)
    requires ch.cfg.pageSize > 0 && from < |ch.newData|
    ensures outb + EncodeAll(PagedActions(AsWritten, ch, from))
         == outb + EncodeAll(PageActions(AsWritten, ch, from))
            + EncodeAll(PagedActions(AsWritten, ch, from + ch.cfg.pageSize))
  {
    hide EncodeAll, PageActions;
    var page := PageActions(AsWritten, ch, from);
    var rest := PagedActions(AsWritten, ch, from + ch.cfg.pageSize);
    EncodeAllConcat(page, rest);
    Associative(outb, EncodeAll(page), EncodeAll(rest));
  }

  lemma Associative<T>(a: seq<T>, b: seq<T>, c: seq<T>)
    ensures a + (b + c) == a + b + c
  {
  }

  method EncodePages(ch: Change, outb: seq<byte>) returns (extended: seq<byte>)
    requires ch.cfg.pageSize > 0
    ensures extended == outb + EncodeAll(PagedActions(AsWritten, ch, 0))
  {
    extended := outb;
    hide EncodeAll, PageActions;
    var pageStart := 0;
    while pageStart < |ch.newData|
      invariant extended + EncodeAll(PagedActions(AsWritten, ch, pageStart))
             == outb + EncodeAll(PagedActions(AsWritten, ch, 0))
      decreases |ch.newData| - pageStart
    {
      EncodePagesStep(ch, pageStart, extended);
      extended := EncodePage(ch, extended, pageStart);
      pageStart := pageStart + ch.cfg.pageSize;
    }
    EncodeNone(extended);
  }

  method EncodeGrown(ch: Change, outb: seq<byte>) returns (extended: seq<byte>)
    requires |ch.newData| >= |ch.oldData|
    ensures extended == outb + EncodeAll(ChangedRegion(ch, 0, |ch.oldData|)
                                         + NewRegion(ch, |ch.oldData|, |ch.newData| - |ch.oldData|))
  {
    hide EncodeAll, ChangedRegion, NewRegion;
    ghost var changed := ChangedRegion(ch, 0, |ch.oldData|);
    ghost var grown := NewRegion(ch, |ch.oldData|, |ch.newData| - |ch.oldData|);
    EncodeAllConcat(changed, grown);
    Associative(outb, EncodeAll(changed), EncodeAll(grown));
    extended := EncodeChangedRegion(ch, outb, 0, |ch.oldData|);
    extended := EncodeNewRegion(ch, extended, |ch.oldData|, |ch.newData| - |ch.oldData|);
  }

  method EncodeRegions(ch: Change, outb: seq<byte>) returns (extended: seq<byte>)
    requires Usable(ch)
    ensures extended == outb + EncodeAll(RegionActions(AsWritten, ch))
  {
    if ch.cfg.usePages {
      extended := EncodePages(ch, outb);
    } else if |ch.newData| >= |ch.oldData| {
      extended := EncodeGrown(ch, outb);
    } else {
      extended := EncodeChangedRegion(ch, outb, 0, |ch.newData|);
    }
  }

  method EncodeActions(ch: Change) returns (outb: seq<byte>)
    requires Usable(ch)
    ensures outb == [PROTOCOL_VERSION] + EncodeAll(DeltaActions(AsWritten, ch))
  {
    hide EncodeAll, RegionActions;
    var size := TotalSize(|ch.newData| % U32);
    outb := [PROTOCOL_VERSION] + [CMD_TOTAL_SIZE];
    outb := AppendU32(outb, |ch.newData| % U32);
    assert outb == [PROTOCOL_VERSION] + Encode(size);
    EncodeOne(size);
    EncodeAllConcat([size], RegionActions(AsWritten, ch));
    Associative([PROTOCOL_VERSION], Encode(size), EncodeAll(RegionActions(AsWritten, ch)));
    outb := EncodeRegions(ch, outb);
  }

  method Wrap(inner: seq<byte>, payload: seq<byte>) returns (wrapped: seq<byte>)
    ensures wrapped == Stream(EncodeEnvelope(|inner|, payload))
  {
    hide U64Field;
    var envelope := [CMD_ZSTD_COMPRESSED_COMMANDS];
    envelope := AppendU64(envelope, |payload|);
    envelope := AppendU64(envelope, |inner|);
    envelope := envelope + payload;
    wrapped := [PROTOCOL_VERSION] + envelope + [CMD_END];
  }

  method SerializeDelta(ch: Change, codec: Codec) returns (delta: Option<seq<byte>>)
    requires Usable(ch)
    ensures delta == Serialized(AsWritten, ch, codec)
  {
    hide EncodeAll, DeltaActions, EncodeEnvelope;
    var outb := EncodeActions(ch);
    outb := outb + [CMD_END];
    if !ch.cfg.useZstd {
      return Some(outb);
    }
    var result := codec.compress(ch.cfg.zstdLevel, outb);
    if result.None? {
      return None;
    }
    var wrapped := Wrap(outb, result.value);
    delta := Some(wrapped);
  }

  // ------------------------------------------------------------- interpreter

  /** How an interpretation ends: completed, one of the source's exceptions, or at a block that does not lie in the
      data buffer, where the model stops. */
  datatype Status =
    | Done | TooShort | BadVersion | FieldOutOfRange | BlockOutOfRange
    | CorruptPayload | SizeMismatch | OutsideBuffer | NestedTooDeep

  datatype Outcome = Outcome(data: seq<byte>, status: Status)

  /** Truncates or extends with zeroes. */
  function Resize(data: seq<byte>, size: nat): (r: seq<byte>)
    ensures |r| == size
    ensures forall i :: 0 <= i < size ==> r[i] == if i < |data| then data[i] else 0
  {
    seq(size, i requires 0 <= i < size => if i < |data| then data[i] else 0)
  }

  function Splice(data: seq<byte>, offset: nat, block: seq<byte>): (r: seq<byte>)
    requires offset + |block| <= |data|
    ensures |r| == |data|
    ensures forall i :: 0 <= i < |data| ==>
      r[i] == if offset <= i < offset + |block| then block[i - offset] else data[i]
  {
    seq(|data|, i requires 0 <= i < |data| => if offset <= i < offset + |block| then block[i - offset] else data[i])
  }

  datatype Decoded =
    | Unreadable(status: Status)
    | Unknown
    | Act(action: Action, next: nat)
    | Envelope(decompressedSize: nat, payload: seq<byte>, next: nat)
    | Stop

  function DecodeBlock(delta: seq<byte>, idx: nat, xor: bool): (d: Decoded)
    ensures d.Act? ==> idx < d.next <= |delta|
    ensures d.Act? || d.Unreadable?
  {
    var offset := Field(delta, idx, 4);
    var length := Field(delta, idx + 4, 4);
    if offset.None? || length.None? then Unreadable(FieldOutOfRange)
    else if idx + 8 + length.value > |delta| then Unreadable(BlockOutOfRange)
    else
      var block := delta[idx + 8..idx + 8 + length.value];
      Act(if xor then XorWith(offset.value, block) else Overwrite(offset.value, block), idx + 8 + length.value)
  }

  function DecodeEnvelope(delta: seq<byte>, idx: nat): (d: Decoded)
    ensures d.Envelope? ==> idx < d.next <= |delta|
    ensures d.Envelope? || d.Unreadable?
  {
    var compressed := Field(delta, idx, 8);
    var decompressed := Field(delta, idx + 8, 8);
    if compressed.None? || decompressed.None? then Unreadable(FieldOutOfRange)
    else if (idx + 16 + compressed.value) % U64 > |delta| then Unreadable(BlockOutOfRange)
    else if idx + 16 + compressed.value > |delta| then Unreadable(OutsideBuffer)
    else Envelope(decompressed.value, delta[idx + 16..idx + 16 + compressed.value], idx + 16 + compressed.value)
  }

  /** The command at the cursor. The cursor after it is always past it. */
  function DecodeAt(delta: seq<byte>, idx: nat): (d: Decoded)
    requires idx < |delta|
    ensures d.Act? || d.Envelope? ==> idx < d.next <= |delta|
  {
    var tag := delta[idx];
    if tag == CMD_TOTAL_SIZE then
      var size := Field(delta, idx + 1, 4);
      if size.None? then Unreadable(FieldOutOfRange) else Act(TotalSize(size.value), idx + 5)
    else if tag == CMD_ZSTD_COMPRESSED_COMMANDS then DecodeEnvelope(delta, idx + 1)
    else if tag == CMD_DELTA_OVERWRITE then DecodeBlock(delta, idx + 1, false)
    else if tag == CMD_DELTA_XOR then DecodeBlock(delta, idx + 1, true)
    else if tag == CMD_END then Stop
    else Unknown
  }

  function Effect(a: Action, data: seq<byte>): Outcome {
    match a
    case TotalSize(size) => Outcome(Resize(data, size), Done)
    case Overwrite(offset, block) =>
      if offset + |block| <= |data| then Outcome(Splice(data, offset, block), Done)
      else Outcome(data, OutsideBuffer)
    case XorWith(offset, mask) =>
      if offset + |mask| <= |data| then
        Outcome(Splice(data, offset, XorBytes(mask, data[offset..offset + |mask|])), Done)
      else Outcome(data, OutsideBuffer)
  }

  function Unwrapped(size: nat, payload: seq<byte>, data: seq<byte>, codec: Codec, depth: nat): Outcome
    decreases depth, 0
  {
    match codec.decompress(payload)
    case None => Outcome(data, CorruptPayload)
    case Some(inner) =>
      if |inner| > size then Outcome(data, CorruptPayload)
      else if |inner| < size then Outcome(data, SizeMismatch)
      else if depth == 0 then Outcome(data, NestedTooDeep)
      else Apply(inner, data, codec, depth - 1)
  }

  function ApplyFrom(delta: seq<byte>, idx: nat, data: seq<byte>, codec: Codec, depth: nat): Outcome
    requires 0 < idx
    decreases depth, 1, |delta| - idx
  {
    if idx >= |delta| then Outcome(data, Done)
    else match DecodeAt(delta, idx)
      case Unreadable(status) => Outcome(data, status)
      case Unknown => ApplyFrom(delta, idx + 1, data, codec, depth)
      case Act(action, next) =>
        var r := Effect(action, data);
        if r.status.Done? then ApplyFrom(delta, next, r.data, codec, depth) else r
      case Envelope(size, payload, next) =>
        var r := Unwrapped(size, payload, data, codec, depth);
        if r.status.Done? then ApplyFrom(delta, next, r.data, codec, depth) else r
      case Stop => Outcome(data, Done)
  }

  /** Interpreting a delta; `depth` bounds the nesting of compressed envelopes. */
  function Apply(delta: seq<byte>, data: seq<byte>, codec: Codec, depth: nat): Outcome
    decreases depth, 2
  {
    if |delta| < 2 then Outcome(data, TooShort)
    else if delta[0] != PROTOCOL_VERSION then Outcome(data, BadVersion)
    else ApplyFrom(delta, 1, data, codec, depth)
  }

  /** The buffer behind the two callbacks of the interpreter. */
  class DataBuffer {
    var bytes: seq<byte>

    constructor (initial: seq<byte>)
      ensures bytes == initial
    {
      bytes := initial;
    }

    method SetDataSize(size: nat)
      modifies this
      ensures bytes == Resize(old(bytes), size)
    {
      bytes := Resize(bytes, size);
    }

    method CopyTo(offset: nat, block: seq<byte>)
      requires offset + |block| <= |bytes|
      modifies this
      ensures bytes == Splice(old(bytes), offset, block)
    {
      bytes := Splice(bytes, offset, block);
    }

    method XorInto(offset: nat, mask: seq<byte>)
      requires offset + |mask| <= |bytes|
      modifies this
      ensures bytes == Splice(old(bytes), offset, XorBytes(mask, old(bytes)[offset..offset + |mask|]))
    {
      bytes := Splice(bytes, offset, XorBytes(mask, bytes[offset..offset + |mask|]));
    }
  }

  method ReadBlock(delta: seq<byte>, idx: nat) returns (next: nat, offset: nat, block: seq<byte>, status: Status)
    ensures forall xor :: DecodeBlock(delta, idx, xor) ==
                          (if !status.Done? then Unreadable(status)
                           else Act(if xor then XorWith(offset, block) else Overwrite(offset, block), next))
  {
    var offsetField: Option<nat>;
    var length: Option<nat>;
    offset, block := 0, [];
    next, offsetField := ReadBytesOf(delta, idx, 4);
    if offsetField.None? {
      return next, offset, block, FieldOutOfRange;
    }
    next, length := ReadBytesOf(delta, next, 4);
    if length.None? {
      return next, offset, block, FieldOutOfRange;
    }
    if next + length.value > |delta| {
      return next, offset, block, BlockOutOfRange;
    }
    return next + length.value, offsetField.value, delta[next..next + length.value], Done;
  }

  method ApplyBlock(delta: seq<byte>, idx: nat, xor: bool, target: DataBuffer) returns (next: nat, status: Status)
    modifies target
    ensures var d := DecodeBlock(delta, idx, xor);
      if d.Act? then Outcome(target.bytes, status) == Effect(d.action, old(target.bytes)) && next == d.next
      else d == Unreadable(status) && target.bytes == old(target.bytes)
  {
    var offset, block;
    next, offset, block, status := ReadBlock(delta, idx);
    ghost var decoded := DecodeBlock(delta, idx, xor);
    if !status.Done? {
      return;
    }
    assert decoded == Act(if xor then XorWith(offset, block) else Overwrite(offset, block), next);
    if offset + |block| > |target.bytes| {
      status := OutsideBuffer;
    } else if xor {
      target.XorInto(offset, block);
    } else {
      target.CopyTo(offset, block);
    }
  }

  method ApplyEnvelope(delta: seq<byte>, idx: nat, codec: Codec, depth: nat, target: DataBuffer)
    returns (next: nat, status: Status)
    modifies target
    ensures var d := DecodeEnvelope(delta, idx);
      if d.Envelope? then
        Outcome(target.bytes, status) == Unwrapped(d.decompressedSize, d.payload, old(target.bytes), codec, depth)
        && next == d.next
      else d == Unreadable(status) && target.bytes == old(target.bytes)
    decreases depth, 0
  {
    var compressedSize: Option<nat>;
    var decompressedSize: Option<nat>;
    next, compressedSize := ReadBytesOf(delta, idx, 8);
    if compressedSize.None? {
      return next, FieldOutOfRange;
    }
    next, decompressedSize := ReadBytesOf(delta, next, 8);
    if decompressedSize.None? {
      return next, FieldOutOfRange;
    }
    if (next + compressedSize.value) % U64 > |delta| {
      return next, BlockOutOfRange;
    }
    if next + compressedSize.value > |delta| {
      return next, OutsideBuffer;
    }
    var result := codec.decompress(delta[next..next + compressedSize.value]);
    next := next + compressedSize.value;
    if result.None? || |result.value| > decompressedSize.value {
      return next, CorruptPayload;
    }
    if |result.value| != decompressedSize.value {
      return next, SizeMismatch;
    }
    if depth == 0 {
      return next, NestedTooDeep;
    }
    status := ApplyDelta(result.value, codec, depth - 1, target);
  }

  method ApplyDelta(delta: seq<byte>, codec: Codec, depth: nat, target: DataBuffer) returns (status: Status)
    modifies target
    ensures Outcome(target.bytes, status) == Apply(delta, old(target.bytes), codec, depth)
    decreases depth, 1
  {
    if |delta| < 2 {
      return TooShort;
    }
    if delta[0] != PROTOCOL_VERSION {
      return BadVersion;
    }
    hide DecodeBlock, DecodeEnvelope, Unwrapped, FromLittleEndian;
    var readIdx := 1;
    status := Done;
    while readIdx < |delta|
      invariant 1 <= readIdx <= |delta| && status.Done?
      invariant ApplyFrom(delta, readIdx, target.bytes, codec, depth) == Apply(delta, old(target.bytes), codec, depth)
      decreases |delta| - readIdx
    {
      var cmd := delta[readIdx];
      if cmd == CMD_TOTAL_SIZE {
        var totalSize: Option<nat>;
        readIdx, totalSize := ReadBytesOf(delta, readIdx + 1, 4);
        if totalSize.None? {
          return FieldOutOfRange;
        }
        target.SetDataSize(totalSize.value);
      } else if cmd == CMD_END {
        readIdx := |delta|;
      } else if cmd != CMD_ZSTD_COMPRESSED_COMMANDS && cmd != CMD_DELTA_OVERWRITE && cmd != CMD_DELTA_XOR {
        readIdx := readIdx + 1;
      } else if cmd == CMD_ZSTD_COMPRESSED_COMMANDS {
        readIdx, status := ApplyEnvelope(delta, readIdx + 1, codec, depth, target);
        if !status.Done? {
          return;
        }
      } else {
        readIdx, status := ApplyBlock(delta, readIdx + 1, cmd == CMD_DELTA_XOR, target);
        if !status.Done? {
          return;
        }
      }
    }
  }
}
