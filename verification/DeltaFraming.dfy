/** Framing: the interpreter reads back exactly the commands the serializer printed. */
module DeltaFraming {
  import opened Wrappers
  import opened Bytes
  import opened Delta

  lemma DecodesBlock(tag: byte, offset: nat, block: seq<byte>, delta: seq<byte>, idx: nat, xor: bool)
    requires offset < U32 && |block| < U32
    requires Occurs(Block(tag, offset, block), delta, idx)
    ensures DecodeBlock(delta, idx + 1, xor)
         == Act(if xor then XorWith(offset, block) else Overwrite(offset, block), idx + 9 + |block|)
    ensures delta[idx] == tag
  {
    hide U32Field;
    var o, n := U32Field(offset), U32Field(|block|);
    OccursSplit([tag] + o + n, block, delta, idx);
    OccursSplit([tag] + o, n, delta, idx);
    OccursSplit([tag], o, delta, idx);
    U32FieldAt(offset, delta, idx + 1);
    U32FieldAt(|block|, delta, idx + 5);
  }

  lemma DecodesTotalSize(size: nat, delta: seq<byte>, idx: nat)
    requires size < U32 && Occurs(Encode(TotalSize(size)), delta, idx)
    ensures DecodeAt(delta, idx) == Act(TotalSize(size), idx + 5)
  {
    hide U32Field;
    OccursSplit([CMD_TOTAL_SIZE], U32Field(size), delta, idx);
    assert delta[idx..idx + 1][0] == delta[idx];
    U32FieldAt(size, delta, idx + 1);
  }

  /** Wherever an action was printed, the interpreter reads that action and moves just past it. */
  lemma DecodesAction(a: Action, delta: seq<byte>, idx: nat)
    requires Printable(a) && Occurs(Encode(a), delta, idx)
    ensures DecodeAt(delta, idx) == Act(a, idx + |Encode(a)|)
  {
    match a
    case TotalSize(size) => DecodesTotalSize(size, delta, idx);
    case Overwrite(offset, data) =>
      hide Block, DecodeBlock;
      DecodesBlock(CMD_DELTA_OVERWRITE, offset, data, delta, idx, false);
    case XorWith(offset, mask) =>
      hide Block, DecodeBlock;
      DecodesBlock(CMD_DELTA_XOR, offset, mask, delta, idx, true);
  }

  lemma WrapNeverGrows(n: nat)
    ensures n % U64 <= n
  {
  }

  lemma DecodesEnvelope(size: nat, payload: seq<byte>, delta: seq<byte>, idx: nat)
    requires size < U64 && |payload| < U64 && Occurs(EncodeEnvelope(size, payload), delta, idx)
    ensures DecodeAt(delta, idx) == Envelope(size, payload, idx + 17 + |payload|)
  {
    hide U64Field;
    var c, d := U64Field(|payload|), U64Field(size);
    var tag := [CMD_ZSTD_COMPRESSED_COMMANDS];
    OccursSplit(tag + c + d, payload, delta, idx);
    OccursSplit(tag + c, d, delta, idx);
    OccursSplit(tag, c, delta, idx);
    assert delta[idx..idx + 1][0] == delta[idx];
    U64FieldAt(|payload|, delta, idx + 1);
    U64FieldAt(size, delta, idx + 9);
    WrapNeverGrows(idx + 17 + |payload|);
  }

  /** The meaning of a list of actions, with no bytes involved. */
  function Run(actions: seq<Action>, data: seq<byte>): Outcome {
    if actions == [] then Outcome(data, Done)
    else
      var r := Effect(actions[0], data);
      if r.status.Done? then Run(actions[1..], r.data) else r
  }

  /** Interpreting printed actions is running them, and leaves the cursor just past them. */
  lemma {:induction false} InterpretsActions(
    actions: seq<Action>, delta: seq<byte>, idx: nat, data: seq<byte>, codec: Codec, depth: nat)
    requires 0 < idx && Occurs(EncodeAll(actions), delta, idx)
    requires forall a | a in actions :: Printable(a)
    ensures ApplyFrom(delta, idx, data, codec, depth) ==
      var r := Run(actions, data);
      if r.status.Done? then ApplyFrom(delta, idx + |EncodeAll(actions)|, r.data, codec, depth) else r
    decreases |actions|
  {
    hide Encode, DecodeAt, Effect;
    if actions != [] {
      var a, rest := actions[0], EncodeAll(actions[1..]);
      OccursSplit(Encode(a), rest, delta, idx);
      DecodesAction(a, delta, idx);
      var r := Effect(a, data);
      if r.status.Done? {
        InterpretsActions(actions[1..], delta, idx + |Encode(a)|, r.data, codec, depth);
      }
    }
  }

  lemma StreamOccurs(commands: seq<byte>)
    ensures var delta := Stream(commands);
      && |delta| == |commands| + 2 && delta[0] == PROTOCOL_VERSION
      && Occurs(commands, delta, 1) && delta[|commands| + 1] == CMD_END
  {
  }

  /** Framing: interpreting the bytes of a delta is running the actions it was printed from. */
  lemma StreamInterpreted(actions: seq<Action>, data: seq<byte>, codec: Codec, depth: nat)
    requires forall a | a in actions :: Printable(a)
    ensures Apply(Stream(EncodeAll(actions)), data, codec, depth) == Run(actions, data)
  {
    hide EncodeAll, Stream, Run;
    var delta := Stream(EncodeAll(actions));
    StreamOccurs(EncodeAll(actions));
    InterpretsActions(actions, delta, 1, data, codec, depth);
    assert DecodeAt(delta, |delta| - 1) == Stop;
  }

  /** The zstd envelope is transparent: interpreting the wrapped delta is interpreting the inner one. */
  lemma EnvelopeTransparent(inner: seq<byte>, level: int, data: seq<byte>, codec: Codec, depth: nat)
    requires Faithful(codec) && |inner| < U64 && codec.compress(level, inner).Some?
    ensures Apply(Stream(EncodeEnvelope(|inner|, codec.compress(level, inner).value)), data, codec, depth + 1)
         == Apply(inner, data, codec, depth)
  {
    hide EncodeEnvelope, Stream;
    var payload := codec.compress(level, inner).value;
    var commands := EncodeEnvelope(|inner|, payload);
    var delta := Stream(commands);
    EnvelopeLength(|inner|, payload);
    StreamOccurs(commands);
    DecodesEnvelope(|inner|, payload, delta, 1);
    assert DecodeAt(delta, |delta| - 1) == Stop;
    var r := Apply(inner, data, codec, depth);
    assert Unwrapped(|inner|, payload, data, codec, depth + 1) == r;
    assert ApplyFrom(delta, |delta| - 1, r.data, codec, depth + 1) == Outcome(r.data, Done);
    assert ApplyFrom(delta, 1, data, codec, depth + 1) == r;
  }

  lemma EnvelopeLength(size: nat, payload: seq<byte>)
    ensures |EncodeEnvelope(size, payload)| == 17 + |payload|
  {
  }
}
