/** The round trip of the delta codec. */
module DeltaRoundTrip {
  import opened Wrappers
  import opened Bytes
  import opened Delta
  import opened DeltaFraming
  import opened DeltaEffects

  lemma DeltaActionsEffect(test: PageTest, ch: Change)
    requires Usable(ch) && |ch.newData| < U32
    ensures Run(DeltaActions(test, ch), ch.oldData) == Outcome(Patched(test, ch), Done)
  {
    hide RegionActions, Patched;
    var regions := RegionActions(test, ch);
    RegionsEffect(test, ch);
    assert DeltaActions(test, ch)[1..] == regions;
  }

  lemma InnerStreamEffect(test: PageTest, ch: Change, codec: Codec, depth: nat)
    requires Usable(ch) && |ch.newData| < U32
    ensures Apply(Stream(EncodeAll(DeltaActions(test, ch))), ch.oldData, codec, depth)
         == Outcome(Patched(test, ch), Done)
  {
    hide RegionActions, Patched, Run, EncodeAll, Stream, Apply;
    RegionsPrintable(test, ch);
    StreamInterpreted(DeltaActions(test, ch), ch.oldData, codec, depth);
    DeltaActionsEffect(test, ch);
  }

  /** Printed actions never outgrow a 64-bit size. */
  lemma {:induction false} PagesLength(test: PageTest, ch: Change, from: nat)
    requires ch.cfg.pageSize > 0
    ensures |EncodeAll(PagedActions(test, ch, from))| <= if from < |ch.newData| then 10 * (|ch.newData| - from) else 0
    decreases |ch.newData| - from
  {
    hide PageActions, EncodeAll;
    EncodeNone([]);
    if from < |ch.newData| {
      PageActionsLength(test, ch, from);
      EncodeAllConcat(PageActions(test, ch, from), PagedActions(test, ch, from + ch.cfg.pageSize));
      PagesLength(test, ch, from + ch.cfg.pageSize);
    }
  }

  lemma PageActionsLength(test: PageTest, ch: Change, start: nat)
    requires ch.cfg.pageSize > 0 && start < |ch.newData|
    ensures |EncodeAll(PageActions(test, ch, start))| <= 9 + PageLength(ch, start)
  {
    hide PageActions, EncodeAll;
    EncodeNone([]);
    var page := PageActions(test, ch, start);
    if page != [] {
      PageEmitted(test, ch, start);
      assert page == [page[0]];
      EncodeOne(page[0]);
    }
  }

  lemma StreamLength(test: PageTest, ch: Change)
    requires Usable(ch) && |ch.newData| < U32
    ensures |Stream(EncodeAll(DeltaActions(test, ch)))| < U64
  {
    hide EncodeAll, PagedActions, ChangedRegion, NewRegion;
    var regions := RegionActions(test, ch);
    EncodeOne(TotalSize(|ch.newData| % U32));
    EncodeAllConcat([TotalSize(|ch.newData| % U32)], regions);
    EncodeNone([]);
    if ch.cfg.usePages {
      PagesLength(test, ch, 0);
    } else if |ch.newData| >= |ch.oldData| {
      var changed := ChangedRegion(ch, 0, |ch.oldData|);
      var grown := NewRegion(ch, |ch.oldData|, |ch.newData| - |ch.oldData|);
      EncodeAllConcat(changed, grown);
      ChangedRegionLength(ch, 0, |ch.oldData|);
      NewRegionLength(ch, |ch.oldData|, |ch.newData| - |ch.oldData|);
    } else {
      ChangedRegionLength(ch, 0, |ch.newData|);
    }
  }

  lemma ChangedRegionLength(ch: Change, start: nat, length: nat)
    requires start + length <= |ch.oldData| && start + length <= |ch.newData|
    ensures |EncodeAll(ChangedRegion(ch, start, length))| <= 9 + length
  {
    var cmds := ChangedRegion(ch, start, length);
    if cmds != [] {
      EncodeOne(cmds[0]);
    }
  }

  lemma NewRegionLength(ch: Change, start: nat, length: nat)
    requires start + length <= |ch.newData|
    ensures |EncodeAll(NewRegion(ch, start, length))| <= 9 + length
  {
    var cmds := NewRegion(ch, start, length);
    if cmds != [] {
      EncodeOne(cmds[0]);
    }
  }

  /** What applying a serialized delta to the old data gives, in every setting, wrapped or not. */
  lemma AppliedDelta(test: PageTest, ch: Change, codec: Codec, depth: nat)
    requires Usable(ch) && |ch.newData| < U32 && Faithful(codec) && 0 < depth
    requires Serialized(test, ch, codec).Some?
    ensures Apply(Serialized(test, ch, codec).value, ch.oldData, codec, depth) == Outcome(Patched(test, ch), Done)
  {
    hide Stream, EncodeAll, DeltaActions, Apply, Patched;
    var inner := Stream(EncodeAll(DeltaActions(test, ch)));
    if ch.cfg.useZstd {
      StreamLength(test, ch);
      EnvelopeTransparent(inner, ch.cfg.zstdLevel, ch.oldData, codec, depth - 1);
      InnerStreamEffect(test, ch, codec, depth - 1);
    } else {
      InnerStreamEffect(test, ch, codec, depth);
    }
  }

  /** The round trip as written: exact unpaged, and paged exactly when no full page present in both buffers
      equals the old data's first page while differing from its own old page. */
  lemma RoundTrip(ch: Change, codec: Codec, depth: nat)
    requires Usable(ch) && |ch.newData| < U32 && Faithful(codec) && 0 < depth
    requires Serialized(AsWritten, ch, codec).Some?
    ensures var r := Apply(Serialized(AsWritten, ch, codec).value, ch.oldData, codec, depth);
      && r.status == Done
      && |r.data| == |ch.newData|
      && (r.data == ch.newData <==>
          (ch.cfg.usePages ==> forall k: nat :: !WronglySkipped(AsWritten, ch, PageStart(ch, k))))
  {
    hide Serialized, Apply, PagedResult;
    AppliedDelta(AsWritten, ch, codec, depth);
    if ch.cfg.usePages {
      PagesExact(AsWritten, ch, 0);
      assert PageStart(ch, 0) == 0;
    }
  }

  /** With each page compared with its own old bytes the round trip has no side condition. */
  lemma RoundTripWithOwnPageTest(ch: Change, codec: Codec, depth: nat)
    requires Usable(ch) && |ch.newData| < U32 && Faithful(codec) && 0 < depth
    requires Serialized(OwnPage, ch, codec).Some?
    ensures Apply(Serialized(OwnPage, ch, codec).value, ch.oldData, codec, depth) == Outcome(ch.newData, Done)
  {
    hide Serialized, Apply, PagedResult;
    AppliedDelta(OwnPage, ch, codec, depth);
    if ch.cfg.usePages {
      PagesExact(OwnPage, ch, 0);
      assert NoneSkippedFrom(OwnPage, ch, 0);
      assert PageStart(ch, 0) == 0 && ch.newData[0..] == ch.newData;
    }
  }

  // -------------------------------------------------- data of 2^32 bytes or more

  lemma DecodedSize(delta: seq<byte>, idx: nat)
    requires idx < |delta| && DecodeAt(delta, idx).Act? && DecodeAt(delta, idx).action.TotalSize?
    ensures DecodeAt(delta, idx).action.size < U32
  {
    Pow256Widths();
    FieldBounded(delta[idx + 1..idx + 5]);
  }

  lemma EffectSize(a: Action, data: seq<byte>)
    requires |data| < U32 && (a.TotalSize? ==> a.size < U32)
    ensures |Effect(a, data).data| < U32
  {
  }

  /** Whatever a delta says, data shorter than 2^32 stays so. */
  lemma {:induction false} SizeStaysBelow(delta: seq<byte>, idx: nat, data: seq<byte>, codec: Codec, depth: nat)
    requires 0 < idx && |data| < U32
    ensures |ApplyFrom(delta, idx, data, codec, depth).data| < U32
    decreases depth, 1, |delta| - idx
  {
    hide DecodeAt, Effect, Unwrapped;
    if idx < |delta| {
      match DecodeAt(delta, idx)
      case Unknown => SizeStaysBelow(delta, idx + 1, data, codec, depth);
      case Act(action, next) =>
        if action.TotalSize? {
          DecodedSize(delta, idx);
        }
        EffectSize(action, data);
        SizeStaysBelow(delta, next, Effect(action, data).data, codec, depth);
      case Envelope(size, payload, next) =>
        UnwrappedStaysBelow(size, payload, data, codec, depth);
        SizeStaysBelow(delta, next, Unwrapped(size, payload, data, codec, depth).data, codec, depth);
      case _ =>
    }
  }

  lemma UnwrappedStaysBelow(size: nat, payload: seq<byte>, data: seq<byte>, codec: Codec, depth: nat)
    requires |data| < U32
    ensures |Unwrapped(size, payload, data, codec, depth).data| < U32
    decreases depth, 0
  {
    var inner := codec.decompress(payload);
    if inner.Some? && |inner.value| == size && depth > 0 {
      SizeStaysBelow(inner.value, 1, data, codec, depth - 1);
      hide ApplyFrom;
      assert Unwrapped(size, payload, data, codec, depth) == Apply(inner.value, data, codec, depth - 1);
    }
  }

  lemma InnerStreamShort(test: PageTest, ch: Change, codec: Codec, depth: nat)
    requires Usable(ch)
    ensures |Apply(Stream(EncodeAll(DeltaActions(test, ch))), ch.oldData, codec, depth).data| < U32
  {
    hide RegionActions, Encode, Stream, DecodeAt, Effect;
    var first := TotalSize(|ch.newData| % U32);
    var rest := EncodeAll(RegionActions(test, ch));
    var commands := EncodeAll(DeltaActions(test, ch));
    assert DeltaActions(test, ch)[1..] == RegionActions(test, ch);
    var delta := Stream(commands);
    StreamOccurs(commands);
    OccursSplit(Encode(first), rest, delta, 1);
    DecodesAction(first, delta, 1);
    FirstEffect(first, ch.oldData);
    SizeStaysBelow(delta, 1 + |Encode(first)|, Effect(first, ch.oldData).data, codec, depth);
  }

  lemma FirstEffect(first: Action, data: seq<byte>)
    requires first.TotalSize? && first.size < U32
    ensures |Effect(first, data).data| < U32 && Effect(first, data).status == Done
  {
  }

  /** The round trip for data of any length: it also needs that length to be below 2^32. */
  lemma RoundTripExactly(ch: Change, codec: Codec, depth: nat)
    requires Usable(ch) && Faithful(codec) && 0 < depth
    requires Serialized(AsWritten, ch, codec).Some?
    requires |Stream(EncodeAll(DeltaActions(AsWritten, ch)))| < U64
    ensures Apply(Serialized(AsWritten, ch, codec).value, ch.oldData, codec, depth) == Outcome(ch.newData, Done)
       <==> |ch.newData| < U32
            && (ch.cfg.usePages ==> forall k: nat :: !WronglySkipped(AsWritten, ch, PageStart(ch, k)))
  {
    hide Stream, EncodeAll, DeltaActions, Apply, WronglySkipped;
    if |ch.newData| < U32 {
      RoundTrip(ch, codec, depth);
    } else {
      var inner := Stream(EncodeAll(DeltaActions(AsWritten, ch)));
      InnerStreamShort(AsWritten, ch, codec, depth);
      if ch.cfg.useZstd {
        EnvelopeTransparent(inner, ch.cfg.zstdLevel, ch.oldData, codec, depth - 1);
        InnerStreamShort(AsWritten, ch, codec, depth - 1);
      }
    }
  }

  /** One-byte pages; the second page takes the first page's old value. */
  const STALE: Change := Change(Settings(true, 1, false, false, 1), [1, 2], [1, 1], [])

  lemma StalePage()
    ensures WronglySkipped(AsWritten, STALE, PageStart(STALE, 1))
  {
    assert STALE.newData[1..2] == [1] == STALE.oldData[0..1];
    assert STALE.oldData[1..2] == [2];
  }

  /** The side condition can fail: that page is left out and keeps its old value. */
  lemma RoundTripCanFail(codec: Codec, depth: nat)
    requires Faithful(codec) && 0 < depth
    ensures Serialized(AsWritten, STALE, codec).Some?
    ensures Apply(Serialized(AsWritten, STALE, codec).value, STALE.oldData, codec, depth).data != STALE.newData
  {
    hide Apply, Stream, EncodeAll, DeltaActions, WronglySkipped;
    StalePage();
    RoundTrip(STALE, codec, depth);
  }
}
