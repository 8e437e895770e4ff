/** Chunks of a state value: dirty runs of a mask, the streaming partition, and what copying chunks does. */
module StateChunks {
  import opened Bytes

  datatype Chunk = Chunk(offset: nat, length: nat)

  const STREAMING_CHUNK_SIZE: nat := 0x1_0000

  predicate InChunk(i: int, c: Chunk) {
    c.offset <= i < c.offset + c.length
  }

  predicate InSome(i: int, chunks: seq<Chunk>) {
    exists k :: 0 <= k < |chunks| && InChunk(i, chunks[k])
  }

  predicate Within(chunks: seq<Chunk>, size: nat) {
    forall k :: 0 <= k < |chunks| ==> chunks[k].offset + chunks[k].length <= size
  }

  /** The data with one range taken from another buffer at the same place. */
  function Overlay(data: seq<byte>, source: seq<byte>, c: Chunk): (r: seq<byte>)
    ensures |r| == |data|
    ensures forall i :: 0 <= i < |data| ==> r[i] == if InChunk(i, c) && i < |source| then source[i] else data[i]
  {
    seq(|data|, i requires 0 <= i < |data| => if InChunk(i, c) && i < |source| then source[i] else data[i])
  }

  /** The data with a buffer stored at an offset. */
  function Put(data: seq<byte>, offset: nat, buffer: seq<byte>): (r: seq<byte>)
    ensures |r| == |data|
    ensures forall i :: 0 <= i < |data| ==>
      r[i] == if offset <= i < offset + |buffer| then buffer[i - offset] else data[i]
  {
    seq(|data|, i requires 0 <= i < |data| => if offset <= i < offset + |buffer| then buffer[i - offset] else data[i])
  }

  lemma PutIsOverlay(data: seq<byte>, source: seq<byte>, c: Chunk)
    requires c.offset + c.length <= |source|
    ensures Put(data, c.offset, source[c.offset..c.offset + c.length]) == Overlay(data, source, c)
  {
  }

  function CopyAll(data: seq<byte>, source: seq<byte>, chunks: seq<Chunk>): (r: seq<byte>)
    ensures |r| == |data|
    decreases |chunks|
  {
    if chunks == [] then data else CopyAll(Overlay(data, source, chunks[0]), source, chunks[1..])
  }

  lemma CopyOne(data: seq<byte>, source: seq<byte>, c: Chunk)
    ensures CopyAll(data, source, [c]) == Overlay(data, source, c)
  {
    assert CopyAll(data, source, [c]) == CopyAll(Overlay(data, source, c), source, []);
  }

  /** Copying chunks, in any order and however often, takes exactly the covered bytes from the source. */
  lemma {:induction false} CopyAllAt(data: seq<byte>, source: seq<byte>, chunks: seq<Chunk>, i: int)
    requires 0 <= i < |data| <= |source|
    ensures CopyAll(data, source, chunks)[i] == if InSome(i, chunks) then source[i] else data[i]
    decreases |chunks|
  {
    if chunks != [] {
      hide Overlay;
      CopyAllAt(Overlay(data, source, chunks[0]), source, chunks[1..], i);
      InSomeFirst(i, chunks);
    }
  }

  lemma InSomeFirst(i: int, chunks: seq<Chunk>)
    requires chunks != []
    ensures InSome(i, chunks) <==> InChunk(i, chunks[0]) || InSome(i, chunks[1..])
  {
    if InSome(i, chunks) && !InChunk(i, chunks[0]) {
      var k :| 0 <= k < |chunks| && InChunk(i, chunks[k]);
      assert InChunk(i, chunks[1..][k - 1]);
    }
    if InSome(i, chunks[1..]) {
      var k :| 0 <= k < |chunks[1..]| && InChunk(i, chunks[1..][k]);
      assert InChunk(i, chunks[k + 1]);
    }
  }

  // -------------------------------------------------------------- dirty runs

  predicate On(mask: seq<byte>, i: int)
    requires 0 <= i < |mask|
  {
    mask[i] != 0
  }

  predicate InOrder(chunks: seq<Chunk>) {
    forall j, k :: 0 <= j < k < |chunks| ==> chunks[j].offset + chunks[j].length < chunks[k].offset
  }

  /** The chunks are exactly the maximal runs of non-zero mask bytes below `upTo`, in order. */
  predicate RunsUpTo(mask: seq<byte>, chunks: seq<Chunk>, upTo: nat)
    requires upTo <= |mask|
  {
    && Within(chunks, upTo)
    && (forall k :: 0 <= k < |chunks| ==> chunks[k].length > 0)
    && InOrder(chunks)
    && (forall i :: 0 <= i < upTo ==> (On(mask, i) <==> InSome(i, chunks)))
  }

  predicate DirtyRuns(mask: seq<byte>, chunks: seq<Chunk>) {
    RunsUpTo(mask, chunks, |mask|)
  }

  lemma RunAppended(mask: seq<byte>, chunks: seq<Chunk>, start: nat, end: nat)
    requires start < end <= |mask|
    requires RunsUpTo(mask, chunks, start)
    requires forall k :: 0 <= k < |chunks| ==> chunks[k].offset + chunks[k].length < start
    requires forall i :: start <= i < end ==> On(mask, i)
    ensures RunsUpTo(mask, chunks + [Chunk(start, end - start)], end)
  {
    var longer := chunks + [Chunk(start, end - start)];
    forall i | 0 <= i < end ensures On(mask, i) <==> InSome(i, longer) {
      InSomeAppended(i, chunks, Chunk(start, end - start));
    }
  }

  lemma InSomeAppended(i: int, chunks: seq<Chunk>, c: Chunk)
    ensures InSome(i, chunks + [c]) <==> InSome(i, chunks) || InChunk(i, c)
  {
    var longer := chunks + [c];
    if InSome(i, chunks) {
      var k :| 0 <= k < |chunks| && InChunk(i, chunks[k]);
      assert InChunk(i, longer[k]);
    }
    if InChunk(i, c) {
      assert InChunk(i, longer[|chunks|]);
    }
  }

  lemma RunsExtendOff(mask: seq<byte>, chunks: seq<Chunk>, upTo: nat)
    requires upTo < |mask| && RunsUpTo(mask, chunks, upTo) && !On(mask, upTo)
    ensures RunsUpTo(mask, chunks, upTo + 1)
  {
    assert !InSome(upTo, chunks);
  }

  method GetDirtyChunks(dirtyMaskBytes: array<byte>, valueSize: nat) returns (chunks: seq<Chunk>)
    requires valueSize == dirtyMaskBytes.Length
    ensures DirtyRuns(dirtyMaskBytes[..], chunks)
  {
    ghost var mask := dirtyMaskBytes[..];
    chunks := [];
    var startIdx := 0;
    var isOn := false;
    var i := 0;
    while i < valueSize
      invariant 0 <= startIdx <= i <= valueSize
      invariant !isOn ==> RunsUpTo(mask, chunks, i)
      invariant isOn ==> startIdx < i && RunsUpTo(mask, chunks, startIdx)
      invariant isOn ==> forall j :: startIdx <= j < i ==> On(mask, j)
      invariant isOn ==> forall k :: 0 <= k < |chunks| ==> chunks[k].offset + chunks[k].length < startIdx
      invariant !isOn && 0 < i && On(mask, i - 1) ==> false
    {
      if dirtyMaskBytes[i] == 0 {
        if isOn {
          isOn := false;
          RunAppended(mask, chunks, startIdx, i);
          chunks := chunks + [Chunk(startIdx, i - startIdx)];
        }
        RunsExtendOff(mask, chunks, i);
      } else {
        if !isOn {
          RunsEndBefore(mask, chunks, i);
          isOn := true;
          startIdx := i;
        }
      }
      i := i + 1;
    }
    if isOn {
      RunAppended(mask, chunks, startIdx, valueSize);
      chunks := chunks + [Chunk(startIdx, valueSize - startIdx)];
    }
  }

  lemma RunsEndBefore(mask: seq<byte>, chunks: seq<Chunk>, upTo: nat)
    requires upTo <= |mask| && RunsUpTo(mask, chunks, upTo)
    requires 0 < upTo ==> !On(mask, upTo - 1)
    ensures forall k :: 0 <= k < |chunks| ==> chunks[k].offset + chunks[k].length < upTo
  {
    forall k | 0 <= k < |chunks| ensures chunks[k].offset + chunks[k].length < upTo {
      if chunks[k].offset + chunks[k].length == upTo {
        assert InChunk(upTo - 1, chunks[k]);
        assert InSome(upTo - 1, chunks);
      }
    }
  }

  /** There is only one list of dirty runs: both the coverage and the maximality are pinned down. */
  lemma DirtyRunsUnique(mask: seq<byte>, a: seq<Chunk>, b: seq<Chunk>)
    requires DirtyRuns(mask, a) && DirtyRuns(mask, b)
    ensures a == b
  {
    RunsPrefix(mask, a, b, |a|);
    RunsPrefix(mask, b, a, |b|);
    assert a[..|a|] == a && b[..|b|] == b;
  }

  lemma {:induction false} RunsPrefix(mask: seq<byte>, a: seq<Chunk>, b: seq<Chunk>, n: nat)
    requires DirtyRuns(mask, a) && DirtyRuns(mask, b) && n <= |a|
    ensures n <= |b| && a[..n] == b[..n]
    decreases n
  {
    if n > 0 {
      RunsPrefix(mask, a, b, n - 1);
      var k := n - 1;
      RunsAgree(mask, a, b, k);
      assert a[..n] == a[..k] + [a[k]];
      assert b[..n] == b[..k] + [b[k]];
    }
  }

  lemma RunsAgree(mask: seq<byte>, a: seq<Chunk>, b: seq<Chunk>, k: nat)
    requires DirtyRuns(mask, a) && DirtyRuns(mask, b) && k < |a|
    requires k <= |b| && a[..k] == b[..k]
    ensures k < |b| && a[k] == b[k]
  {
    var start := a[k].offset;
    assert InSome(start, a) by { assert InChunk(start, a[k]); }
    var j :| 0 <= j < |b| && InChunk(start, b[j]);
    assert forall m :: 0 <= m < k ==> a[m] == a[..k][m] == b[m];
    assert k <= j;
    LaterRunBegins(mask, b, a, k);
    LaterRunBegins(mask, a, b, k);
    assert a[k].offset == b[k].offset;
    RunEnds(mask, a, b, k);
    RunEnds(mask, b, a, k);
  }

  /** The k-th run of one list begins no later than the k-th of the other. */
  lemma LaterRunBegins(mask: seq<byte>, a: seq<Chunk>, b: seq<Chunk>, k: nat)
    requires DirtyRuns(mask, a) && DirtyRuns(mask, b) && k < |a|
    requires k < |b| && a[..k] == b[..k]
    ensures a[k].offset <= b[k].offset
  {
    var start := b[k].offset;
    assert forall m :: 0 <= m < k ==> a[m] == a[..k][m] == b[m];
    assert InSome(start, b) by { assert InChunk(start, b[k]); }
    var j :| 0 <= j < |a| && InChunk(start, a[j]);
    if j < k {
      assert false;
    }
  }

  lemma RunEnds(mask: seq<byte>, a: seq<Chunk>, b: seq<Chunk>, k: nat)
    requires DirtyRuns(mask, a) && DirtyRuns(mask, b) && k < |a| && k < |b|
    requires a[k].offset == b[k].offset
    ensures a[k].length <= b[k].length
  {
    if b[k].length < a[k].length {
      var end := b[k].offset + b[k].length;
      assert InChunk(end, a[k]);
      assert InSome(end, a);
      var j :| 0 <= j < |b| && InChunk(end, b[j]);
      if j != k {
        assert false;
      }
    }
  }

  /** Each byte from the local copy where the mask is set, and unchanged elsewhere. */
  function Merged(data: seq<byte>, local: seq<byte>, mask: seq<byte>): (r: seq<byte>)
    requires |mask| <= |data| && |mask| <= |local|
    ensures |r| == |data|
    ensures forall i :: 0 <= i < |data| ==> r[i] == if i < |mask| && On(mask, i) then local[i] else data[i]
  {
    seq(|data|, i requires 0 <= i < |data| => if i < |mask| && On(mask, i) then local[i] else data[i])
  }

  /** Pushing the dirty runs is a masked merge. */
  lemma PushIsMaskedMerge(data: seq<byte>, local: seq<byte>, mask: seq<byte>, chunks: seq<Chunk>)
    requires |mask| <= |data| <= |local|
    requires DirtyRuns(mask, chunks)
    ensures CopyAll(data, local, chunks) == Merged(data, local, mask)
  {
    hide CopyAll, Merged;
    forall i | 0 <= i < |data| ensures CopyAll(data, local, chunks)[i] == Merged(data, local, mask)[i] {
      CopyAllAt(data, local, chunks, i);
      if |mask| <= i {
        assert !InSome(i, chunks);
      }
    }
  }

  // ----------------------------------------------------- streaming partition

  /** The number of streaming chunks, kept in 32 bits. */
  function ChunkCount(valueSize: nat): nat {
    ((valueSize + STREAMING_CHUNK_SIZE - 1) / STREAMING_CHUNK_SIZE) % U32
  }

  /** The i-th chunk; its offset is computed in 32 bits. */
  function StreamingChunk(valueSize: nat, i: nat): Chunk
    requires i * STREAMING_CHUNK_SIZE < valueSize
  {
    var offset := (i * STREAMING_CHUNK_SIZE) % U32;
    Chunk(offset, if valueSize - offset < STREAMING_CHUNK_SIZE then valueSize - offset else STREAMING_CHUNK_SIZE)
  }

  lemma ChunkIndexInValue(valueSize: nat, i: nat)
    requires i < ChunkCount(valueSize)
    ensures i * STREAMING_CHUNK_SIZE < valueSize
  {
    var n := (valueSize + STREAMING_CHUNK_SIZE - 1) / STREAMING_CHUNK_SIZE;
    assert ChunkCount(valueSize) <= n;
  }

  predicate Partition(chunks: seq<Chunk>, size: nat) {
    && (size == 0 <==> chunks == [])
    && (chunks != [] ==> chunks[0].offset == 0 && chunks[|chunks| - 1].offset + chunks[|chunks| - 1].length == size)
    && (forall k :: 0 <= k < |chunks| ==> 0 < chunks[k].length <= STREAMING_CHUNK_SIZE)
    && (forall k :: 0 < k < |chunks| ==> chunks[k].offset == chunks[k - 1].offset + chunks[k - 1].length)
  }

  predicate StreamingChunks(chunks: seq<Chunk>, valueSize: nat) {
    && |chunks| == ChunkCount(valueSize)
    && forall i :: 0 <= i < |chunks| ==>
         i * STREAMING_CHUNK_SIZE < valueSize && chunks[i] == StreamingChunk(valueSize, i)
  }

  function AllChunks(valueSize: nat): (chunks: seq<Chunk>)
    ensures StreamingChunks(chunks, valueSize)
  {
    seq(ChunkCount(valueSize), i requires 0 <= i < ChunkCount(valueSize) =>
      ChunkIndexInValue(valueSize, i); StreamingChunk(valueSize, i))
  }

  method GetAllChunks(valueSize: nat) returns (chunks: seq<Chunk>)
    ensures chunks == AllChunks(valueSize)
  {
    var nChunks := ((valueSize + STREAMING_CHUNK_SIZE - 1) / STREAMING_CHUNK_SIZE) % U32;
    chunks := [];
    var i := 0;
    while i < nChunks
      invariant |chunks| == i <= nChunks
      invariant forall k :: 0 <= k < i ==>
        k * STREAMING_CHUNK_SIZE < valueSize && chunks[k] == StreamingChunk(valueSize, k)
    {
      ChunkIndexInValue(valueSize, i);
      var previousChunkEnd := (i * STREAMING_CHUNK_SIZE) % U32;
      var chunkSize := if STREAMING_CHUNK_SIZE < valueSize - previousChunkEnd then STREAMING_CHUNK_SIZE
                       else valueSize - previousChunkEnd;
      chunks := chunks + [Chunk(previousChunkEnd, chunkSize)];
      i := i + 1;
    }
  }

  /** The streaming chunks split the value into contiguous pieces exactly when it is no larger than 2^32. */
  lemma StreamingPartition(chunks: seq<Chunk>, valueSize: nat)
    requires StreamingChunks(chunks, valueSize)
    ensures Partition(chunks, valueSize) <==> valueSize <= U32
  {
    if valueSize <= U32 {
      SmallPartition(chunks, valueSize);
    } else {
      LargeNoPartition(chunks, valueSize);
    }
  }

  lemma SmallPartition(chunks: seq<Chunk>, valueSize: nat)
    requires StreamingChunks(chunks, valueSize) && valueSize <= U32
    ensures Partition(chunks, valueSize)
  {
    forall i: nat | i < |chunks| ensures SmallChunk(chunks[i], valueSize, i) {
      SmallOffset(valueSize, i);
    }
    SmallEnd(valueSize);
    assert |chunks| == ChunkCount(valueSize);
    hide StreamingChunk, ChunkCount, StreamingChunks;
  }

  /** Where a chunk lies as long as its offset does not wrap. */
  predicate SmallChunk(c: Chunk, valueSize: nat, i: nat) {
    && c.offset == i * STREAMING_CHUNK_SIZE < valueSize
    && c.length == if valueSize - c.offset < STREAMING_CHUNK_SIZE then valueSize - c.offset else STREAMING_CHUNK_SIZE
  }

  lemma SmallOffset(valueSize: nat, i: nat)
    requires i * STREAMING_CHUNK_SIZE < valueSize <= U32
    ensures SmallChunk(StreamingChunk(valueSize, i), valueSize, i)
  {
  }

  /** There is a chunk for each piece and no more. */
  lemma SmallEnd(valueSize: nat)
    requires valueSize <= U32
    ensures var n := ChunkCount(valueSize);
      && (n == 0 <==> valueSize == 0)
      && (n > 0 ==> (n - 1) * STREAMING_CHUNK_SIZE < valueSize <= n * STREAMING_CHUNK_SIZE)
  {
    var n := (valueSize + STREAMING_CHUNK_SIZE - 1) / STREAMING_CHUNK_SIZE;
    assert n <= 65536;
  }

  lemma LargeNoPartition(chunks: seq<Chunk>, valueSize: nat)
    requires StreamingChunks(chunks, valueSize) && valueSize > U32
    ensures !Partition(chunks, valueSize)
  {
    if |chunks| > STREAMING_CHUNK_SIZE {
      assert chunks[STREAMING_CHUNK_SIZE].offset == 0;
      assert chunks[STREAMING_CHUNK_SIZE - 1].length > 0 || !Partition(chunks, valueSize);
    } else if |chunks| > 0 {
      var last := |chunks| - 1;
      assert chunks[last].offset <= last * STREAMING_CHUNK_SIZE;
    }
  }

  /** How far the streaming chunks reach: to the end of the value exactly if it is no larger than 2^32. */
  function StreamingEnd(valueSize: nat): (end: nat)
    ensures end <= valueSize && (end == valueSize <==> valueSize <= U32)
  {
    var pieces := STREAMING_CHUNK_SIZE * ChunkCount(valueSize);
    var end := if pieces < U32 then pieces else U32;
    if end < valueSize then end else valueSize
  }

  lemma StreamingCovers(chunks: seq<Chunk>, valueSize: nat, i: int)
    requires StreamingChunks(chunks, valueSize)
    ensures InSome(i, chunks) <==> 0 <= i < StreamingEnd(valueSize)
  {
    if 0 <= i < StreamingEnd(valueSize) {
      ChunkOf(valueSize, i);
      assert InChunk(i, chunks[i / STREAMING_CHUNK_SIZE]);
    }
    if InSome(i, chunks) {
      var k :| 0 <= k < |chunks| && InChunk(i, chunks[k]);
      ChunkReach(valueSize, k);
    }
  }

  lemma ChunkOf(valueSize: nat, i: nat)
    requires i < StreamingEnd(valueSize)
    ensures var k := i / STREAMING_CHUNK_SIZE;
      && k < ChunkCount(valueSize) && k * STREAMING_CHUNK_SIZE < valueSize
      && InChunk(i, StreamingChunk(valueSize, k))
  {
  }

  /** Offsets wrap to the start of an earlier chunk, never into the middle of one. */
  lemma WrappedOffset(k: nat)
    ensures (k * STREAMING_CHUNK_SIZE) % U32 == (k % 0x1_0000) * STREAMING_CHUNK_SIZE
  {
    var q, r := k / 0x1_0000, k % 0x1_0000;
    assert k * STREAMING_CHUNK_SIZE == U32 * q + r * STREAMING_CHUNK_SIZE;
    assert 0 <= r * STREAMING_CHUNK_SIZE < U32;
  }

  lemma ChunkReach(valueSize: nat, k: nat)
    requires k < ChunkCount(valueSize) && k * STREAMING_CHUNK_SIZE < valueSize
    ensures var c := StreamingChunk(valueSize, k);
      c.offset + c.length <= StreamingEnd(valueSize)
  {
    WrappedOffset(k);
    var offset := (k * STREAMING_CHUNK_SIZE) % U32;
    assert offset + STREAMING_CHUNK_SIZE <= U32;
    assert offset + STREAMING_CHUNK_SIZE <= STREAMING_CHUNK_SIZE * ChunkCount(valueSize) by {
      hide ChunkCount;
      assert k % 0x1_0000 <= k;
    }
    hide ChunkCount;
  }

  /** The chunks of a list taken in the order in which their responses arrive. */
  function Arriving(chunks: seq<Chunk>, order: seq<nat>): (r: seq<Chunk>)
    requires forall k :: 0 <= k < |order| ==> order[k] < |chunks|
    ensures |r| == |order|
    ensures forall k :: 0 <= k < |order| ==> r[k] == chunks[order[k]]
  {
    seq(|order|, k requires 0 <= k < |order| => chunks[order[k]])
  }

  /** A full pull is one copy of the master as far as the chunks reach, whatever order the responses arrive in. */
  lemma FullPullAnyOrder(local: seq<byte>, master: seq<byte>, chunks: seq<Chunk>, order: seq<nat>, size: nat)
    requires StreamingChunks(chunks, size) && size <= |local| <= |master|
    requires forall k :: 0 <= k < |order| ==> order[k] < |chunks|
    requires forall c :: 0 <= c < |chunks| ==> c in order
    ensures CopyAll(local, master, Arriving(chunks, order))
         == master[..StreamingEnd(size)] + local[StreamingEnd(size)..]
  {
    hide CopyAll, StreamingEnd;
    var arrived := Arriving(chunks, order);
    forall i | 0 <= i < |local|
      ensures CopyAll(local, master, arrived)[i] == if i < StreamingEnd(size) then master[i] else local[i]
    {
      CopyAllAt(local, master, arrived, i);
      ArrivingCovers(chunks, order, i);
      StreamingCovers(chunks, size, i);
    }
  }

  lemma ArrivesSomewhere(chunks: seq<Chunk>, order: seq<nat>, k: nat, i: nat)
    requires forall k :: 0 <= k < |order| ==> order[k] < |chunks|
    requires k < |chunks| && k in order && InChunk(i, chunks[k])
    ensures InSome(i, Arriving(chunks, order))
  {
    var at :| 0 <= at < |order| && order[at] == k;
    assert InChunk(i, Arriving(chunks, order)[at]);
  }

  lemma ArrivingCovers(chunks: seq<Chunk>, order: seq<nat>, i: nat)
    requires forall k :: 0 <= k < |order| ==> order[k] < |chunks|
    requires forall c :: 0 <= c < |chunks| ==> c in order
    ensures InSome(i, Arriving(chunks, order)) <==> InSome(i, chunks)
  {
    var arrived := Arriving(chunks, order);
    if InSome(i, chunks) {
      var k :| 0 <= k < |chunks| && InChunk(i, chunks[k]);
      ArrivesSomewhere(chunks, order, k, i);
    }
    if InSome(i, arrived) {
      var at :| 0 <= at < |arrived| && InChunk(i, arrived[at]);
      assert InChunk(i, chunks[order[at]]);
    }
  }

  lemma WholePullAt(local: seq<byte>, source: seq<byte>, size: nat, i: nat)
    requires i < |local| <= |source|
    ensures CopyAll(local, source, AllChunks(size))[i] == if i < StreamingEnd(size) then source[i] else local[i]
  {
    hide CopyAll, AllChunks, StreamingEnd;
    CopyAllAt(local, source, AllChunks(size), i);
    StreamingCovers(AllChunks(size), size, i);
  }

  /** Copying all streaming chunks brings the source's value as far as the chunks reach. */
  lemma WholePull(local: seq<byte>, source: seq<byte>, size: nat)
    requires size <= |local| <= |source|
    ensures CopyAll(local, source, AllChunks(size))
         == source[..StreamingEnd(size)] + local[StreamingEnd(size)..]
  {
    hide CopyAll, AllChunks, StreamingEnd;
    forall i | 0 <= i < |local|
      ensures CopyAll(local, source, AllChunks(size))[i] == if i < StreamingEnd(size) then source[i] else local[i]
    {
      WholePullAt(local, source, size, i);
    }
  }
}
