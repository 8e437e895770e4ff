/** One host's copy of a state value, as a value: what each operation does to it. */
module StateReplica {
  import opened Bytes
  import opened HostPages
  import opened StateChunks

  /** `mem` is the reserved memory, a whole number of pages; the masks cover the value alone. */
  datatype Replica = Replica(
    master: bool, size: nat, mem: seq<byte>, pulled: seq<byte>, dirty: seq<byte>,
    writable: set<nat>, fullyAllocated: bool, fullyPulled: bool, isDirty: bool)

  predicate Shaped(r: Replica) {
    |r.mem| == ReservedBytes(r.size) && |r.pulled| == |r.dirty| == r.size <= |r.mem|
  }

  /** Whether the page of a byte has been made writable. */
  predicate CanTouch(writable: set<nat>, i: nat) {
    PageOf(i) in writable
  }

  /** The allocation invariant. */
  ghost predicate Consistent(r: Replica) {
    && Shaped(r)
    && (r.fullyPulled ==> r.fullyAllocated)
    && (r.fullyAllocated ==> forall i :: 0 <= i < |r.mem| ==> CanTouch(r.writable, i))
    && (forall i :: 0 <= i < r.size && r.pulled[i] != 0 ==> CanTouch(r.writable, i))
  }

  function Fresh(size: nat, master: bool): Replica {
    ReservedFits(size);
    var none := seq(size, _ => 0);
    Replica(master, size, seq(ReservedBytes(size), _ => 0), none, none, {}, false, false, false)
  }

  function Allocate(r: Replica, offset: nat, length: nat): Replica {
    if r.fullyAllocated then r
    else r.(writable := r.writable + PagesOf(offset, length),
            fullyAllocated := offset == 0 && length == |r.mem|)
  }

  /** A mask with the bytes of a chunk set. */
  function Marked(mask: seq<byte>, offset: nat, length: nat): (m: seq<byte>)
    ensures |m| == |mask|
    ensures forall i :: 0 <= i < |mask| ==> m[i] == if offset <= i < offset + length then 0xFF else mask[i]
  {
    seq(|mask|, i requires 0 <= i < |mask| => if offset <= i < offset + length then 0xFF else mask[i])
  }

  function Cleared(mask: seq<byte>): (m: seq<byte>)
    ensures |m| == |mask| && forall i :: 0 <= i < |m| ==> m[i] == 0
  {
    seq(|mask|, _ => 0)
  }

  function WithValue(r: Replica, value: seq<byte>): Replica {
    Allocate(r, 0, |r.mem|).(mem := Put(r.mem, 0, value), fullyPulled := true, isDirty := true)
  }

  function WithChunk(r: Replica, offset: nat, data: seq<byte>): Replica {
    Allocate(r, offset, |data|).(mem := Put(r.mem, offset, data),
                                 dirty := Marked(r.dirty, offset, |data|),
                                 isDirty := true)
  }

  /** What a full push leaves of a dirty copy. */
  function Cleaned(r: Replica): Replica {
    r.(dirty := Cleared(r.dirty), isDirty := false)
  }

  function WithDirtyFlag(r: Replica): Replica {
    r.(isDirty := true)
  }

  function WithDirtyChunk(r: Replica, offset: nat, length: nat): Replica {
    r.(isDirty := true, dirty := Marked(r.dirty, offset, length))
  }

  predicate ChunkPulled(r: Replica, c: Chunk)
    requires c.offset + c.length <= |r.pulled|
  {
    r.fullyPulled || forall i :: c.offset <= i < c.offset + c.length ==> r.pulled[i] != 0
  }

  /** A pull of one chunk from the master's bytes; the master has nowhere to pull from. */
  function PullChunk(r: Replica, source: seq<byte>, lazy: bool, c: Chunk): Replica
    requires c.offset + c.length <= |r.pulled|
  {
    if lazy && ChunkPulled(r, c) then r
    else Allocate(r, c.offset, c.length).(mem := if r.master then r.mem else Overlay(r.mem, source, c),
                                          pulled := Marked(r.pulled, c.offset, c.length))
  }

  function PullWhole(r: Replica, source: seq<byte>, lazy: bool): Replica {
    if lazy && r.fullyPulled then r
    else Allocate(r, 0, |r.mem|).(mem := if r.master then r.mem else CopyAll(r.mem, source, AllChunks(r.size)),
                                  fullyPulled := true)
  }

  /** What a master goes through to answer the requests for some chunks. */
  function ServeAll(m: Replica, chunks: seq<Chunk>): (s: Replica)
    requires Within(chunks, |m.pulled|)
    ensures s.mem == m.mem || !m.master
    ensures s.master == m.master && s.size == m.size && |s.pulled| == |m.pulled|
    ensures |s.mem| == |m.mem| && s.dirty == m.dirty
    decreases |chunks|
  {
    if chunks == [] then m else ServeAll(PullChunk(m, [], true, chunks[0]), chunks[1..])
  }

  /** What a master goes through when some chunks of another copy are pushed to it. */
  function PushAll(m: Replica, source: seq<byte>, chunks: seq<Chunk>): (p: Replica)
    requires Within(chunks, |source|)
    ensures |p.mem| == |m.mem| && p.master == m.master && p.size == m.size && p.pulled == m.pulled
    ensures |p.dirty| == |m.dirty|
    decreases |chunks|
  {
    if chunks == [] then m
    else PushAll(WithChunk(m, chunks[0].offset, source[chunks[0].offset..chunks[0].offset + chunks[0].length]),
                 source, chunks[1..])
  }

  lemma {:induction false} PushAllBytes(m: Replica, source: seq<byte>, chunks: seq<Chunk>)
    requires Within(chunks, |source|)
    ensures PushAll(m, source, chunks).mem == CopyAll(m.mem, source, chunks)
    decreases |chunks|
  {
    if chunks != [] {
      var c := chunks[0];
      PutIsOverlay(m.mem, source, c);
      PushAllBytes(WithChunk(m, c.offset, source[c.offset..c.offset + c.length]), source, chunks[1..]);
    }
  }

  lemma AllChunksWithin(size: nat)
    ensures Within(AllChunks(size), size)
  {
  }

  /** A pull that is not skipped brings the master's bytes as far as the streaming chunks reach, so all of a value up
      to 2^32; one by the master itself, or a lazy one of a copy that counts as pulled, changes no byte. Either way
      the copy counts as pulled. */
  predicate WholeBrought(r: Replica, source: seq<byte>, lazy: bool, p: Replica) {
    var end := StreamingEnd(r.size);
    && p.fullyPulled && end <= |r.mem| <= |source|
    && p.mem == if r.master || (lazy && r.fullyPulled) then r.mem else source[..end] + r.mem[end..]
  }

  lemma PullWholeBrings(r: Replica, source: seq<byte>, lazy: bool)
    requires Shaped(r) && |r.mem| <= |source|
    ensures WholeBrought(r, source, lazy, PullWhole(r, source, lazy))
  {
    hide CopyAll, AllChunks, StreamingEnd, PagesOf, ReservedBytes;
    WholePull(r.mem, source, r.size);
  }

  /** The same for one chunk; the bytes beside it stay, and count as pulled only if they did before. */
  predicate ChunkBrought(r: Replica, source: seq<byte>, lazy: bool, c: Chunk, p: Replica) {
    var end := c.offset + c.length;
    && end <= |r.pulled| == |p.pulled| && |r.pulled| <= |r.mem| <= |source|
    && ChunkPulled(p, c)
    && p.mem == (if r.master || (lazy && ChunkPulled(r, c)) then r.mem
                 else r.mem[..c.offset] + source[c.offset..end] + r.mem[end..])
    && forall i :: 0 <= i < |r.pulled| && !InChunk(i, c) ==> p.pulled[i] == r.pulled[i]
  }

  lemma PullChunkBrings(r: Replica, source: seq<byte>, lazy: bool, c: Chunk)
    requires Shaped(r) && c.offset + c.length <= r.size && |r.mem| <= |source|
    ensures ChunkBrought(r, source, lazy, c, PullChunk(r, source, lazy, c))
  {
    hide PagesOf, ReservedBytes;
    var end := c.offset + c.length;
    assert Overlay(r.mem, source, c) == r.mem[..c.offset] + source[c.offset..end] + r.mem[end..];
  }

  /** Allocating the reserved memory makes the copy fully allocated, and allocating anything makes exactly the pages
      that hold its bytes writable. */
  lemma AllocateExact(r: Replica, offset: nat, length: nat)
    requires length > 0
    ensures var a := Allocate(r, offset, length);
      && (a.fullyAllocated <==> r.fullyAllocated || (offset == 0 && length == |r.mem|))
      && (forall p :: p in a.writable <==>
            p in r.writable || (!r.fullyAllocated && PageOf(offset) <= p <= PageOf(offset + length - 1)))
  {
    hide PagesOf, PageOf;
    LastPage(offset + length);
  }

  /** A partial push of a copy: what it and its master are afterwards. */
  ghost predicate PushedPartial(r: Replica, m: Replica, r': Replica, m': Replica)
    requires Shaped(r) && Shaped(m) && m.size == r.size
  {
    if !r.isDirty then r' == r && m' == m
    else if r.master then r' == Cleaned(r) && m' == m
    else exists chunks ::
      && DirtyRuns(r.dirty, chunks)
      && var pushed := PushAll(m, r.mem, chunks);
         var clean := Cleaned(r);
         AllChunksWithin(r.size);
         if r.fullyAllocated then
           && r' == clean.(mem := CopyAll(r.mem, pushed.mem, AllChunks(r.size)))
           && m' == ServeAll(pushed, AllChunks(r.size))
         else r' == clean && m' == pushed
  }

  lemma PushedShaped(r: Replica, m: Replica, r': Replica, m': Replica)
    requires Shaped(r) && Shaped(m) && m.size == r.size && PushedPartial(r, m, r', m')
    ensures Shaped(r') && Shaped(m') && r'.size == m'.size == r.size && r'.master == r.master && m'.master == m.master
  {
    hide PushAll, ServeAll, CopyAll, AllChunks, ReservedBytes, DirtyRuns;
    AllChunksWithin(r.size);
  }

  // ----------------------------------------------------- allocation invariant

  lemma FreshConsistent(size: nat, master: bool)
    ensures Consistent(Fresh(size, master))
  {
    ReservedFits(size);
  }

  lemma AllocateConsistent(r: Replica, offset: nat, length: nat)
    requires Consistent(r)
    ensures Consistent(Allocate(r, offset, length))
    ensures forall i :: offset <= i < offset + length && i < |r.mem| ==>
      CanTouch(Allocate(r, offset, length).writable, i)
  {
    hide PagesOf, PageOf, ReservedBytes;
    forall i | offset <= i < offset + length ensures PageOf(i) in PagesOf(offset, length) {
      PagesOfRange(offset, length, i);
    }
  }

  lemma WithValueConsistent(r: Replica, value: seq<byte>)
    requires Consistent(r)
    ensures Consistent(WithValue(r, value))
  {
    hide PagesOf, PageOf, ReservedBytes, Put;
    AllocateConsistent(r, 0, |r.mem|);
  }

  lemma WithChunkConsistent(r: Replica, offset: nat, data: seq<byte>)
    requires Consistent(r)
    ensures Consistent(WithChunk(r, offset, data))
  {
    hide PagesOf, PageOf, ReservedBytes, Put, Marked, Allocate;
    AllocateConsistent(r, offset, |data|);
    AllocateFrame(r, offset, |data|);
  }

  lemma AllocateFrame(r: Replica, offset: nat, length: nat)
    ensures var a := Allocate(r, offset, length);
      a == r.(writable := a.writable, fullyAllocated := a.fullyAllocated)
  {
  }

  lemma PullChunkConsistent(r: Replica, source: seq<byte>, lazy: bool, c: Chunk)
    requires Consistent(r) && c.offset + c.length <= r.size
    ensures Consistent(PullChunk(r, source, lazy, c))
    ensures forall i :: c.offset <= i < c.offset + c.length ==> CanTouch(PullChunk(r, source, lazy, c).writable, i)
  {
    hide PagesOf, PageOf, ReservedBytes, Overlay, Marked, Allocate;
    AllocateConsistent(r, c.offset, c.length);
    AllocateFrame(r, c.offset, c.length);
  }

  lemma PullWholeConsistent(r: Replica, source: seq<byte>, lazy: bool)
    requires Consistent(r)
    ensures Consistent(PullWhole(r, source, lazy))
    ensures forall i :: 0 <= i < r.size ==> CanTouch(PullWhole(r, source, lazy).writable, i)
  {
    hide PagesOf, PageOf, ReservedBytes, CopyAll;
    AllocateConsistent(r, 0, |r.mem|);
  }

  lemma {:induction false} ServeAllConsistent(m: Replica, chunks: seq<Chunk>)
    requires Consistent(m) && Within(chunks, m.size)
    ensures Consistent(ServeAll(m, chunks))
    decreases |chunks|
  {
    hide PullChunk;
    if chunks != [] {
      PullChunkConsistent(m, [], true, chunks[0]);
      PullChunkFrame(m, chunks[0]);
      ServeAllConsistent(PullChunk(m, [], true, chunks[0]), chunks[1..]);
    }
  }

  lemma PullChunkFrame(m: Replica, c: Chunk)
    requires c.offset + c.length <= |m.pulled|
    ensures PullChunk(m, [], true, c).size == m.size
  {
  }

  lemma {:induction false} PushAllConsistent(m: Replica, source: seq<byte>, chunks: seq<Chunk>)
    requires Consistent(m) && Within(chunks, |source|)
    ensures Consistent(PushAll(m, source, chunks))
    decreases |chunks|
  {
    if chunks != [] {
      var data := source[chunks[0].offset..chunks[0].offset + chunks[0].length];
      WithChunkConsistent(m, chunks[0].offset, data);
      PushAllConsistent(WithChunk(m, chunks[0].offset, data), source, chunks[1..]);
    }
  }

  lemma PushedPartialConsistent(r: Replica, m: Replica, r': Replica, m': Replica)
    requires Consistent(r) && Consistent(m) && m.size == r.size && PushedPartial(r, m, r', m')
    ensures Consistent(r') && Consistent(m')
  {
    hide PagesOf, PageOf, ReservedBytes, CopyAll, PushAll, ServeAll, AllChunks;
    AllChunksWithin(r.size);
    if r.isDirty && !r.master {
      var chunks :| && DirtyRuns(r.dirty, chunks)
        && var pushed := PushAll(m, r.mem, chunks);
           var clean := r.(dirty := Cleared(r.dirty), isDirty := false);
           if r.fullyAllocated then
             && r' == clean.(mem := CopyAll(r.mem, pushed.mem, AllChunks(r.size)))
             && m' == ServeAll(pushed, AllChunks(r.size))
           else r' == clean && m' == pushed;
      PushAllConsistent(m, r.mem, chunks);
      ServeAllConsistent(PushAll(m, r.mem, chunks), AllChunks(r.size));
    }
  }

  /** The steps of a copy: an operation, with whatever bytes its master answers with or other copies push to it, the
      allocation for a mapping of its memory, or the end of a full push. */
  ghost predicate Stored(r: Replica, r': Replica) {
    || (exists value :: |value| == r.size && r' == WithValue(r, value))
    || (exists offset: nat, data :: offset + |data| <= r.size && r' == WithChunk(r, offset, data))
  }

  ghost predicate Pulled(r: Replica, r': Replica)
    requires Shaped(r)
  {
    || (exists source, lazy, c: Chunk :: c.offset + c.length <= r.size && r' == PullChunk(r, source, lazy, c))
    || (exists source, lazy :: r' == PullWhole(r, source, lazy))
  }

  ghost predicate Flagged(r: Replica, r': Replica) {
    || r' == WithDirtyFlag(r)
    || (exists offset: nat, length: nat :: offset + length <= r.size && r' == WithDirtyChunk(r, offset, length))
    || (exists offset, length :: r' == Allocate(r, offset, length))
    || r' == Cleaned(r)
  }

  ghost predicate Pushed(r: Replica, r': Replica)
    requires Shaped(r)
  {
    exists m, m' :: Consistent(m) && m.size == r.size && PushedPartial(r, m, r', m')
  }

  ghost predicate Next(r: Replica, r': Replica)
    requires Shaped(r)
  {
    Stored(r, r') || Pulled(r, r') || Flagged(r, r') || Pushed(r, r')
  }

  lemma StoredConsistent(r: Replica, r': Replica)
    requires Consistent(r) && Stored(r, r')
    ensures Consistent(r')
  {
    hide Consistent, WithValue, WithChunk;
    if value :| |value| == r.size && r' == WithValue(r, value) {
      WithValueConsistent(r, value);
    } else {
      var offset: nat, data :| offset + |data| <= r.size && r' == WithChunk(r, offset, data);
      WithChunkConsistent(r, offset, data);
    }
  }

  lemma PulledConsistent(r: Replica, r': Replica)
    requires Consistent(r) && Pulled(r, r')
    ensures Consistent(r')
  {
    hide PullChunk, PullWhole, CanTouch;
    if source, lazy, c: Chunk :| c.offset + c.length <= r.size && r' == PullChunk(r, source, lazy, c) {
      PullChunkConsistent(r, source, lazy, c);
    } else {
      var source, lazy :| r' == PullWhole(r, source, lazy);
      PullWholeConsistent(r, source, lazy);
    }
  }

  lemma FlaggedConsistent(r: Replica, r': Replica)
    requires Consistent(r) && Flagged(r, r')
    ensures Consistent(r')
  {
    hide Allocate, Marked, CanTouch, ReservedBytes;
    if offset, length :| r' == Allocate(r, offset, length) {
      AllocateConsistent(r, offset, length);
    }
  }

  lemma NextConsistent(r: Replica, r': Replica)
    requires Consistent(r) && Next(r, r')
    ensures Consistent(r')
  {
    hide Stored, Pulled, Flagged, PushedPartial, CanTouch, ReservedBytes;
    if Stored(r, r') {
      StoredConsistent(r, r');
    } else if Pulled(r, r') {
      PulledConsistent(r, r');
    } else if Flagged(r, r') {
      FlaggedConsistent(r, r');
    } else {
      var m, m' :| Consistent(m) && m.size == r.size && PushedPartial(r, m, r', m');
      PushedPartialConsistent(r, m, r', m');
    }
  }

  /** In every run from a fresh copy every state keeps the allocation invariant. */
  lemma {:induction false} EveryReachableConsistent(run: seq<Replica>, size: nat, master: bool)
    requires run != [] && run[0] == Fresh(size, master)
    requires forall k :: 0 <= k < |run| - 1 ==> Shaped(run[k]) && Next(run[k], run[k + 1])
    ensures forall k :: 0 <= k < |run| ==> Consistent(run[k])
  {
    FreshConsistent(size, master);
    var k := 0;
    while k < |run| - 1
      invariant 0 <= k < |run|
      invariant forall j :: 0 <= j <= k ==> Consistent(run[j])
    {
      hide Next, Consistent;
      NextConsistent(run[k], run[k + 1]);
      k := k + 1;
    }
  }
}
