/** The key-value class: a copy of a value in place, with its master reached through it. */
module StateKeyValueClass {
  import opened Bytes
  import opened HostPages
  import opened StateChunks
  import opened StateReplica

  datatype Status = Success | NoSize | OutOfBounds

  class StateKeyValue {
    const valueSize: nat
    const sharedMemSize: nat
    /** The master's copy; null on the master itself. */
    const remote: StateKeyValue?
    const sharedMemory: array<byte>
    const pulledMask: array<byte>
    const dirtyMask: array<byte>
    var writable: set<nat>
    var fullyAllocated: bool
    var fullyPulled: bool
    var isDirty: bool

    ghost function Own(): set<object> {
      {this, sharedMemory, pulledMask, dirtyMask}
    }

    ghost function Footprint(): set<object> {
      Own() + if remote == null then {} else remote.Own()
    }

    ghost function View(): (r: Replica)
      reads Own()
    {
      Replica(remote == null, valueSize, sharedMemory[..], pulledMask[..], dirtyMask[..],
              writable, fullyAllocated, fullyPulled, isDirty)
    }

    ghost predicate Sound()
      reads Own()
    {
      && pulledMask != dirtyMask && pulledMask != sharedMemory && dirtyMask != sharedMemory
      && sharedMemSize == sharedMemory.Length
      && Consistent(View())
    }

    ghost predicate Valid()
      reads Footprint()
    {
      && Sound()
      && (remote != null ==>
            && remote.remote == null && remote.Sound()
            && remote.valueSize == valueSize
            && Own() !! remote.Own())
    }

    function Rank(): nat {
      if remote == null then 0 else 1
    }

    /** What the master looks like; on the master itself there is nothing to look at. */
    ghost function Remote(): (r: Replica)
      reads Footprint()
    {
      if remote == null then View() else remote.View()
    }

    /** Nothing but this copy's own state changed. */
    twostate predicate RemoteUntouched()
      reads Footprint()
    {
      remote != null ==> remote.View() == old(remote.View())
    }

    constructor (size: nat, master: StateKeyValue?)
      requires master != null ==> master.remote == null && master.Sound() && master.valueSize == size
      ensures Valid() && fresh(Own())
      ensures remote == master && valueSize == size
      ensures View() == Fresh(size, master == null)
      ensures writable == {} && !fullyAllocated && !fullyPulled && !isDirty
    {
      valueSize := size;
      sharedMemSize := ReservedBytes(size);
      remote := master;
      sharedMemory := new byte[ReservedBytes(size)](_ => 0);
      pulledMask := new byte[size](_ => 0);
      dirtyMask := new byte[size](_ => 0);
      writable, fullyAllocated, fullyPulled, isDirty := {}, false, false, false;
      new;
      FreshConsistent(size, master == null);
      assert View() == Fresh(size, master == null);
    }

    method AllocateChunk(offset: nat, length: nat)
      requires Sound()
      modifies this`writable, this`fullyAllocated
      ensures Sound() && View() == Allocate(old(View()), offset, length)
    {
      AllocateConsistent(View(), offset, length);
      if fullyAllocated {
        return;
      }
      writable := writable + PagesOf(offset, length);
      if offset == 0 && length == sharedMemSize {
        fullyAllocated := true;
      }
    }

    method MarkDirtyChunk(offset: nat, length: nat)
      requires offset + length <= dirtyMask.Length
      requires pulledMask != dirtyMask && dirtyMask != sharedMemory
      modifies this`isDirty, dirtyMask
      ensures View() == WithDirtyChunk(old(View()), offset, length)
    {
      isDirty := true;
      forall i | offset <= i < offset + length {
        dirtyMask[i] := 0xFF;
      }
      assert dirtyMask[..] == Marked(old(dirtyMask[..]), offset, length);
    }

    method MarkPulledChunk(offset: nat, length: nat)
      requires offset + length <= pulledMask.Length
      requires pulledMask != dirtyMask && pulledMask != sharedMemory
      modifies pulledMask
      ensures View() == old(View()).(pulled := Marked(old(View()).pulled, offset, length))
    {
      forall i | offset <= i < offset + length {
        pulledMask[i] := 0xFF;
      }
      assert pulledMask[..] == Marked(old(pulledMask[..]), offset, length);
    }

    method FlagDirty()
      requires Sound()
      modifies this`isDirty
      ensures Sound() && View() == WithDirtyFlag(old(View()))
    {
      isDirty := true;
    }

    method FlagChunkDirty(offset: nat, length: nat) returns (status: Status)
      requires Sound()
      requires offset + length <= valueSize
      modifies this`isDirty, dirtyMask
      ensures Sound()
      ensures status == if valueSize == 0 then NoSize else Success
      ensures View() == if status == Success then WithDirtyChunk(old(View()), offset, length)
                        else old(View())
    {
      if valueSize == 0 {
        return NoSize;
      }
      MarkDirtyChunk(offset, length);
      status := Success;
    }

    method Store(offset: nat, buffer: seq<byte>)
      requires offset + |buffer| <= sharedMemory.Length
      requires sharedMemory != pulledMask && sharedMemory != dirtyMask
      modifies sharedMemory
      ensures View() == old(View()).(mem := Put(old(View()).mem, offset, buffer))
    {
      forall i | offset <= i < offset + |buffer| {
        sharedMemory[i] := buffer[i - offset];
      }
      assert sharedMemory[..] == Put(old(sharedMemory[..]), offset, buffer);
    }

    method Set(buffer: seq<byte>) returns (status: Status)
      requires Valid() && |buffer| == valueSize
      modifies Own()
      ensures Valid() && RemoteUntouched()
      ensures status == if valueSize == 0 then NoSize else Success
      ensures View() == if status == Success then WithValue(old(View()), buffer) else old(View())
    {
      if valueSize == 0 {
        return NoSize;
      }
      WithValueConsistent(View(), buffer);
      AllocateChunk(0, sharedMemSize);
      Store(0, buffer);
      fullyPulled := true;
      isDirty := true;
      assert View() == WithValue(old(View()), buffer);
      status := Success;
    }

    method SetChunk(offset: nat, buffer: seq<byte>) returns (status: Status)
      requires Sound()
      requires offset + |buffer| <= valueSize || offset + |buffer| > sharedMemSize
      modifies Own()
      ensures Sound()
      ensures status == if valueSize == 0 then NoSize
                        else if offset + |buffer| > sharedMemSize then OutOfBounds else Success
      ensures View() == if status == Success then WithChunk(old(View()), offset, buffer) else old(View())
    {
      if valueSize == 0 {
        return NoSize;
      }
      if offset + |buffer| > sharedMemSize {
        return OutOfBounds;
      }
      WithChunkConsistent(View(), offset, buffer);
      AllocateChunk(offset, |buffer|);
      Store(offset, buffer);
      MarkDirtyChunk(offset, |buffer|);
      assert View() == WithChunk(old(View()), offset, buffer);
      status := Success;
    }

    method IsChunkPulled(offset: nat, length: nat) returns (pulled: bool)
      requires Sound() && offset + length <= valueSize
      ensures pulled <==> ChunkPulled(View(), Chunk(offset, length))
    {
      if fullyPulled {
        return true;
      }
      var i := 0;
      while i < length
        invariant 0 <= i <= length
        invariant forall k :: offset <= k < offset + i ==> pulledMask[k] != 0
      {
        if pulledMask[offset + i] == 0 {
          return false;
        }
        i := i + 1;
      }
      return true;
    }

    /** The requests for some chunks and the copying of the responses as they come back. */
    method PullChunks(chunks: seq<Chunk>)
      requires Valid() && remote != null && Within(chunks, valueSize) && valueSize > 0
      modifies sharedMemory, remote.Own()
      ensures Valid()
      ensures remote.View() == ServeAll(old(remote.View()), chunks)
      ensures View() == old(View()).(mem := CopyAll(old(View()).mem, old(remote.View()).mem, chunks))
      decreases Rank(), 1
    {
      ghost var source := remote.View().mem;
      var k := 0;
      while k < |chunks|
        invariant 0 <= k <= |chunks|
        invariant Valid() && remote.View().mem == source
        invariant ServeAll(remote.View(), chunks[k..]) == ServeAll(old(remote.View()), chunks)
        invariant View() == old(View()).(mem := View().mem)
        invariant CopyAll(View().mem, source, chunks[k..]) == CopyAll(old(View()).mem, source, chunks)
      {
        var c := chunks[k];
        PullChunksStep(c);
        assert chunks[k..][1..] == chunks[k + 1..];
        k := k + 1;
      }
    }

    method PullChunksStep(c: Chunk)
      requires Valid() && remote != null && c.offset + c.length <= valueSize && valueSize > 0
      modifies sharedMemory, remote.Own()
      ensures Valid()
      ensures remote.View() == PullChunk(old(remote.View()), [], true, c)
      ensures remote.View().mem == old(remote.View()).mem
      ensures View() == old(View()).(mem := Overlay(old(View()).mem, old(remote.View()).mem, c))
      decreases Rank(), 0
    {
      var status, data := remote.GetChunk(c.offset, c.length);
      PutIsOverlay(sharedMemory[..], old(remote.View()).mem, c);
      Store(c.offset, data);
    }

    method PullFromRemote()
      requires Valid() && valueSize > 0
      modifies Footprint()
      ensures Valid()
      ensures View() == old(View()).(mem := if remote == null then old(View()).mem
                                            else CopyAll(old(View()).mem, old(Remote()).mem, AllChunks(valueSize)))
      ensures remote != null ==>
        Within(AllChunks(valueSize), valueSize) && remote.View() == ServeAll(old(remote.View()), AllChunks(valueSize))
      decreases Rank(), 2
    {
      if remote == null {
        return;
      }
      var chunks := GetAllChunks(valueSize);
      AllChunksWithin(valueSize);
      PullChunks(chunks);
    }

    method PullChunkFromRemote(c: Chunk)
      requires Valid() && valueSize > 0 && c.offset + c.length <= valueSize
      modifies Footprint()
      ensures Valid()
      ensures View() == old(View()).(mem := if remote == null then old(View()).mem
                                            else Overlay(old(View()).mem, old(Remote()).mem, c))
      ensures remote != null ==> remote.View().mem == old(remote.View()).mem
      decreases Rank(), 2
    {
      if remote == null {
        return;
      }
      CopyOne(sharedMemory[..], remote.sharedMemory[..], c);
      PullChunks([c]);
    }

    method DoPull(lazy: bool) returns (status: Status)
      requires Valid()
      modifies Footprint()
      ensures Valid()
      ensures status == if valueSize == 0 then NoSize else Success
      ensures View() == if status == Success then PullWhole(old(View()), old(Remote()).mem, lazy) else old(View())
      ensures status == Success ==> WholeBrought(old(View()), old(Remote()).mem, lazy, View())
      ensures remote != null && (valueSize == 0 || (lazy && old(fullyPulled))) ==> RemoteUntouched()
      ensures remote != null ==> remote.View().mem == old(remote.View()).mem
      ensures forall i :: 0 <= i < valueSize ==> CanTouch(writable, i)
      decreases Rank(), 3
    {
      if valueSize == 0 {
        return NoSize;
      }
      PullWholeConsistent(View(), Remote().mem, lazy);
      PullWholeBrings(View(), Remote().mem, lazy);
      if lazy && fullyPulled {
        return Success;
      }
      AllocateChunk(0, sharedMemSize);
      PullFromRemote();
      fullyPulled := true;
      assert View() == PullWhole(old(View()), old(Remote()).mem, lazy);
      status := Success;
    }

    method DoPullChunk(lazy: bool, offset: nat, length: nat) returns (status: Status)
      requires Valid()
      modifies Footprint()
      ensures Valid()
      ensures status == if valueSize == 0 then NoSize
                        else if offset + length > valueSize then OutOfBounds else Success
      ensures View() == if status == Success
                        then PullChunk(old(View()), old(Remote()).mem, lazy, Chunk(offset, length)) else old(View())
      ensures remote != null ==> remote.View().mem == old(remote.View()).mem
      ensures status == Success ==> forall i :: offset <= i < offset + length ==> CanTouch(writable, i)
      decreases Rank(), 3
    {
      if valueSize == 0 {
        return NoSize;
      }
      if offset + length > valueSize {
        return OutOfBounds;
      }
      hide Overlay, Marked, PagesOf, ReservedBytes, CanTouch;
      var c := Chunk(offset, length);
      PullChunkConsistent(View(), Remote().mem, lazy, c);
      var pulled := IsChunkPulled(offset, length);
      if lazy && pulled {
        return Success;
      }
      AllocateChunk(offset, length);
      PullChunkFromRemote(c);
      MarkPulledChunk(offset, length);
      assert View() == PullChunk(old(View()), old(Remote()).mem, lazy, c);
      status := Success;
    }

    method Get() returns (status: Status, value: seq<byte>)
      requires Valid()
      modifies Footprint()
      ensures Valid()
      ensures status == if valueSize == 0 then NoSize else Success
      ensures View() == if status == Success then PullWhole(old(View()), old(Remote()).mem, true) else old(View())
      ensures status == Success ==> WholeBrought(old(View()), old(Remote()).mem, true, View())
      ensures remote != null ==> remote.View().mem == old(remote.View()).mem
      ensures status == Success ==> value == View().mem[..valueSize]
      ensures status == Success && valueSize <= U32 ==>
        value == if remote == null || old(fullyPulled) then old(View()).mem[..valueSize]
                 else old(Remote()).mem[..valueSize]
      ensures forall i :: 0 <= i < valueSize ==> CanTouch(writable, i)
      decreases Rank(), 4
    {
      status := DoPull(true);
      value := sharedMemory[..valueSize];
    }

    method GetChunk(offset: nat, length: nat) returns (status: Status, value: seq<byte>)
      requires Valid()
      modifies Footprint()
      ensures Valid()
      ensures status == if valueSize == 0 then NoSize
                        else if offset + length > valueSize then OutOfBounds else Success
      ensures View() == if status == Success
                        then PullChunk(old(View()), old(Remote()).mem, true, Chunk(offset, length)) else old(View())
      ensures status == Success ==>
        ChunkBrought(old(View()), old(Remote()).mem, true, Chunk(offset, length), View())
      ensures remote != null ==> remote.View().mem == old(remote.View()).mem
      ensures status == Success ==> value == View().mem[offset..offset + length]
      ensures status == Success ==>
        value == if remote == null || ChunkPulled(old(View()), Chunk(offset, length))
                 then old(View()).mem[offset..offset + length] else old(Remote()).mem[offset..offset + length]
      ensures status == Success ==> forall i :: offset <= i < offset + length ==> CanTouch(writable, i)
      decreases Rank(), 4
    {
      hide Overlay, PullChunk, ReservedBytes, CanTouch;
      if valueSize > 0 && offset + length <= valueSize {
        PullChunkBrings(View(), Remote().mem, true, Chunk(offset, length));
      }
      status := DoPullChunk(true, offset, length);
      value := if status == Success then sharedMemory[offset..offset + length] else [];
    }

    method Pull() returns (status: Status)
      requires Valid()
      modifies Footprint()
      ensures Valid()
      ensures status == if valueSize == 0 then NoSize else Success
      ensures View() == if status == Success then PullWhole(old(View()), old(Remote()).mem, false) else old(View())
      ensures status == Success ==> WholeBrought(old(View()), old(Remote()).mem, false, View())
      ensures remote != null ==> remote.View().mem == old(remote.View()).mem
    {
      status := DoPull(false);
    }

    /** The stream of pushed chunks, each stored by the master as it arrives. */
    method PushChunks(chunks: seq<Chunk>)
      requires Valid() && remote != null && Within(chunks, valueSize) && valueSize > 0
      modifies remote.Own()
      ensures Valid() && View() == old(View())
      ensures remote.View() == PushAll(old(remote.View()), View().mem, chunks)
    {
      hide WithChunk;
      var k := 0;
      while k < |chunks|
        invariant 0 <= k <= |chunks|
        invariant Valid() && View() == old(View())
        invariant PushAll(remote.View(), View().mem, chunks[k..]) == PushAll(old(remote.View()), View().mem, chunks)
      {
        PushChunksStep(chunks[k]);
        assert chunks[k..][1..] == chunks[k + 1..];
        k := k + 1;
      }
    }

    method PushChunksStep(c: Chunk)
      requires Valid() && remote != null && c.offset + c.length <= valueSize && valueSize > 0
      modifies remote.Own()
      ensures Valid() && View() == old(View())
      ensures remote.View() == WithChunk(old(remote.View()), c.offset, View().mem[c.offset..c.offset + c.length])
    {
      var data := sharedMemory[c.offset..c.offset + c.length];
      assert data == View().mem[c.offset..c.offset + c.length];
      var status := remote.SetChunk(c.offset, data);
    }

    method ClearDirty()
      requires pulledMask != dirtyMask && dirtyMask != sharedMemory
      modifies dirtyMask
      ensures View() == old(View()).(dirty := Cleared(old(View()).dirty))
    {
      forall i | 0 <= i < dirtyMask.Length {
        dirtyMask[i] := 0;
      }
      assert dirtyMask[..] == Cleared(old(dirtyMask[..]));
    }

    method PushPartial() returns (status: Status)
      requires Valid()
      modifies Footprint()
      ensures Valid()
      ensures status == if valueSize == 0 then NoSize else Success
      ensures status == NoSize ==> View() == old(View()) && RemoteUntouched()
      ensures status == Success ==>
        PushedPartial(old(View()), old(Remote()), View(), if remote == null then old(View()) else remote.View())
    {
      if valueSize == 0 {
        return NoSize;
      }
      if !isDirty {
        return Success;
      }
      var chunks := GetDirtyChunks(dirtyMask, valueSize);
      ClearDirty();
      if remote != null {
        PushChunks(chunks);
        if fullyAllocated {
          PullFromRemote();
        }
      }
      isDirty := false;
      status := Success;
    }
  }
}
