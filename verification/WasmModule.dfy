/** A module's memory as the object that keeps it, its thread stacks and its dynamic modules. */
module WasmModules {
  import opened Wrappers
  import opened Bytes
  import opened Numbers
  import opened LinearMemory
  import opened MemoryRegions

  const I32_SIGN: int := 0x8000_0000

  /** A number of 32 bits read as signed. */
  function ToI32(n: int): (r: int)
    ensures -I32_SIGN <= r < I32_SIGN && ToU32(r) == ToU32(n)
  {
    if ToU32(n) < I32_SIGN then ToU32(n) else ToU32(n) - U32
  }

  datatype LoadedDynamicModule = LoadedDynamicModule(
    memoryBottom: nat, memoryTop: nat, stackTop: nat, stackPointer: int, stackSize: nat, dataBottom: nat, dataTop: nat,
    heapBottom: nat, tableBottom: nat, tableTop: nat)

  /** The layout computed for a module whose memory begins at the given offset. */
  function LayOut(memStart: nat, dataSize: nat, tableBottom: nat, tableTop: nat): LoadedDynamicModule {
    var stackTop := ToU32(memStart + MODULE_STACK_SIZE);
    var dataTop := ToU32(stackTop + dataSize);
    LoadedDynamicModule(
      memStart, ToU32(memStart + MODULE_MEMORY_SIZE), stackTop, ToI32(stackTop - 1), MODULE_STACK_SIZE, stackTop,
      dataTop, dataTop, tableBottom, tableTop)
  }

  predicate Validate(d: LoadedDynamicModule, loaded: bool) {
    && d.memoryTop > d.memoryBottom
    && d.stackTop == ToU32(d.memoryBottom + d.stackSize)
    && d.dataTop == d.heapBottom
    && ToU32(d.stackTop + ToI32(d.dataTop - d.dataBottom)) == d.heapBottom
    && ToU32(d.stackPointer) == ToU32(d.stackTop - 1)
    && d.stackSize > 0
    && d.tableTop >= d.tableBottom
    && loaded
    && ToI32(d.memoryTop - d.memoryBottom) > ToI32(d.memoryTop - d.heapBottom)
  }

  /** Stack, data and heap one above the other within the module's memory. */
  predicate Nested(d: LoadedDynamicModule, dataSize: nat) {
    && d.memoryBottom < d.stackTop == d.dataBottom <= d.dataTop == d.heapBottom <= d.memoryTop
    && d.dataTop - d.dataBottom == dataSize && d.stackTop - d.memoryBottom == MODULE_STACK_SIZE
  }

  lemma WrappedDifference(a: int, b: int)
    ensures ToU32(ToU32(a) - b) == ToU32(a - b) && ToU32(b - ToU32(a)) == ToU32(b - a)
  {
    var q := a / U32;
    assert a == U32 * q + ToU32(a);
    assert a - b == U32 * q + (ToU32(a) - b);
    assert b - ToU32(a) == U32 * q + (b - a);
  }

  lemma SameI32(a: int, b: int)
    requires ToU32(a) == ToU32(b)
    ensures ToI32(a) == ToI32(b)
  {
  }

  lemma HeapSize(d: nat)
    requires d < U32
    ensures ToI32(34 * PAGE - d) ==
      if d <= 34 * PAGE + I32_SIGN then 34 * PAGE - d else 34 * PAGE - d + U32
  {
  }

  lemma LayoutFields(memStart: nat, dataSize: nat, tableBottom: nat, tableTop: nat)
    requires memStart + MODULE_MEMORY_SIZE < U32
    ensures var stackTop := memStart + MODULE_STACK_SIZE;
      var dataTop := ToU32(stackTop + dataSize);
      LayOut(memStart, dataSize, tableBottom, tableTop) == LoadedDynamicModule(
        memStart, stackTop + 34 * PAGE, stackTop, ToI32(stackTop - 1), MODULE_STACK_SIZE, stackTop, dataTop, dataTop,
        tableBottom, tableTop)
  {
  }

  lemma HeapFits(stackTop: nat, dataSize: nat)
    requires dataSize < U32
    ensures 66 * PAGE > ToI32(stackTop + 34 * PAGE - ToU32(stackTop + dataSize))
       <==> dataSize <= 34 * PAGE + I32_SIGN || dataSize > U32 - MODULE_STACK_SIZE
  {
    WrappedDifference(stackTop + dataSize, stackTop + 34 * PAGE);
    SameI32(stackTop + 34 * PAGE - ToU32(stackTop + dataSize), 34 * PAGE - dataSize);
    HeapSize(dataSize);
  }

  /** The layout passes validation exactly if its data is at most 34 pages and 2^31 bytes, or so large that it comes
      around to less than the stack's size below 2^32. */
  lemma LayoutValidates(memStart: nat, dataSize: nat, tableBottom: nat, tableTop: nat, loaded: bool)
    requires memStart + MODULE_MEMORY_SIZE < U32 && dataSize < U32
    ensures Validate(LayOut(memStart, dataSize, tableBottom, tableTop), loaded)
       <==> loaded && tableTop >= tableBottom
            && (dataSize <= 34 * PAGE + I32_SIGN || dataSize > U32 - MODULE_STACK_SIZE)
  {
    hide ToI32, ToU32, LayOut;
    var stackTop := memStart + MODULE_STACK_SIZE;
    LayoutFields(memStart, dataSize, tableBottom, tableTop);
    DataEnds(stackTop, dataSize);
    HeapFits(stackTop, dataSize);
    SmallNumbers(stackTop);
  }

  lemma SmallNumbers(n: nat)
    ensures n < U32 ==> ToU32(n) == n
    ensures ToI32(66 * PAGE) == 66 * PAGE
  {
  }

  /** Stack, data and heap are nested in the module's memory exactly if the data is at most 34 pages. */
  lemma LayoutNests(memStart: nat, dataSize: nat, tableBottom: nat, tableTop: nat)
    requires memStart + MODULE_MEMORY_SIZE < U32 && dataSize < U32
    ensures Nested(LayOut(memStart, dataSize, tableBottom, tableTop), dataSize) <==> dataSize <= 34 * PAGE
  {
    LayoutFields(memStart, dataSize, tableBottom, tableTop);
    hide LayOut;
  }

  /** With one byte more than fits the layout passes validation, and its heap begins above the module's memory. */
  lemma OverfullValidates()
    ensures var d := LayOut(GUARD, 34 * PAGE + 1, 0, 0);
      Validate(d, true) && !Nested(d, 34 * PAGE + 1) && d.heapBottom > d.memoryTop
  {
    LayoutValidates(GUARD, 34 * PAGE + 1, 0, 0, true);
    LayoutNests(GUARD, 34 * PAGE + 1, 0, 0);
    LayoutFields(GUARD, 34 * PAGE + 1, 0, 0);
  }

  /** The signed size of the data, added to where it begins, comes back to where it ends. */
  lemma DataEnds(bottom: nat, dataSize: nat)
    requires bottom < U32 && dataSize < U32
    ensures ToU32(bottom + ToI32(ToU32(bottom + dataSize) - bottom)) == ToU32(bottom + dataSize)
  {
    WrappedDifference(bottom + dataSize, bottom);
    SameI32(ToU32(bottom + dataSize) - bottom, dataSize);
    WrappedSum(bottom, dataSize);
    hide ToI32, ToU32;
  }

  lemma WrappedSum(a: nat, b: nat)
    requires b < U32
    ensures ToU32(a + ToI32(b)) == ToU32(a + b)
  {
    var n := a + b - U32;
    assert ToI32(b) == b || a + ToI32(b) == n;
    WrapAround(n);
  }

  lemma WrapAround(n: int)
    ensures ToU32(n + U32) == ToU32(n)
  {
  }

  // ------------------------------------------------------------------ the module

  function StackTop(r: Region): nat {
    ToU32(r.base + GUARD + THREAD_STACK_SIZE - 1)
  }

  class WasmModule {
    var currentBrk: nat
    var numPages: nat
    const maxPages: nat
    var threadStacks: seq<nat>
    var guards: seq<Range>
    var dynamicModules: seq<LoadedDynamicModule>
    ghost var live: seq<Region>

    function AsMemory(): Memory
      reads this`currentBrk, this`numPages
    {
      Memory(currentBrk, numPages, maxPages)
    }

    ghost function AsWorld(): World
      reads this`currentBrk, this`numPages, this`live, this`guards
    {
      World(AsMemory(), live, guards)
    }

    ghost predicate Whole()
      reads this`currentBrk, this`numPages
    {
      LinearMemory.Valid(AsMemory())
    }

    constructor (pages: nat, max: nat)
      ensures AsWorld() == World(Memory(ToU32(pages * PAGE), pages, max), [], [])
      ensures threadStacks == [] && dynamicModules == []
    {
      numPages, maxPages := pages, max;
      currentBrk := ToU32(pages * PAGE);
      threadStacks, guards, dynamicModules, live := [], [], [], [];
    }

    /** The memory handed out has no guards of its own yet. */
    method GrowMemory(nBytes: nat, available: bool, ghost kind: Kind) returns (r: Result<nat, string>)
      modifies this`currentBrk, this`numPages, this`live
      ensures AsWorld() == HandedOut(old(AsWorld()), nBytes, kind, available)
      ensures r == Grow(old(AsMemory()), nBytes, available).r
    {
      if nBytes == 0 {
        return Ok(currentBrk);
      }
      var oldBytes := numPages * PAGE;
      var oldBrk := currentBrk;
      var newBrk := ToU32(currentBrk + nBytes);
      if !Aligned(newBrk) {
        return Err("Non-wasm-page-aligned memory growth");
      }
      if newBrk <= oldBytes {
        currentBrk := newBrk;
        live := live + [Region(oldBrk, nBytes, kind)];
        return Ok(oldBrk);
      }
      var newBytes := oldBytes + nBytes;
      var oldPages := numPages;
      var newPages := PagesForBytes(newBytes);
      if newPages > maxPages {
        return Err("Mmap exceeding max");
      }
      var pageChange := (newPages - oldPages) % U64;
      if numPages + pageChange > maxPages || !available {
        return Err("Unable to grow memory");
      }
      var newMemPageBase := numPages;
      numPages := numPages + pageChange;
      var newMemBase := ToU32(newMemPageBase * PAGE);
      currentBrk := ToU32(numPages * PAGE);
      if newMemBase != oldBytes {
        return Err("Memory growth discrepancy");
      }
      if currentBrk != newBytes {
        return Err("Memory growth discrepancy");
      }
      live := live + [Region(newMemBase, nBytes, kind)];
      return Ok(newMemBase);
    }

    method ShrinkMemory(nBytes: nat) returns (r: Result<nat, string>)
      modifies this`currentBrk, this`live
      ensures AsWorld() == Effect(old(AsWorld()), Shrinking(nBytes))
      ensures r == Shrink(old(AsMemory()), nBytes).r
      ensures r.Ok? ==> r.value == old(currentBrk) && currentBrk == old(currentBrk) - nBytes
    {
      if !Aligned(nBytes) {
        return Err("New break not page aligned");
      }
      if nBytes > currentBrk {
        return Err("Shrinking by more than current brk");
      }
      var oldBrk := currentBrk;
      currentBrk := currentBrk - nBytes;
      live := if currentBrk < oldBrk then Clipped(live, currentBrk) else live;
      return Ok(oldBrk);
    }

    method UnmapMemory(offset: nat, nBytes: nat) returns (r: Result<nat, string>)
      modifies this`currentBrk, this`live
      ensures AsWorld() == Effect(old(AsWorld()), Unmapping(offset, nBytes))
      ensures r == Unmap(old(AsMemory()), offset, nBytes).r
    {
      if nBytes == 0 {
        return Ok(currentBrk);
      }
      if !Aligned(offset) {
        return Err("Non-page aligned munmap address");
      }
      var pageAligned := RoundUp(nBytes);
      var unmapTop := ToU32(offset + pageAligned);
      if unmapTop > maxPages * PAGE {
        return Err("munmapping outside memory max");
      }
      if unmapTop == currentBrk {
        r := ShrinkMemory(pageAligned);
      } else {
        return Ok(currentBrk);
      }
    }

    method MmapMemory(nBytes: nat, available: bool) returns (r: Result<nat, string>)
      modifies this`currentBrk, this`numPages, this`live
      ensures AsWorld() == Effect(old(AsWorld()), Map(nBytes, available))
      ensures r == Mmap(old(AsMemory()), nBytes, available).r
    {
      var pageAligned := RoundUp(nBytes);
      PlainHandedOut(AsWorld(), pageAligned, available);
      r := GrowMemory(pageAligned, available, Plain);
    }

    /** Brings the break to the size of a snapshot and maps the snapshot, if that succeeds, over the memory below it,
        guards included. Memory grown for it is the snapshot's, not a region handed out. */
    method Restore(size: nat, available: bool, mapped: bool) returns (r: Result<(), string>)
      requires Whole() && size < U32
      modifies this`currentBrk, this`numPages, this`live, this`guards
      ensures AsWorld() == Effect(old(AsWorld()), Restoring(size, available, mapped))
      ensures r.Ok? <==> LinearMemory.Restore(old(AsMemory()), size, available).r.Ok? && mapped
    {
      var memSize := currentBrk;
      ghost var before := live;
      RestoreExact(AsMemory(), size, available);
      var resized := Ok(memSize);
      if size > memSize {
        var bytesRequired := ToU32(size - memSize);
        resized := GrowMemory(bytesRequired, available, Plain);
        live := before;
      } else if size < memSize {
        var shrinkBy := memSize - size;
        resized := ShrinkMemory(shrinkBy);
      }
      if resized.Err? {
        return Err(resized.error);
      }
      if !mapped {
        return Err("mmapping snapshot failed");
      }
      guards := CutBelow(guards, size);
      return Ok(());
    }

    /** Protecting the pages always succeeds here. */
    method CreateMemoryGuardRegion(wasmOffset: nat) returns (end: nat)
      modifies this`guards
      ensures guards == old(guards) + [Range(wasmOffset, wasmOffset + GUARD)] && end == ToU32(wasmOffset + GUARD)
    {
      guards := guards + [Range(wasmOffset, wasmOffset + GUARD)];
      end := ToU32(wasmOffset + GUARD);
    }

    /** One stack after another; the pool stays as far as it got if memory cannot be grown. */
    method CreateThreadStacks(poolSize: nat, available: nat -> bool) returns (r: Result<nat, string>)
      modifies this`currentBrk, this`numPages, this`live, this`threadStacks, this`guards
      ensures r.Ok? ==> r.value == poolSize && AsWorld() == WithStacks(old(AsWorld()), poolSize, available)
      ensures r.Ok? <==> forall j :: 0 <= j < poolSize ==> StackFits(old(AsWorld()), j, available)
      ensures r.Err? ==> exists k: nat ::
        k < poolSize && FirstFailure(old(AsWorld()), k, available)
        && AsWorld() == WithStacks(old(AsWorld()), k + 1, available)
      ensures StacksRecorded(old(live), live, old(threadStacks), threadStacks)
      ensures r.Ok? ==> |live| == |old(live)| + poolSize
    {
      hide StackTop, GuardStarts, GuardsAt, ToU32, StacksRecorded, Grow, WithStacks, StackFits, Effect;
      NoStacks(live, threadStacks);
      StacksStart(AsWorld(), available);
      var i := 0;
      while i < poolSize
        invariant i <= poolSize && AsWorld() == WithStacks(old(AsWorld()), i, available)
        invariant |live| == |old(live)| + i
        invariant forall j :: 0 <= j < i ==> StackFits(old(AsWorld()), j, available)
        invariant StacksRecorded(old(live), live, old(threadStacks), threadStacks)
      {
        var memSize := THREAD_STACK_SIZE + 2 * GUARD;
        ghost var before, tops := AsWorld(), threadStacks;
        r := GrowMemory(memSize, available(i), Stack);
        StackHandedOut(before, available(i));
        StacksStep(old(AsWorld()), i, available);
        if r.Err? {
          assert FirstFailure(old(AsWorld()), i, available);
          return;
        }
        var memBase := r.value;
        var stackTop := ToU32(memBase + GUARD + THREAD_STACK_SIZE - 1);
        threadStacks := threadStacks + [stackTop];
        var _ := CreateMemoryGuardRegion(memBase);
        var _ := CreateMemoryGuardRegion(ToU32(stackTop + 1));
        GuardAbove(memBase);
        OneMoreStack(old(live), before.live, old(threadStacks), tops, Region(memBase, memSize, Stack));
        assert guards == before.guards + GuardsAt(GuardStarts(Region(memBase, memSize, Stack)));
        i := i + 1;
      }
      r := Ok(poolSize);
    }

    /** Memory for a module between two guard regions, and the layout of the module in it. */
    method LoadDynamicModule(dataSize: nat, tableBottom: nat, tableTop: nat, available: bool)
      returns (r: Result<nat, string>)
      modifies this`currentBrk, this`numPages, this`live, this`guards, this`dynamicModules
      ensures AsWorld() == Effect(old(AsWorld()), Allocate(Needs(Module), Module, available))
      ensures r == Grow(old(AsMemory()), Needs(Module), available).r
      ensures dynamicModules ==
        if r.Err? then old(dynamicModules)
        else old(dynamicModules) + [LayOut(ToU32(r.value + GUARD), dataSize, tableBottom, tableTop)]
    {
      hide GuardsAt, Grow;
      ghost var before := AsWorld();
      var memSize := MODULE_MEMORY_SIZE + 2 * GUARD;
      r := GrowMemory(memSize, available, Module);
      if r.Err? {
        return;
      }
      var memStart := CreateMemoryGuardRegion(r.value);
      var _ := CreateMemoryGuardRegion(ToU32(memStart + MODULE_MEMORY_SIZE));
      ModuleGuardAbove(r.value);
      assert guards == before.guards + GuardsAt(GuardStarts(Region(r.value, memSize, Module)));
      var memoryTop := ToU32(memStart + MODULE_MEMORY_SIZE);
      var stackTop := ToU32(memStart + MODULE_STACK_SIZE);
      var stackPointer := ToI32(stackTop - 1);
      var dataTop := ToU32(stackTop + dataSize);
      var d := LoadedDynamicModule(
        memStart, memoryTop, stackTop, stackPointer, MODULE_STACK_SIZE, stackTop, dataTop, dataTop, tableBottom,
        tableTop);
      dynamicModules := dynamicModules + [d];
    }
  }

  /** The world after a number of stacks have been allocated, as far as memory went. */
  function WithStacks(w: World, n: nat, available: nat -> bool): World {
    if n == 0 then w
    else Effect(WithStacks(w, n - 1, available), Allocate(Needs(Stack), Stack, available(n - 1)))
  }

  /** Whether memory can be grown for one stack after a number of them. */
  predicate StackFits(w: World, n: nat, available: nat -> bool) {
    Grow(WithStacks(w, n, available).m, Needs(Stack), available(n)).r.Ok?
  }

  lemma StacksStart(w: World, available: nat -> bool)
    ensures WithStacks(w, 0, available) == w
  {
  }

  lemma StacksStep(w: World, n: nat, available: nat -> bool)
    ensures WithStacks(w, n + 1, available)
         == Effect(WithStacks(w, n, available), Allocate(Needs(Stack), Stack, available(n)))
    ensures StackFits(w, n, available) <==> Grow(WithStacks(w, n, available).m, Needs(Stack), available(n)).r.Ok?
  {
  }

  predicate FirstFailure(w: World, k: nat, available: nat -> bool) {
    !StackFits(w, k, available) && forall j :: 0 <= j < k ==> StackFits(w, j, available)
  }

  /** The regions added are stacks, and their tops are what was added to the list. */
  predicate StacksRecorded(live: seq<Region>, live': seq<Region>, tops: seq<nat>, tops': seq<nat>) {
    && live <= live' && tops <= tops' && |tops'| - |tops| == |live'| - |live|
    && forall i :: |live| <= i < |live'| ==>
         live'[i].kind == Stack && live'[i].size == Needs(Stack) && tops'[i - |live| + |tops|] == StackTop(live'[i])
  }

  lemma OneMoreStack(live: seq<Region>, live': seq<Region>, tops: seq<nat>, tops': seq<nat>, r: Region)
    requires StacksRecorded(live, live', tops, tops') && r.kind == Stack && r.size == Needs(Stack)
    ensures StacksRecorded(live, live' + [r], tops, tops' + [StackTop(r)])
  {
  }

  lemma NoStacks(live: seq<Region>, tops: seq<nat>)
    ensures StacksRecorded(live, live, tops, tops)
  {
  }

  lemma PlainHandedOut(w: World, nBytes: nat, available: bool)
    ensures HandedOut(w, nBytes, Plain, available) == Allocated(w, nBytes, Plain, available)
  {
    assert w.guards + GuardsAt([]) == w.guards;
  }

  lemma StackHandedOut(w: World, available: bool)
    ensures var t, r := HandedOut(w, Needs(Stack), Stack, available), Grow(w.m, Needs(Stack), available).r;
      Effect(w, Allocate(Needs(Stack), Stack, available))
      == if r.Ok? then t.(guards := w.guards + GuardsAt(GuardStarts(Region(r.value, Needs(Stack), Stack)))) else t
  {
    hide Grow, GuardsAt, GuardStarts;
  }

  lemma GuardAbove(memBase: nat)
    ensures var r := Region(memBase, Needs(Stack), Stack);
      ToU32(memBase + GUARD + THREAD_STACK_SIZE - 1) == StackTop(r)
      && GuardsAt(GuardStarts(r))
         == [Range(memBase, memBase + GUARD)] + [Range(ToU32(StackTop(r) + 1), ToU32(StackTop(r) + 1) + GUARD)]
  {
    WrappedDifference(memBase + GUARD + THREAD_STACK_SIZE - 1, -1);
  }

  lemma ModuleGuardAbove(memBase: nat)
    ensures var above := ToU32(ToU32(memBase + GUARD) + MODULE_MEMORY_SIZE);
      GuardsAt(GuardStarts(Region(memBase, Needs(Module), Module)))
      == [Range(memBase, memBase + GUARD)] + [Range(above, above + GUARD)]
  {
    WrappedDifference(memBase + GUARD, 0 - MODULE_MEMORY_SIZE);
  }

  /** While no growth has wrapped, a thread's stack ends at the recorded top, the last byte below the guard above it,
      and the recorded guards are where the guards are. */
  lemma StackInPlace(w: World, i: nat)
    requires MemoryRegions.Sound(w) && i < |w.live| && w.live[i].kind == Stack && w.live[i].size == Needs(Stack)
    ensures var r := w.live[i];
      var top := StackTop(r);
      && PartRange(r, Usable) == Range(top + 1 - THREAD_STACK_SIZE, top + 1)
      && PartRange(r, Above) == Range(top + 1, top + 1 + GUARD)
      && GuardsAt(GuardStarts(r)) == [PartRange(r, Below), PartRange(r, Above)]
  {
    GuardsAround(w, i);
    assert Placed(w.live[i], w.m.brk);
  }

  /** Likewise a module's memory, from bottom to top as laid out, is exactly what lies between its guards. */
  lemma ModuleInPlace(w: World, i: nat, dataSize: nat, tableBottom: nat, tableTop: nat)
    requires MemoryRegions.Sound(w) && i < |w.live| && w.live[i].kind == Module && w.live[i].size == Needs(Module)
    ensures var r := w.live[i];
      var d := LayOut(ToU32(r.base + GUARD), dataSize, tableBottom, tableTop);
      && PartRange(r, Usable) == Range(d.memoryBottom, d.memoryTop)
      && GuardsAt(GuardStarts(r)) == [PartRange(r, Below), PartRange(r, Above)]
  {
    GuardsAround(w, i);
    assert Placed(w.live[i], w.m.brk);
  }
}
