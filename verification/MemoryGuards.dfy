/** What happens to guard regions when the break falls and memory below them is handed out again. */
module MemoryGuards {
  import opened Wrappers
  import opened Bytes
  import opened Numbers
  import opened LinearMemory
  import opened MemoryRegions

  // ------------------------------------------------------------------ ranges

  predicate Meets(a: Range, b: Range) {
    Max(a.base, b.base) < Min(a.top, b.top)
  }

  /** Two ranges meet exactly if they have an address in common. */
  lemma MeetsShare(a: Range, b: Range)
    ensures Meets(a, b) <==> exists x: nat :: Within(x, a) && Within(x, b)
  {
    if Meets(a, b) {
      assert Within(Max(a.base, b.base), a) && Within(Max(a.base, b.base), b);
    }
  }

  predicate Inside(a: Range, b: Range) {
    a.base < a.top ==> b.base <= a.base && a.top <= b.top
  }

  predicate Clear(guards: seq<Range>, range: Range) {
    forall k :: 0 <= k < |guards| ==> !Meets(guards[k], range)
  }

  /** No address of a usable part is read-only. */
  predicate UsableClear(w: World) {
    forall i :: 0 <= i < |w.live| ==> Clear(w.guards, PartRange(w.live[i], Usable))
  }

  /** The read-only ranges are in provisioned memory. */
  predicate GuardsProvisioned(w: World) {
    forall k :: 0 <= k < |w.guards| ==> w.guards[k].top <= Size(w.m)
  }

  predicate Covered(guards: seq<Range>, range: Range) {
    range.base < range.top ==> exists k :: 0 <= k < |guards| && Inside(range, guards[k])
  }

  /** The guards of every guarded region are read-only, as far as they are below the break. */
  predicate GuardsHeld(w: World) {
    forall i :: 0 <= i < |w.live| ==>
      Covered(w.guards, PartRange(w.live[i], Below)) && Covered(w.guards, PartRange(w.live[i], Above))
  }

  // ---------------------------------------------------- lowering and restoring

  /** What remains of a region is a part of it. */
  lemma {:induction false} ClippedFrom(live: seq<Region>, brk: nat, i: nat) returns (j: nat)
    requires i < |Clipped(live, brk)|
    ensures j < |live| && live[j].base < brk && Clipped(live, brk)[i] == Cut(live[j], brk)
    decreases |live|
  {
    if live[0].base < brk {
      if i == 0 {
        j := 0;
      } else {
        assert Clipped(live, brk)[i] == Clipped(live[1..], brk)[i - 1];
        j := ClippedFrom(live[1..], brk, i - 1);
        j := j + 1;
      }
    } else {
      assert Clipped(live, brk) == Clipped(live[1..], brk);
      j := ClippedFrom(live[1..], brk, i);
      j := j + 1;
    }
  }

  lemma {:induction false} ClippedKeeps(live: seq<Region>, brk: nat, j: nat) returns (i: nat)
    requires j < |live| && live[j].base < brk
    ensures i < |Clipped(live, brk)| && Clipped(live, brk)[i] == Cut(live[j], brk)
    decreases |live|
  {
    if j == 0 {
      i := 0;
    } else {
      i := ClippedKeeps(live[1..], brk, j - 1);
      var first := if live[0].base < brk then [Cut(live[0], brk)] else [];
      assert Clipped(live, brk) == first + Clipped(live[1..], brk);
      i := i + |first|;
    }
  }

  lemma CutInside(r: Region, brk: nat, part: Part)
    requires r.base < brk
    ensures Inside(PartRange(Cut(r, brk), part), PartRange(r, part))
  {
  }

  lemma LoweredClear(w: World, m: Memory)
    requires UsableClear(w)
    ensures UsableClear(Lowered(w, m))
  {
    var t := Lowered(w, m);
    forall i | 0 <= i < |t.live| ensures Clear(t.guards, PartRange(t.live[i], Usable)) {
      if m.brk < w.m.brk {
        var j := ClippedFrom(w.live, m.brk, i);
        CutInside(w.live[j], m.brk, Usable);
        InsideClear(w.guards, PartRange(t.live[i], Usable), PartRange(w.live[j], Usable));
      }
    }
  }

  lemma InsideClear(guards: seq<Range>, a: Range, b: Range)
    requires Inside(a, b) && Clear(guards, b)
    ensures Clear(guards, a)
  {
  }

  lemma LoweredHeld(w: World, m: Memory)
    requires GuardsHeld(w)
    ensures GuardsHeld(Lowered(w, m))
  {
    var t := Lowered(w, m);
    forall i | 0 <= i < |t.live|
      ensures Covered(t.guards, PartRange(t.live[i], Below)) && Covered(t.guards, PartRange(t.live[i], Above))
    {
      if m.brk < w.m.brk {
        var j := ClippedFrom(w.live, m.brk, i);
        CutInside(w.live[j], m.brk, Below);
        CutInside(w.live[j], m.brk, Above);
        InsideCovered(w.guards, PartRange(t.live[i], Below), PartRange(w.live[j], Below));
        InsideCovered(w.guards, PartRange(t.live[i], Above), PartRange(w.live[j], Above));
      }
    }
  }

  lemma InsideCovered(guards: seq<Range>, a: Range, b: Range)
    requires Inside(a, b) && Covered(guards, b)
    ensures Covered(guards, a)
  {
    if a.base < a.top {
      var k :| 0 <= k < |guards| && Inside(b, guards[k]);
      assert Inside(a, guards[k]);
    }
  }

  lemma CutBelowClear(guards: seq<Range>, size: nat, range: Range)
    requires Clear(guards, range)
    ensures Clear(CutBelow(guards, size), range)
  {
    var cut := CutBelow(guards, size);
    forall k | 0 <= k < |cut| ensures !Meets(cut[k], range) {
      assert !Meets(guards[k], range);
    }
  }

  lemma RestoredClear(w: World, size: nat, available: bool, mapped: bool)
    requires UsableClear(w)
    ensures UsableClear(Restored(w, size, available, mapped))
  {
    hide Clear, Restore, PartRange;
    var g := Restore(w.m, size, available);
    var t, u := Restored(w, size, available, mapped), Lowered(w, g.m);
    LoweredClear(w, g.m);
    forall i | 0 <= i < |t.live| ensures Clear(t.guards, PartRange(t.live[i], Usable)) {
      assert Clear(u.guards, PartRange(u.live[i], Usable));
      CutBelowClear(w.guards, size, PartRange(t.live[i], Usable));
    }
  }

  // ---------------------------------------------------------------- allocating

  /** Memory reclaimed in which the usable part would be read-only. */
  predicate ReusesAt(w: World, nBytes: nat, kind: Kind) {
    && 0 < nBytes && Aligned(nBytes) && w.m.brk + nBytes <= Size(w.m)
    && !Clear(w.guards, PartRange(Region(w.m.brk, nBytes, kind), Usable))
  }

  predicate Reuses(w: World, step: Step) {
    match step
    case Allocate(nBytes, kind, _) => ReusesAt(w, nBytes, kind)
    case Map(nBytes, _) => ReusesAt(w, RoundUp(nBytes), Plain)
    case Unmapping(_, _) => false
    case Shrinking(_) => false
    case Restoring(_, _, _) => false
  }

  /** Memory that was never handed out has no guards. */
  lemma AboveClear(w: World, range: Range)
    requires GuardsProvisioned(w) && Size(w.m) <= range.base
    ensures Clear(w.guards, range)
  {
  }

  lemma NewGuards(r: Region)
    requires r.kind != Plain && r.size == Needs(r.kind) && Top(r) < U32
    ensures GuardsAt(GuardStarts(r)) == [PartRange(r, Below), PartRange(r, Above)]
    ensures Clear(GuardsAt(GuardStarts(r)), PartRange(r, Usable))
  {
    assert ToU32(r.base + Needs(r.kind) - GUARD) == r.base + Needs(r.kind) - GUARD;
  }

  /** Where memory is handed out, if it is. */
  lemma AllocatedAt(w: World, nBytes: nat, kind: Kind, available: bool)
    requires Sound(w) && Possible(Allocate(nBytes, kind, available)) && !Wraps(w, Allocate(nBytes, kind, available))
    ensures var g, t := Grow(w.m, nBytes, available), Allocated(w, nBytes, kind, available);
      if g.r.Ok? && nBytes > 0 then
        var r := Region(g.r.value, nBytes, kind);
        && r.base == (if w.m.brk + nBytes <= Size(w.m) then w.m.brk else Size(w.m)) && Aligned(nBytes)
        && t == World(g.m, w.live + [r], w.guards + GuardsAt(GuardStarts(r)))
        && Top(r) == t.m.brk < U32 && Size(w.m) <= Size(t.m)
      else t == w && (nBytes == 0 || !Aligned(nBytes) || w.m.brk + nBytes > Size(w.m))
  {
    GrowExact(w.m, nBytes, available);
    if Aligned(nBytes) && Size(w.m) < w.m.brk + nBytes < U32 {
      ExtendExact(w.m, nBytes, available);
    }
    hide Extend, GuardsAt, GuardStarts;
    if nBytes == 0 {
      GrowNothing(w.m, available);
    }
  }

  lemma ClearConcat(a: seq<Range>, b: seq<Range>, range: Range)
    ensures Clear(a + b, range) <==> Clear(a, range) && Clear(b, range)
  {
    if Clear(a + b, range) {
      forall k | 0 <= k < |a| ensures !Meets(a[k], range) {
        assert (a + b)[k] == a[k];
      }
      forall k | 0 <= k < |b| ensures !Meets(b[k], range) {
        assert (a + b)[|a| + k] == b[k];
      }
    }
  }

  lemma NewGuardsClearBelow(r: Region, range: Range)
    requires (r.kind == Plain || r.size == Needs(r.kind)) && Top(r) < U32 && range.top <= r.base
    ensures Clear(GuardsAt(GuardStarts(r)), range)
  {
    if r.kind != Plain {
      NewGuards(r);
    }
  }

  lemma OwnGuardsClear(r: Region)
    requires (r.kind == Plain || r.size == Needs(r.kind)) && Top(r) < U32
    ensures Clear(GuardsAt(GuardStarts(r)), PartRange(r, Usable))
  {
    if r.kind != Plain {
      NewGuards(r);
    }
  }

  /** An allocation makes a usable part read-only exactly if it reclaims memory with a guard in it. */
  lemma AllocatedClear(w: World, nBytes: nat, kind: Kind, available: bool)
    requires Sound(w) && GuardsProvisioned(w) && UsableClear(w)
    requires Possible(Allocate(nBytes, kind, available)) && !Wraps(w, Allocate(nBytes, kind, available))
    ensures UsableClear(Allocated(w, nBytes, kind, available)) <==> !ReusesAt(w, nBytes, kind)
  {
    AllocatedAt(w, nBytes, kind, available);
    var g, t := Grow(w.m, nBytes, available), Allocated(w, nBytes, kind, available);
    if g.r.Ok? && nBytes > 0 {
      var r := Region(g.r.value, nBytes, kind);
      var made := GuardsAt(GuardStarts(r));
      var usable := PartRange(r, Usable);
      forall i | 0 <= i < |w.live| ensures Clear(t.guards, PartRange(t.live[i], Usable)) {
        BelowNew(w, i, r);
        NewGuardsClearBelow(r, PartRange(w.live[i], Usable));
        ClearConcat(w.guards, made, PartRange(w.live[i], Usable));
      }
      OwnGuardsClear(r);
      ClearConcat(w.guards, made, usable);
      if r.base == Size(w.m) {
        AboveClear(w, usable);
      }
      assert t.live[|w.live|] == r;
      hide Clear, PartRange, GuardsAt, GuardStarts, Grow, Allocated;
    }
  }

  lemma BelowNew(w: World, i: nat, r: Region)
    requires Sound(w) && i < |w.live| && w.m.brk <= r.base
    ensures PartRange(w.live[i], Usable).top <= r.base
  {
    assert Placed(w.live[i], w.m.brk);
  }

  lemma StepClear(w: World, step: Step)
    requires Sound(w) && GuardsProvisioned(w) && UsableClear(w) && Possible(step) && !Wraps(w, step)
    ensures UsableClear(Effect(w, step)) <==> !Reuses(w, step)
  {
    hide UsableClear, ReusesAt, Grow, Shrink, Unmap, Restore, RoundUp;
    match step
    case Allocate(nBytes, kind, available) => AllocatedClear(w, nBytes, kind, available);
    case Map(nBytes, available) =>
      RoundUpAligned(nBytes);
      AllocatedClear(w, RoundUp(nBytes), Plain, available);
    case Unmapping(offset, nBytes) => LoweredClear(w, Unmap(w.m, offset, nBytes).m);
    case Shrinking(nBytes) => LoweredClear(w, Shrink(w.m, nBytes).m);
    case Restoring(size, available, mapped) => RestoredClear(w, size, available, mapped);
  }

  lemma AllocatedProvisioned(w: World, nBytes: nat, kind: Kind, available: bool)
    requires Sound(w) && GuardsProvisioned(w)
    requires Possible(Allocate(nBytes, kind, available)) && !Wraps(w, Allocate(nBytes, kind, available))
    ensures GuardsProvisioned(Allocated(w, nBytes, kind, available))
  {
    AllocatedAt(w, nBytes, kind, available);
    GrowKeepsValid(w.m, nBytes, available);
    var g := Grow(w.m, nBytes, available);
    if g.r.Ok? && nBytes > 0 && kind != Plain {
      NewGuards(Region(g.r.value, nBytes, kind));
    }
    hide Grow, Allocated, GuardStarts;
  }

  lemma StepProvisioned(w: World, step: Step)
    requires Sound(w) && GuardsProvisioned(w) && Possible(step) && !Wraps(w, step)
    ensures GuardsProvisioned(Effect(w, step))
  {
    hide Grow, Shrink, Unmap, Restore, RoundUp;
    match step
    case Allocate(nBytes, kind, available) => AllocatedProvisioned(w, nBytes, kind, available);
    case Map(nBytes, available) =>
      RoundUpAligned(nBytes);
      AllocatedProvisioned(w, RoundUp(nBytes), Plain, available);
    case Unmapping(offset, nBytes) => UnmapExact(w.m, offset, nBytes);
    case Shrinking(nBytes) => ShrinkExact(w.m, nBytes);
    case Restoring(size, available, mapped) => RestoredProvisioned(w, size, available, mapped);
  }

  lemma RestoredProvisioned(w: World, size: nat, available: bool, mapped: bool)
    requires Sound(w) && GuardsProvisioned(w) && size < U32
    ensures GuardsProvisioned(Restored(w, size, available, mapped))
  {
    RestoreExact(w.m, size, available);
    RestoreProvisions(w.m, size, available);
    hide Restore;
  }

  lemma RestoreProvisions(m: Memory, size: nat, available: bool)
    requires Valid(m) && size < U32
    ensures Restore(m, size, available).m.pages >= m.pages
  {
    if size > m.brk {
      GrowExact(m, size - m.brk, available);
      if Aligned(size - m.brk) && size > Size(m) {
        ExtendExact(m, size - m.brk, available);
      }
    }
    hide Grow, Extend;
  }

  // ------------------------------------------------------------- guards in place

  /** Mapping a snapshot over a guard of a guarded region. */
  predicate Unprotects(w: World, step: Step) {
    && step.Restoring? && step.mapped && Restore(w.m, step.size, step.available).r.Ok?
    && exists i :: 0 <= i < |w.live| && GuardedBelow(w.live[i], step.size)
  }

  predicate GuardedBelow(r: Region, size: nat) {
    r.kind != Plain && r.base < size
  }

  lemma ConcatCovered(a: seq<Range>, b: seq<Range>, range: Range)
    requires Covered(a, range) || Covered(b, range)
    ensures Covered(a + b, range)
  {
    if range.base < range.top {
      if Covered(a, range) {
        var k :| 0 <= k < |a| && Inside(range, a[k]);
        assert (a + b)[k] == a[k];
      } else {
        var k :| 0 <= k < |b| && Inside(range, b[k]);
        assert (a + b)[|a| + k] == b[k];
      }
    }
  }

  lemma OwnGuardsCover(r: Region)
    requires (r.kind == Plain || r.size == Needs(r.kind)) && Top(r) < U32
    ensures Covered(GuardsAt(GuardStarts(r)), PartRange(r, Below))
    ensures Covered(GuardsAt(GuardStarts(r)), PartRange(r, Above))
  {
    if r.kind != Plain {
      NewGuards(r);
      var made := GuardsAt(GuardStarts(r));
      assert Inside(PartRange(r, Below), made[0]) && Inside(PartRange(r, Above), made[1]);
    }
  }

  lemma AllocatedHeld(w: World, nBytes: nat, kind: Kind, available: bool)
    requires Sound(w) && GuardsHeld(w)
    requires Possible(Allocate(nBytes, kind, available)) && !Wraps(w, Allocate(nBytes, kind, available))
    ensures GuardsHeld(Allocated(w, nBytes, kind, available))
  {
    AllocatedAt(w, nBytes, kind, available);
    var g, t := Grow(w.m, nBytes, available), Allocated(w, nBytes, kind, available);
    if g.r.Ok? && nBytes > 0 {
      var r := Region(g.r.value, nBytes, kind);
      var made := GuardsAt(GuardStarts(r));
      OwnGuardsCover(r);
      hide Covered, PartRange, GuardsAt, GuardStarts, Grow, Allocated;
      forall i | 0 <= i < |t.live|
        ensures Covered(t.guards, PartRange(t.live[i], Below)) && Covered(t.guards, PartRange(t.live[i], Above))
      {
        assert t.live[i] == if i < |w.live| then w.live[i] else r;
        ConcatCovered(w.guards, made, PartRange(t.live[i], Below));
        ConcatCovered(w.guards, made, PartRange(t.live[i], Above));
      }
    }
  }

  lemma CutBelowCovered(guards: seq<Range>, size: nat, range: Range)
    requires Covered(guards, range) && (range.base < range.top ==> size <= range.base)
    ensures Covered(CutBelow(guards, size), range)
  {
    if range.base < range.top {
      var k :| 0 <= k < |guards| && Inside(range, guards[k]);
      assert Inside(range, CutBelow(guards, size)[k]);
    }
  }

  lemma CutBelowUncovered(guards: seq<Range>, size: nat, range: Range)
    requires range.base < range.top && range.base < size
    ensures !Covered(CutBelow(guards, size), range)
  {
  }

  /** What is guarded below the snapshot's size is still there after the break has been brought to it. */
  lemma StillGuarded(w: World, size: nat, available: bool, j: nat) returns (i: nat)
    requires Sound(w) && size < U32 && Restore(w.m, size, available).r.Ok?
    requires j < |w.live| && GuardedBelow(w.live[j], size)
    ensures var live := Lowered(w, Restore(w.m, size, available).m).live;
      i < |live| && GuardedBelow(live[i], size) && live[i].size > 0
  {
    RestoreExact(w.m, size, available);
    var brk := Restore(w.m, size, available).m.brk;
    assert Placed(w.live[j], w.m.brk);
    i := j;
    if brk < w.m.brk {
      i := ClippedKeeps(w.live, brk, j);
    }
  }

  lemma NotGuardedBelow(w: World, m: Memory, size: nat, i: nat)
    requires forall j :: 0 <= j < |w.live| ==> !GuardedBelow(w.live[j], size)
    requires i < |Lowered(w, m).live|
    ensures !GuardedBelow(Lowered(w, m).live[i], size)
  {
    if m.brk < w.m.brk {
      var j := ClippedFrom(w.live, m.brk, i);
    }
  }

  lemma PartsFrom(r: Region, size: nat, part: Part)
    requires !GuardedBelow(r, size) && part != Usable
    ensures var range := PartRange(r, part); range.base < range.top ==> size <= range.base
  {
  }

  lemma RestoredHeld(w: World, size: nat, available: bool, mapped: bool)
    requires Sound(w) && GuardsHeld(w) && size < U32
    ensures GuardsHeld(Restored(w, size, available, mapped)) <==> !Unprotects(w, Restoring(size, available, mapped))
  {
    var g := Restore(w.m, size, available);
    var t, u := Restored(w, size, available, mapped), Lowered(w, g.m);
    LoweredHeld(w, g.m);
    if g.r.Ok? && mapped {
      if j :| 0 <= j < |w.live| && GuardedBelow(w.live[j], size) {
        var i := StillGuarded(w, size, available, j);
        hide Restore, CutBelow, Covered;
        CutBelowUncovered(w.guards, size, PartRange(t.live[i], Below));
        assert !GuardsHeld(t);
      } else {
        hide Restore, Lowered, CutBelow, Covered, PartRange;
        forall i | 0 <= i < |t.live|
          ensures Covered(t.guards, PartRange(t.live[i], Below)) && Covered(t.guards, PartRange(t.live[i], Above))
        {
          NotGuardedBelow(w, g.m, size, i);
          PartsFrom(t.live[i], size, Below);
          PartsFrom(t.live[i], size, Above);
          assert Covered(u.guards, PartRange(u.live[i], Below)) && Covered(u.guards, PartRange(u.live[i], Above));
          SameGuards(w, g.m);
          CutBelowCovered(w.guards, size, PartRange(t.live[i], Below));
          CutBelowCovered(w.guards, size, PartRange(t.live[i], Above));
        }
      }
    }
  }

  lemma SameGuards(w: World, m: Memory)
    ensures Lowered(w, m).guards == w.guards
  {
  }

  lemma StepHeld(w: World, step: Step)
    requires Sound(w) && GuardsHeld(w) && Possible(step) && !Wraps(w, step)
    ensures GuardsHeld(Effect(w, step)) <==> !Unprotects(w, step)
  {
    hide GuardsHeld, Grow, Shrink, Unmap, Restore, RoundUp;
    match step
    case Allocate(nBytes, kind, available) => AllocatedHeld(w, nBytes, kind, available);
    case Map(nBytes, available) =>
      RoundUpAligned(nBytes);
      AllocatedHeld(w, RoundUp(nBytes), Plain, available);
    case Unmapping(offset, nBytes) => LoweredHeld(w, Unmap(w.m, offset, nBytes).m);
    case Shrinking(nBytes) => LoweredHeld(w, Shrink(w.m, nBytes).m);
    case Restoring(size, available, mapped) => RestoredHeld(w, size, available, mapped);
  }

  // -------------------------------------------------------------------- runs

  predicate NeverWraps(worlds: seq<World>, steps: seq<Step>)
    requires |worlds| == |steps| + 1
  {
    forall k :: 0 <= k < |steps| ==> !Wraps(worlds[k], steps[k])
  }

  lemma StartClear(w: World)
    requires IsStart(w)
    ensures UsableClear(w) && GuardsProvisioned(w) && GuardsHeld(w)
  {
  }

  lemma {:induction false} AlwaysProvisioned(worlds: seq<World>, steps: seq<Step>, k: nat)
    requires IsRun(worlds, steps) && NeverWraps(worlds, steps) && k < |worlds|
    ensures Sound(worlds[k]) && GuardsProvisioned(worlds[k])
  {
    LaidSoFar(worlds, steps, k);
    if k == 0 {
      StartClear(worlds[0]);
    } else {
      AlwaysProvisioned(worlds, steps, k - 1);
      assert StepAt(worlds, steps, k - 1) && !Wraps(worlds[k - 1], steps[k - 1]);
      hide IsRun, NeverWraps, Sound, GuardsProvisioned, Effect, Wraps;
      StepProvisioned(worlds[k - 1], steps[k - 1]);
    }
  }

  lemma {:induction false} ClearSoFar(worlds: seq<World>, steps: seq<Step>, k: nat)
    requires IsRun(worlds, steps) && NeverWraps(worlds, steps) && k < |worlds|
    requires forall j :: 0 <= j < k ==> !Reuses(worlds[j], steps[j])
    ensures UsableClear(worlds[k])
  {
    if k == 0 {
      StartClear(worlds[0]);
    } else {
      ClearSoFar(worlds, steps, k - 1);
      AlwaysProvisioned(worlds, steps, k - 1);
      assert StepAt(worlds, steps, k - 1) && !Wraps(worlds[k - 1], steps[k - 1]);
      hide IsRun, NeverWraps, Sound, GuardsProvisioned, UsableClear, Effect, Wraps, Reuses;
      StepClear(worlds[k - 1], steps[k - 1]);
    }
  }

  /** In every run whose growths do not wrap, no usable part of any live region is ever read-only exactly if memory with
      a guard in what would be its usable part is never handed out again. */
  lemma AlwaysClear(worlds: seq<World>, steps: seq<Step>)
    requires IsRun(worlds, steps) && NeverWraps(worlds, steps)
    ensures (forall k :: 0 <= k < |worlds| ==> UsableClear(worlds[k]))
       <==> (forall k :: 0 <= k < |steps| ==> !Reuses(worlds[k], steps[k]))
  {
    hide Sound, GuardsProvisioned, UsableClear, Effect, Wraps, Reuses;
    if forall k :: 0 <= k < |worlds| ==> UsableClear(worlds[k]) {
      forall k | 0 <= k < |steps| ensures !Reuses(worlds[k], steps[k]) {
        AlwaysProvisioned(worlds, steps, k);
        assert StepAt(worlds, steps, k) && UsableClear(worlds[k + 1]) && !Wraps(worlds[k], steps[k]);
        StepClear(worlds[k], steps[k]);
      }
    }
    if forall k :: 0 <= k < |steps| ==> !Reuses(worlds[k], steps[k]) {
      forall k | 0 <= k < |worlds| ensures UsableClear(worlds[k]) {
        ClearSoFar(worlds, steps, k);
      }
    }
  }

  lemma {:induction false} HeldSoFar(worlds: seq<World>, steps: seq<Step>, k: nat)
    requires IsRun(worlds, steps) && NeverWraps(worlds, steps) && k < |worlds|
    requires forall j :: 0 <= j < k ==> !Unprotects(worlds[j], steps[j])
    ensures GuardsHeld(worlds[k])
  {
    if k == 0 {
      StartClear(worlds[0]);
    } else {
      HeldSoFar(worlds, steps, k - 1);
      AlwaysProvisioned(worlds, steps, k - 1);
      assert StepAt(worlds, steps, k - 1) && !Wraps(worlds[k - 1], steps[k - 1]);
      hide IsRun, NeverWraps, Sound, GuardsProvisioned, GuardsHeld, Effect, Wraps, Unprotects;
      StepHeld(worlds[k - 1], steps[k - 1]);
    }
  }

  /** And the guards of every live stack and module are read-only at every moment exactly if no snapshot is ever mapped
      over one. */
  lemma AlwaysHeld(worlds: seq<World>, steps: seq<Step>)
    requires IsRun(worlds, steps) && NeverWraps(worlds, steps)
    ensures (forall k :: 0 <= k < |worlds| ==> GuardsHeld(worlds[k]))
       <==> (forall k :: 0 <= k < |steps| ==> !Unprotects(worlds[k], steps[k]))
  {
    hide Sound, GuardsProvisioned, GuardsHeld, Effect, Wraps, Unprotects;
    if forall k :: 0 <= k < |worlds| ==> GuardsHeld(worlds[k]) {
      forall k | 0 <= k < |steps| ensures !Unprotects(worlds[k], steps[k]) {
        AlwaysProvisioned(worlds, steps, k);
        assert StepAt(worlds, steps, k) && GuardsHeld(worlds[k + 1]) && !Wraps(worlds[k], steps[k]);
        StepHeld(worlds[k], steps[k]);
      }
    }
    if forall k :: 0 <= k < |steps| ==> !Unprotects(worlds[k], steps[k]) {
      forall k | 0 <= k < |worlds| ensures GuardsHeld(worlds[k]) {
        HeldSoFar(worlds, steps, k);
      }
    }
  }

  // --------------------------------------------------- while the break only rises

  predicate GuardsBelowBreak(w: World) {
    forall k :: 0 <= k < |w.guards| ==> w.guards[k].top <= w.m.brk
  }

  /** While every guard is below the break, no allocation reuses one. */
  lemma HighBreakReusesNone(w: World, step: Step)
    requires GuardsBelowBreak(w)
    ensures !Reuses(w, step)
  {
    hide RoundUp;
  }

  predicate Rises(step: Step) {
    step.Allocate? || step.Map?
  }

  lemma AllocatedBelow(w: World, nBytes: nat, kind: Kind, available: bool)
    requires Sound(w) && GuardsBelowBreak(w)
    requires Possible(Allocate(nBytes, kind, available)) && !Wraps(w, Allocate(nBytes, kind, available))
    ensures GuardsBelowBreak(Allocated(w, nBytes, kind, available))
  {
    AllocatedAt(w, nBytes, kind, available);
    var g := Grow(w.m, nBytes, available);
    if g.r.Ok? && nBytes > 0 && kind != Plain {
      NewGuards(Region(g.r.value, nBytes, kind));
    }
    hide Grow, Allocated, GuardStarts;
  }

  lemma {:induction false} RisingBelow(worlds: seq<World>, steps: seq<Step>, k: nat)
    requires IsRun(worlds, steps) && NeverWraps(worlds, steps) && k < |worlds|
    requires forall j :: 0 <= j < |steps| ==> Rises(steps[j])
    ensures GuardsBelowBreak(worlds[k])
  {
    if k > 0 {
      RisingBelow(worlds, steps, k - 1);
      AlwaysProvisioned(worlds, steps, k - 1);
      assert StepAt(worlds, steps, k - 1) && !Wraps(worlds[k - 1], steps[k - 1]) && Rises(steps[k - 1]);
      hide IsRun, NeverWraps, Sound, GuardsProvisioned, GuardsBelowBreak, Wraps, Allocated, RoundUp;
      match steps[k - 1] {
        case Allocate(nBytes, kind, available) => AllocatedBelow(worlds[k - 1], nBytes, kind, available);
        case Map(nBytes, available) => MappedBelow(worlds[k - 1], nBytes, available);
        case _ =>
      }
    }
  }

  lemma MappedBelow(w: World, nBytes: nat, available: bool)
    requires Sound(w) && GuardsBelowBreak(w) && Possible(Map(nBytes, available)) && !Wraps(w, Map(nBytes, available))
    ensures GuardsBelowBreak(Allocated(w, RoundUp(nBytes), Plain, available))
  {
    RoundUpAligned(nBytes);
    hide RoundUp;
    AllocatedBelow(w, RoundUp(nBytes), Plain, available);
  }

  /** So however many stacks and modules are made, with other memory in between, while the break only rises every guard
      stays read-only and every usable part writable. */
  lemma RisingGuarded(worlds: seq<World>, steps: seq<Step>, k: nat)
    requires IsRun(worlds, steps) && NeverWraps(worlds, steps) && k < |worlds|
    requires forall j :: 0 <= j < |steps| ==> Rises(steps[j])
    ensures UsableClear(worlds[k]) && GuardsHeld(worlds[k])
  {
    forall j | 0 <= j < k ensures !Reuses(worlds[j], steps[j]) && !Unprotects(worlds[j], steps[j]) {
      RisingBelow(worlds, steps, j);
      HighBreakReusesNone(worlds[j], steps[j]);
      assert Rises(steps[j]);
    }
    ClearSoFar(worlds, steps, k);
    HeldSoFar(worlds, steps, k);
  }

  // ------------------------------------------------------------------- two runs

  /** A world of a number of pages, by pages. */
  function Pages(brk: nat, pages: nat, live: seq<Region>, guards: seq<Range>): World {
    World(Memory(brk * PAGE, pages, MAX_PAGES), live, guards)
  }

  function StackAt(page: nat, size: nat): Region {
    Region(page * PAGE, size * PAGE, Stack)
  }

  function GuardAt(page: nat): Range {
    Range(page * PAGE, (page + 10) * PAGE)
  }

  lemma StackGrown(brk: nat, pages: nat)
    requires brk <= pages < 1000
    ensures var fits := brk + 52 <= pages;
      var base, after := if fits then brk else pages, if fits then pages else pages + 52;
      Grow(Memory(brk * PAGE, pages, MAX_PAGES), 52 * PAGE, true)
      == Grown(Memory((base + 52) * PAGE, after, MAX_PAGES), Ok(base * PAGE))
  {
    var m := Memory(brk * PAGE, pages, MAX_PAGES);
    GrowExact(m, 52 * PAGE, true);
    if brk + 52 > pages {
      ExtendExact(m, 52 * PAGE, true);
    }
    hide Grow, Extend;
  }

  lemma StackGuards(base: nat)
    requires base < 2000
    ensures GuardsAt(GuardStarts(StackAt(base, 52))) == [GuardAt(base), GuardAt(base + 42)]
  {
    assert Needs(Stack) == 52 * PAGE && ToU32((base + 42) * PAGE) == (base + 42) * PAGE;
    assert GuardStarts(StackAt(base, 52)) == [base * PAGE, (base + 42) * PAGE];
  }

  lemma StackAllocated(brk: nat, pages: nat, live: seq<Region>, guards: seq<Range>)
    requires brk <= pages < 1000
    ensures var base := if brk + 52 <= pages then brk else pages;
      Effect(Pages(brk, pages, live, guards), STACK_STEP)
      == Pages(base + 52, if brk + 52 <= pages then pages else pages + 52, live + [StackAt(base, 52)],
               guards + [GuardAt(base), GuardAt(base + 42)])
  {
    var base := if brk + 52 <= pages then brk else pages;
    StackGrown(brk, pages);
    StackGuards(base);
    hide Grow, GuardStarts, GuardsAt;
    assert STACK_STEP == Allocate(52 * PAGE, Stack, true);
  }

  lemma TwoShrunk(guards: seq<Range>)
    ensures Effect(Pages(105, 105, [StackAt(1, 52), StackAt(53, 52)], guards), Shrinking(99 * PAGE))
      == Pages(6, 105, [StackAt(1, 5)], guards)
  {
    var live := [StackAt(1, 52), StackAt(53, 52)];
    assert live[1..] == [StackAt(53, 52)] && live[1..][1..] == [];
    assert Clipped(live[1..], 6 * PAGE) == [];
    assert Clipped(live, 6 * PAGE) == [StackAt(1, 5)];
  }

  const STACK_STEP: Step := Allocate(Needs(Stack), Stack, true)
  const FIRST: seq<Range> := [GuardAt(1), GuardAt(43)]
  const FIRST_TWO: seq<Range> := FIRST + [GuardAt(53), GuardAt(95)]

  /** One stack, two, what is left of them, and a third one above that. */
  function OneStack(): World {
    Pages(53, 53, [StackAt(1, 52)], FIRST)
  }

  function TwoStacks(): World {
    Pages(105, 105, [StackAt(1, 52), StackAt(53, 52)], FIRST_TWO)
  }

  function Shrunk(): World {
    Pages(6, 105, [StackAt(1, 5)], FIRST_TWO)
  }

  function ThirdStack(): World {
    Pages(58, 105, [StackAt(1, 5), StackAt(6, 52)], FIRST_TWO + [GuardAt(6), GuardAt(48)])
  }

  lemma FirstStack()
    ensures Effect(Pages(1, 1, [], []), STACK_STEP) == OneStack()
  {
    StackAllocated(1, 1, [], []);
    hide Effect;
    assert [] + FIRST == FIRST && [] + [StackAt(1, 52)] == [StackAt(1, 52)];
  }

  lemma SecondStack()
    ensures Effect(OneStack(), STACK_STEP) == TwoStacks()
  {
    StackAllocated(53, 53, [StackAt(1, 52)], FIRST);
    hide Effect;
    assert [StackAt(1, 52)] + [StackAt(53, 52)] == [StackAt(1, 52), StackAt(53, 52)];
  }

  lemma StackReused()
    ensures Effect(TwoStacks(), Shrinking(99 * PAGE)) == Shrunk() && Effect(Shrunk(), STACK_STEP) == ThirdStack()
  {
    TwoShrunk(FIRST_TWO);
    StackAllocated(6, 105, [StackAt(1, 5)], FIRST_TWO);
    hide Effect;
    assert [StackAt(1, 5)] + [StackAt(6, 52)] == [StackAt(1, 5), StackAt(6, 52)];
  }

  /** A whole stack with a read-only address in its usable part. */
  predicate ReadOnlyStack(w: World, i: nat) {
    i < |w.live| && w.live[i].kind == Stack && w.live[i].size == Needs(Stack)
    && !Clear(w.guards, PartRange(w.live[i], Usable))
  }

  lemma ThirdReadOnly()
    ensures ReadOnlyStack(ThirdStack(), 1)
  {
    var w := ThirdStack();
    assert w.guards[1] == GuardAt(43);
    assert Meets(w.guards[1], PartRange(w.live[1], Usable));
  }

  /** Two stacks, most of both given back, and a third one: part of the third is read-only. */
  lemma ReuseMakesReadOnly()
    ensures exists worlds, steps :: IsRun(worlds, steps) && ReadOnlyStack(worlds[|worlds| - 1], 1)
  {
    FirstStack();
    SecondStack();
    StackReused();
    ThirdReadOnly();
    hide Effect, OneStack, TwoStacks, Shrunk, ThirdStack, ReadOnlyStack;
    var worlds := [Pages(1, 1, [], []), OneStack(), TwoStacks(), Shrunk(), ThirdStack()];
    var steps := [STACK_STEP, STACK_STEP, Shrinking(99 * PAGE), STACK_STEP];
    assert StepAt(worlds, steps, 0) && StepAt(worlds, steps, 1) && StepAt(worlds, steps, 2) && StepAt(worlds, steps, 3);
    assert IsRun(worlds, steps);
    assert worlds[|worlds| - 1] == ThirdStack();
  }

  function Unguarded(): World {
    OneStack().(guards := CutBelow(FIRST, 53 * PAGE))
  }

  lemma StackUnguarded()
    ensures Effect(OneStack(), Restoring(53 * PAGE, true, true)) == Unguarded() && !GuardsHeld(Unguarded())
  {
    CutBelowUncovered(FIRST, 53 * PAGE, PartRange(Unguarded().live[0], Below));
    hide Covered;
  }

  /** One stack, and a snapshot of the same size restored: the stack has no guards any more. */
  lemma RestoreUnprotects()
    ensures exists worlds, steps :: IsRun(worlds, steps) && !GuardsHeld(worlds[|worlds| - 1])
  {
    FirstStack();
    StackUnguarded();
    hide Effect, OneStack, Unguarded, GuardsHeld;
    var worlds := [Pages(1, 1, [], []), OneStack(), Unguarded()];
    var steps := [STACK_STEP, Restoring(53 * PAGE, true, true)];
    assert StepAt(worlds, steps, 0) && StepAt(worlds, steps, 1);
    assert IsRun(worlds, steps);
    assert worlds[|worlds| - 1] == Unguarded();
  }
}
