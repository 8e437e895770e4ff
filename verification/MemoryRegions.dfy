/** The regions of memory handed out, over whole runs of a module's memory operations. */
module MemoryRegions {
  import opened Wrappers
  import opened Bytes
  import opened Numbers
  import opened LinearMemory

  /** Thread stacks and dynamic modules are guarded. */
  datatype Kind = Plain | Stack | Module

  /** A region handed out, or what is left of it below the break. */
  datatype Region = Region(base: nat, size: nat, kind: Kind)

  datatype Range = Range(base: nat, top: nat)

  const MB: nat := 1024 * 1024
  const GUARD: nat := 10 * PAGE
  const THREAD_STACK_SIZE: nat := 2 * MB
  const MODULE_STACK_SIZE: nat := 2 * MB
  const MODULE_MEMORY_SIZE: nat := 66 * PAGE

  /** What a stack or module needs with a guard region on either side. */
  function Needs(kind: Kind): nat {
    match kind
    case Plain => 0
    case Stack => THREAD_STACK_SIZE + 2 * GUARD
    case Module => MODULE_MEMORY_SIZE + 2 * GUARD
  }

  function Top(r: Region): nat {
    r.base + r.size
  }

  /** The memory, the live regions in it, lowest first, and the ranges that were made read-only. */
  datatype World = World(m: Memory, live: seq<Region>, guards: seq<Range>)

  datatype Step =
    | Allocate(nBytes: nat, kind: Kind, available: bool)
    | Map(nBytes: nat, available: bool)
    | Unmapping(offset: nat, nBytes: nat)
    | Shrinking(nBytes: nat)
    | Restoring(size: nat, available: bool, mapped: bool)

  predicate Possible(step: Step) {
    match step
    case Allocate(nBytes, kind, _) => nBytes < U32 && (kind == Plain || nBytes == Needs(kind))
    case Map(nBytes, _) => nBytes < U32
    case Unmapping(offset, nBytes) => offset < U32 && nBytes < U32
    case Shrinking(nBytes) => nBytes < U32
    case Restoring(size, _, _) => size < U32
  }

  /** What lies above the break is given back. */
  function Clipped(live: seq<Region>, brk: nat): seq<Region> {
    if live == [] then []
    else (if live[0].base < brk then [Cut(live[0], brk)] else []) + Clipped(live[1..], brk)
  }

  function Cut(r: Region, brk: nat): Region
    requires r.base < brk
  {
    if Top(r) <= brk then r else r.(size := brk - r.base)
  }

  /** Where the guard regions of a guarded region begin. */
  function GuardStarts(r: Region): seq<nat> {
    if r.kind == Plain then [] else [r.base, ToU32(r.base + Needs(r.kind) - GUARD)]
  }

  function GuardsAt(starts: seq<nat>): seq<Range> {
    seq(|starts|, i requires 0 <= i < |starts| => Range(starts[i], starts[i] + GUARD))
  }

  /** Memory handed out, its guards not yet made. */
  function HandedOut(w: World, nBytes: nat, kind: Kind, available: bool): World {
    var g := Grow(w.m, nBytes, available);
    w.(m := g.m, live := if g.r.Ok? && nBytes > 0 then w.live + [Region(g.r.value, nBytes, kind)] else w.live)
  }

  function Allocated(w: World, nBytes: nat, kind: Kind, available: bool): World {
    var g := Grow(w.m, nBytes, available);
    var t := HandedOut(w, nBytes, kind, available);
    if g.r.Ok? && nBytes > 0 then t.(guards := w.guards + GuardsAt(GuardStarts(Region(g.r.value, nBytes, kind)))) else t
  }

  /** Lowering the break gives regions back, and leaves what was made read-only as it is. */
  function Lowered(w: World, m: Memory): World {
    w.(m := m, live := if m.brk < w.m.brk then Clipped(w.live, m.brk) else w.live)
  }

  /** Mapping a snapshot replaces the pages below its size, which are writable then. */
  function CutBelow(guards: seq<Range>, size: nat): (cut: seq<Range>)
    ensures |cut| == |guards|
    ensures forall k :: 0 <= k < |guards| ==> cut[k] == Range(Max(guards[k].base, size), Max(guards[k].top, size))
  {
    seq(|guards|, k requires 0 <= k < |guards| => Range(Max(guards[k].base, size), Max(guards[k].top, size)))
  }

  function Max(a: nat, b: nat): nat {
    if a < b then b else a
  }

  function Restored(w: World, size: nat, available: bool, mapped: bool): World {
    var g := Restore(w.m, size, available);
    var t := Lowered(w, g.m);
    if g.r.Ok? && mapped then t.(guards := CutBelow(w.guards, size)) else t
  }

  function Effect(w: World, step: Step): World {
    match step
    case Allocate(nBytes, kind, available) => Allocated(w, nBytes, kind, available)
    case Map(nBytes, available) => Allocated(w, RoundUp(nBytes), Plain, available)
    case Unmapping(offset, nBytes) => Lowered(w, Unmap(w.m, offset, nBytes).m)
    case Shrinking(nBytes) => Lowered(w, Shrink(w.m, nBytes).m)
    case Restoring(size, available, mapped) => Restored(w, size, available, mapped)
  }

  /** The regions lie one above the other below the break, and guarded ones have no more than their full size. */
  predicate Laid(live: seq<Region>, brk: nat) {
    && (forall i :: 0 <= i < |live| ==> Placed(live[i], brk))
    && (forall i, j :: 0 <= i < j < |live| ==> Top(live[i]) <= live[j].base)
  }

  predicate Placed(r: Region, brk: nat) {
    0 < r.size && Top(r) <= brk && (r.kind == Plain || r.size <= Needs(r.kind))
  }

  predicate Sound(w: World) {
    Valid(w.m) && Laid(w.live, w.m.brk)
  }

  /** A growth whose end, as a number of 32 bits, wraps around. */
  predicate Wraps(w: World, step: Step) {
    match step
    case Allocate(nBytes, _, _) => Aligned(nBytes) && w.m.brk + nBytes >= U32
    case Map(nBytes, _) => w.m.brk + RoundUp(nBytes) >= U32
    case Unmapping(_, _) => false
    case Shrinking(_) => false
    case Restoring(_, _, _) => false
  }

  lemma PrependedLaid(r: Region, rest: seq<Region>, brk: nat)
    requires Placed(r, brk) && Laid(rest, brk) && forall i :: 0 <= i < |rest| ==> Top(r) <= rest[i].base
    ensures Laid([r] + rest, brk)
  {
  }

  lemma TailLaid(live: seq<Region>, brk: nat)
    requires Laid(live, brk) && live != []
    ensures Laid(live[1..], brk) && forall i :: 0 <= i < |live[1..]| ==> Top(live[0]) <= live[1..][i].base
  {
  }

  lemma CutPlaced(r: Region, brk: nat, newBrk: nat)
    requires Placed(r, brk) && r.base < newBrk
    ensures Placed(Cut(r, newBrk), newBrk) && Cut(r, newBrk).base == r.base && Top(Cut(r, newBrk)) <= Top(r)
  {
  }

  lemma {:induction false} ClippedLaid(live: seq<Region>, brk: nat, low: nat, newBrk: nat)
    requires Laid(live, brk) && forall i :: 0 <= i < |live| ==> low <= live[i].base
    ensures Laid(Clipped(live, newBrk), newBrk)
    ensures forall i :: 0 <= i < |Clipped(live, newBrk)| ==> low <= Clipped(live, newBrk)[i].base
    decreases |live|
  {
    if live != [] {
      var r, rest := live[0], Clipped(live[1..], newBrk);
      assert Placed(r, brk);
      TailLaid(live, brk);
      hide Laid, Placed, Cut;
      ClippedLaid(live[1..], brk, Top(r), newBrk);
      if r.base < newBrk {
        CutPlaced(r, brk, newBrk);
        PrependedLaid(Cut(r, newBrk), rest, newBrk);
      } else {
        assert [] + rest == rest;
      }
    }
  }

  predicate Holds(live: seq<Region>, address: nat) {
    exists k :: 0 <= k < |live| && live[k].base <= address < Top(live[k])
  }

  lemma HoldsMore(first: seq<Region>, rest: seq<Region>, address: nat)
    ensures Holds(first + rest, address) <==> Holds(first, address) || Holds(rest, address)
  {
    var all := first + rest;
    if k :| 0 <= k < |first| && first[k].base <= address < Top(first[k]) {
      assert all[k] == first[k];
    }
    if k :| 0 <= k < |rest| && rest[k].base <= address < Top(rest[k]) {
      assert all[|first| + k] == rest[k];
    }
  }

  /** What is still handed out after the break was lowered is what was and lies below the new break. */
  lemma {:induction false} ClippedHolds(live: seq<Region>, brk: nat, address: nat)
    ensures Holds(Clipped(live, brk), address) <==> Holds(live, address) && address < brk
    decreases |live|
  {
    if live != [] {
      var first := if live[0].base < brk then [Cut(live[0], brk)] else [];
      ClippedHolds(live[1..], brk, address);
      hide Clipped;
      HoldsMore(first, Clipped(live[1..], brk), address);
      HoldsMore([live[0]], live[1..], address);
      assert live == [live[0]] + live[1..];
      assert Clipped(live, brk) == first + Clipped(live[1..], brk);
      CutHolds(live[0], brk, address);
    }
  }

  lemma CutHolds(r: Region, brk: nat, address: nat)
    ensures Holds(if r.base < brk then [Cut(r, brk)] else [], address) <==> Holds([r], address) && address < brk
  {
    if r.base < brk {
      assert [Cut(r, brk)][0] == Cut(r, brk);
    }
    assert [r][0] == r;
  }

  lemma Appended(live: seq<Region>, oldBrk: nat, r: Region, brk: nat)
    requires Laid(live, oldBrk) && oldBrk <= r.base
    requires r.kind == Plain || r.size <= Needs(r.kind)
    ensures r.size > 0 && Top(r) <= brk ==> Laid(live + [r], brk)
  {
  }

  lemma Raised(live: seq<Region>, oldBrk: nat, brk: nat)
    requires Laid(live, oldBrk) && oldBrk <= brk
    ensures Laid(live, brk)
  {
  }

  lemma AllocateSound(w: World, nBytes: nat, kind: Kind, available: bool)
    requires Sound(w) && Possible(Allocate(nBytes, kind, available))
    ensures Sound(Allocated(w, nBytes, kind, available)) <==> !Wraps(w, Allocate(nBytes, kind, available))
  {
    GrowKeepsValid(w.m, nBytes, available);
    GrowExact(w.m, nBytes, available);
    var g := Grow(w.m, nBytes, available);
    var t := Allocated(w, nBytes, kind, available);
    if Aligned(nBytes) && Size(w.m) < w.m.brk + nBytes < U32 {
      ExtendExact(w.m, nBytes, available);
    }
    hide Grow, Extend, Laid;
    if nBytes == 0 {
      GrowNothing(w.m, available);
    } else if g.r.Ok? {
      var r := Region(g.r.value, nBytes, kind);
      if Wraps(w, Allocate(nBytes, kind, available)) {
        AboveBreak(w.live, r, g.m.brk);
      } else {
        Appended(w.live, w.m.brk, r, g.m.brk);
      }
    }
  }

  lemma GrowNothing(m: Memory, available: bool)
    ensures Grow(m, 0, available) == Grown(m, Ok(m.brk))
  {
  }

  lemma AboveBreak(live: seq<Region>, r: Region, brk: nat)
    requires Top(r) > brk
    ensures !Laid(live + [r], brk)
  {
    assert (live + [r])[|live|] == r;
  }

  lemma LoweredSound(w: World, m: Memory)
    requires Sound(w) && Valid(m)
    ensures Sound(Lowered(w, m))
  {
    if m.brk < w.m.brk {
      ClippedLaid(w.live, w.m.brk, 0, m.brk);
    } else {
      Raised(w.live, w.m.brk, m.brk);
    }
  }

  /** A step keeps the regions laid out exactly if it is not a growth that wraps around. */
  lemma StepSound(w: World, step: Step)
    requires Sound(w) && Possible(step)
    ensures Sound(Effect(w, step)) <==> !Wraps(w, step)
  {
    hide Laid, Grow, Shrink, Unmap, Restore, RoundUp;
    match step
    case Allocate(nBytes, kind, available) => AllocateSound(w, nBytes, kind, available);
    case Map(nBytes, available) =>
      RoundUpAligned(nBytes);
      AllocateSound(w, RoundUp(nBytes), Plain, available);
    case Unmapping(offset, nBytes) =>
      UnmapExact(w.m, offset, nBytes);
      LoweredSound(w, Unmap(w.m, offset, nBytes).m);
    case Shrinking(nBytes) =>
      ShrinkExact(w.m, nBytes);
      LoweredSound(w, Shrink(w.m, nBytes).m);
    case Restoring(size, available, _) =>
      RestoreExact(w.m, size, available);
      LoweredSound(w, Restore(w.m, size, available).m);
  }

  lemma RoundUpAligned(nBytes: nat)
    requires nBytes < U32
    ensures Aligned(RoundUp(nBytes)) && RoundUp(nBytes) < U32
  {
    RoundUpExact(nBytes);
  }

  // ------------------------------------------------------------------- runs

  /** Memory starts with its break at the top and nothing handed out. */
  predicate IsStart(w: World) {
    w.m.brk == ToU32(Size(w.m)) && w.m.pages <= w.m.max <= MAX_PAGES && w.live == [] && w.guards == []
  }

  lemma StartSound(w: World)
    requires IsStart(w)
    ensures Sound(w)
  {
  }

  predicate IsRun(worlds: seq<World>, steps: seq<Step>) {
    && |worlds| == |steps| + 1 && IsStart(worlds[0])
    && forall k :: 0 <= k < |steps| ==> StepAt(worlds, steps, k)
  }

  predicate StepAt(worlds: seq<World>, steps: seq<Step>, k: nat)
    requires k < |steps| && |worlds| == |steps| + 1
  {
    Possible(steps[k]) && worlds[k + 1] == Effect(worlds[k], steps[k])
  }

  /** In every run, wrapping or not, the break stays page aligned and within the memory, and the memory within the
      maximum it started with. */
  lemma {:induction false} AlwaysValid(worlds: seq<World>, steps: seq<Step>, k: nat)
    requires IsRun(worlds, steps) && k < |worlds|
    ensures Valid(worlds[k].m) && worlds[k].m.max == worlds[0].m.max
  {
    if k == 0 {
      StartSound(worlds[0]);
    } else {
      AlwaysValid(worlds, steps, k - 1);
      assert StepAt(worlds, steps, k - 1);
      hide IsRun;
      StepValid(worlds[k - 1], steps[k - 1]);
    }
  }

  lemma StepValid(w: World, step: Step)
    requires Valid(w.m) && Possible(step)
    ensures Valid(Effect(w, step).m) && Effect(w, step).m.max == w.m.max
  {
    hide Grow, Shrink, Unmap, Restore, RoundUp, Valid;
    match step
    case Allocate(nBytes, _, available) => GrowKeepsValid(w.m, nBytes, available);
    case Map(nBytes, available) =>
      RoundUpAligned(nBytes);
      GrowKeepsValid(w.m, RoundUp(nBytes), available);
    case Unmapping(offset, nBytes) => UnmapExact(w.m, offset, nBytes);
    case Shrinking(nBytes) => ShrinkExact(w.m, nBytes);
    case Restoring(size, available, _) => RestoreExact(w.m, size, available);
  }

  /** In every run the live regions lie in order below the break at every moment exactly if no growth wraps around. */
  lemma AlwaysLaid(worlds: seq<World>, steps: seq<Step>)
    requires IsRun(worlds, steps)
    ensures (forall k :: 0 <= k < |worlds| ==> Sound(worlds[k]))
       <==> (forall k :: 0 <= k < |steps| ==> !Wraps(worlds[k], steps[k]))
  {
    if forall k :: 0 <= k < |worlds| ==> Sound(worlds[k]) {
      forall k | 0 <= k < |steps| ensures !Wraps(worlds[k], steps[k]) {
        assert StepAt(worlds, steps, k) && Sound(worlds[k + 1]);
        hide Sound, Wraps, Effect;
        StepSound(worlds[k], steps[k]);
      }
    }
    if forall k :: 0 <= k < |steps| ==> !Wraps(worlds[k], steps[k]) {
      forall k | 0 <= k < |worlds| ensures Sound(worlds[k]) {
        LaidSoFar(worlds, steps, k);
      }
    }
  }

  lemma {:induction false} LaidSoFar(worlds: seq<World>, steps: seq<Step>, k: nat)
    requires IsRun(worlds, steps) && k < |worlds|
    requires forall j :: 0 <= j < k ==> !Wraps(worlds[j], steps[j])
    ensures Sound(worlds[k])
  {
    if k == 0 {
      StartSound(worlds[0]);
    } else {
      LaidSoFar(worlds, steps, k - 1);
      assert StepAt(worlds, steps, k - 1);
      hide IsRun, Sound, Wraps, Effect;
      StepSound(worlds[k - 1], steps[k - 1]);
    }
  }

  // ------------------------------------------------------------ guarded layout

  /** The parts of a guarded region, as far as it is below the break; all of a plain one is usable. */
  datatype Part = Below | Usable | Above

  function PartRange(r: Region, part: Part): Range {
    if r.kind == Plain then if part == Usable then Range(r.base, Top(r)) else Range(0, 0)
    else
      match part
      case Below => Range(r.base, Min(r.base + GUARD, Top(r)))
      case Usable => Range(r.base + GUARD, Min(r.base + Needs(r.kind) - GUARD, Top(r)))
      case Above => Range(r.base + Needs(r.kind) - GUARD, Top(r))
  }

  predicate Within(x: nat, range: Range) {
    range.base <= x < range.top
  }

  predicate InPart(r: Region, part: Part, x: nat) {
    Within(x, PartRange(r, part))
  }

  /** Every address is in at most one part of one region, and one that is in a part is in provisioned memory: stacks,
      modules and other regions are pairwise disjoint, and no guard of a live region overlaps any of them or another
      guard. */
  lemma PartsDisjoint(w: World, i: nat, j: nat, p: Part, q: Part, x: nat)
    requires Sound(w) && i < |w.live| && j < |w.live|
    requires InPart(w.live[i], p, x) && InPart(w.live[j], q, x)
    ensures i == j && p == q && x < w.m.brk <= Size(w.m)
  {
    assert Placed(w.live[i], w.m.brk) && Placed(w.live[j], w.m.brk);
    OneAboveTheOther(w.live, w.m.brk, i, j);
    hide Laid;
  }

  lemma OneAboveTheOther(live: seq<Region>, brk: nat, i: nat, j: nat)
    requires Laid(live, brk) && i < |live| && j < |live|
    ensures i == j || Top(live[i]) <= live[j].base || Top(live[j]) <= live[i].base
  {
  }

  /** The usable part of a guarded region that is whole has its full size, and the whole guards are directly below and
      above it. */
  lemma GuardsAround(w: World, i: nat)
    requires Sound(w) && i < |w.live| && w.live[i].kind != Plain && w.live[i].size == Needs(w.live[i].kind)
    ensures var r := w.live[i];
      var bottom, top := r.base + GUARD, r.base + GUARD + Needs(r.kind) - 2 * GUARD;
      && PartRange(r, Usable) == Range(bottom, top)
      && PartRange(r, Below) == Range(bottom - GUARD, bottom) && PartRange(r, Above) == Range(top, top + GUARD)
  {
    assert Placed(w.live[i], w.m.brk);
  }

  // -------------------------------------------------------- what a wrap does

  /** A growth that wraps hands out memory that does not exist: the region's end is beyond 2^32, and the break, from
      which the next growth hands out memory, falls below the region's base. */
  lemma WrapLeavesMemory(w: World, nBytes: nat, kind: Kind, available: bool)
    requires Sound(w) && Possible(Allocate(nBytes, kind, available)) && Wraps(w, Allocate(nBytes, kind, available))
    ensures var t, r := Allocated(w, nBytes, kind, available), Region(w.m.brk, nBytes, kind);
      && t.live == w.live + [r] && Top(r) >= U32 && t.m == w.m.(brk := Top(r) - U32) && t.m.brk < r.base
  {
    GrowExact(w.m, nBytes, available);
    hide Grow;
  }

  /** Of memory given out afterwards, what reaches into a region that was live before the wrap overlaps that region. */
  lemma OverlapAfterWrap(w: World, nBytes: nat, available: bool, more: nat, k: nat)
    requires Sound(w) && nBytes < U32 && Wraps(w, Allocate(nBytes, Plain, available)) && k < |w.live|
    requires Aligned(more) && 0 < more
    requires var brk := w.m.brk + nBytes - U32;
      brk + more <= Size(w.m) && brk + more < U32 && w.live[k].base < brk + more && brk < Top(w.live[k])
    ensures var t := Allocated(w, nBytes, Plain, available);
      var u := Allocated(t, more, Plain, available);
      && |u.live| == |w.live| + 2 && u.live[k] == w.live[k]
      && Overlap(u.live[k], u.live[|w.live| + 1])
  {
    WrapLeavesMemory(w, nBytes, Plain, available);
    var t := Allocated(w, nBytes, Plain, available);
    GrowKeepsValid(w.m, nBytes, available);
    GrowExact(t.m, more, available);
    hide Grow;
  }

  predicate Overlap(a: Region, b: Region) {
    Max(a.base, b.base) < Min(Top(a), Top(b))
  }

  const UPPER := Region(PAGE, PAGE, Plain)
  const BEYOND := Region(2 * PAGE, U32 - PAGE, Plain)

  function TwoPages(brk: nat, live: seq<Region>): World {
    World(Memory(brk, 2, 2), live, [])
  }

  lemma WrappingSteps()
    ensures Effect(TwoPages(2 * PAGE, []), Shrinking(PAGE)) == TwoPages(PAGE, [])
    ensures Effect(TwoPages(PAGE, []), Allocate(PAGE, Plain, true)) == TwoPages(2 * PAGE, [UPPER])
    ensures Effect(TwoPages(2 * PAGE, [UPPER]), Allocate(U32 - PAGE, Plain, true)) == TwoPages(PAGE, [UPPER, BEYOND])
    ensures Effect(TwoPages(PAGE, [UPPER, BEYOND]), Allocate(PAGE, Plain, true))
      == TwoPages(2 * PAGE, [UPPER, BEYOND, UPPER])
  {
    assert GuardsAt([]) == [];
  }

  /** Two pages, the upper one handed out again; a growth of all but one page of 2^32 succeeds, and one of a page after
      it hands out the same page a second time. */
  lemma WrappingOverlaps()
    ensures exists worlds, steps :: IsRun(worlds, steps) && OverlapsAtEnd(worlds)
  {
    var steps := [Shrinking(PAGE), Allocate(PAGE, Plain, true), Allocate(U32 - PAGE, Plain, true),
                  Allocate(PAGE, Plain, true)];
    var worlds := [TwoPages(2 * PAGE, []), TwoPages(PAGE, []), TwoPages(2 * PAGE, [UPPER]),
                   TwoPages(PAGE, [UPPER, BEYOND]), TwoPages(2 * PAGE, [UPPER, BEYOND, UPPER])];
    WrappingSteps();
    hide Effect;
    assert StepAt(worlds, steps, 0) && StepAt(worlds, steps, 1) && StepAt(worlds, steps, 2) && StepAt(worlds, steps, 3);
    assert IsRun(worlds, steps);
    assert Overlap(worlds[4].live[0], worlds[4].live[2]);
  }

  predicate OverlapsAtEnd(worlds: seq<World>) {
    worlds != [] &&
    var live := worlds[|worlds| - 1].live;
    exists i, j :: 0 <= i < j < |live| && Overlap(live[i], live[j])
  }
}
