/** The break of a module's linear memory, in the 32-bit arithmetic of the code. */
module LinearMemory {
  import opened Wrappers
  import opened Bytes

  const PAGE: nat := 65536
  /** The most pages a 32-bit memory can have. */
  const MAX_PAGES: nat := 65536

  function ToU32(n: int): (r: nat)
    ensures r < U32
  {
    n % U32
  }

  predicate Aligned(n: int) {
    n % PAGE == 0
  }

  function PagesForBytes(nBytes: int): nat {
    (ToU32(nBytes) + PAGE - 1) / PAGE
  }

  function RoundUp(nBytes: nat): nat {
    ToU32(PagesForBytes(nBytes) * PAGE)
  }

  /** The current break and the pages provisioned, of at most `max`. */
  datatype Memory = Memory(brk: nat, pages: nat, max: nat)

  function Size(m: Memory): nat {
    m.pages * PAGE
  }

  predicate Valid(m: Memory) {
    Aligned(m.brk) && m.brk <= Size(m) && m.brk < U32 && m.pages <= m.max <= MAX_PAGES
  }

  datatype Grown = Grown(m: Memory, r: Result<nat, string>)

  /** The runtime provisions pages if the maximum allows it and the host can, and says where they begin. */
  function Provision(m: Memory, pageChange: nat, available: bool): Option<Memory> {
    if m.pages + pageChange > m.max || !available then None else Some(m.(pages := m.pages + pageChange))
  }

  function Grow(m: Memory, nBytes: nat, available: bool): Grown {
    if nBytes == 0 then Grown(m, Ok(m.brk))
    else
      var newBrk := ToU32(m.brk + nBytes);
      if !Aligned(newBrk) then Grown(m, Err("Non-wasm-page-aligned memory growth"))
      else if newBrk <= Size(m) then Grown(m.(brk := newBrk), Ok(m.brk))
      else Extend(m, nBytes, available)
  }

  /** Growth beyond what is provisioned. The checks at the end come after the memory has changed. */
  function Extend(m: Memory, nBytes: nat, available: bool): Grown {
    var newBytes := Size(m) + nBytes;
    var newPages := PagesForBytes(newBytes);
    if newPages > m.max then Grown(m, Err("Mmap exceeding max"))
    else
      var pageChange := (newPages - m.pages) % U64;
      match Provision(m, pageChange, available)
      case None => Grown(m, Err("Unable to grow memory"))
      case Some(t) =>
        var newMemBase := ToU32(Size(m));
        var after := t.(brk := ToU32(Size(t)));
        if newMemBase != Size(m) || after.brk != newBytes then Grown(after, Err("Memory growth discrepancy"))
        else Grown(after, Ok(newMemBase))
  }

  function Shrink(m: Memory, nBytes: nat): Grown {
    if !Aligned(nBytes) then Grown(m, Err("New break not page aligned"))
    else if nBytes > m.brk then Grown(m, Err("Shrinking by more than current brk"))
    else Grown(m.(brk := m.brk - nBytes), Ok(m.brk))
  }

  function Unmap(m: Memory, offset: nat, nBytes: nat): Grown {
    if nBytes == 0 then Grown(m, Ok(m.brk))
    else if !Aligned(offset) then Grown(m, Err("Non-page aligned munmap address"))
    else
      var unmapTop := ToU32(offset + RoundUp(nBytes));
      if unmapTop > m.max * PAGE then Grown(m, Err("munmapping outside memory max"))
      else if unmapTop == m.brk then Shrink(m, RoundUp(nBytes))
      else Grown(m, Ok(m.brk))
  }

  function Mmap(m: Memory, nBytes: nat, available: bool): Grown {
    Grow(m, RoundUp(nBytes), available)
  }

  /** The break is brought to the size of a snapshot. */
  function Restore(m: Memory, size: nat, available: bool): Grown {
    if size == m.brk then Grown(m, Ok(m.brk))
    else if size > m.brk then Grow(m, ToU32(size - m.brk), available)
    else Shrink(m, m.brk - size)
  }

  // --------------------------------------------------------------- operations

  lemma RoundUpExact(nBytes: nat)
    requires nBytes < U32
    ensures nBytes <= U32 - PAGE ==>
      Aligned(RoundUp(nBytes)) && nBytes <= RoundUp(nBytes) < nBytes + PAGE
    ensures nBytes > U32 - PAGE ==> RoundUp(nBytes) == 0
  {
    var pages := (nBytes + PAGE - 1) / PAGE;
    assert PagesForBytes(nBytes) == pages;
    if nBytes > U32 - PAGE {
      assert pages == 65536;
    } else {
      assert pages * PAGE <= U32 - PAGE + PAGE;
      assert nBytes <= pages * PAGE < nBytes + PAGE;
    }
  }

  lemma AlignedParts(a: nat, b: nat)
    ensures Aligned(a) ==> (Aligned(a + b) <==> Aligned(b)) && (b <= a ==> (Aligned(a - b) <==> Aligned(b)))
  {
    if Aligned(a) {
      var n, q := a / PAGE, b / PAGE;
      assert a == PAGE * n && b == PAGE * q + b % PAGE;
      assert a + b == PAGE * (n + q) + b % PAGE;
      assert Aligned(a + b) <==> b % PAGE == 0;
      assert a - b == PAGE * (n - q) - b % PAGE;
    }
  }

  lemma AlignedWrapped(n: nat)
    requires n < 2 * U32
    ensures ToU32(n) == (if n < U32 then n else n - U32) && (Aligned(ToU32(n)) <==> Aligned(n))
  {
  }

  lemma PagesExact(nBytes: nat)
    requires Aligned(nBytes) && nBytes < U32
    ensures PagesForBytes(nBytes) * PAGE == nBytes
  {
  }

  lemma PageChange(newPages: nat, pages: nat)
    requires newPages <= 2 * MAX_PAGES && pages <= MAX_PAGES
    ensures (newPages - pages) % U64
      == if newPages >= pages then newPages - pages else newPages - pages + U64
  {
  }

  /** Growth beyond what is provisioned succeeds exactly if the new size is below 2^32 and at most the maximum, and
      the host can; it then ends at that size, and otherwise changes nothing. */
  lemma ExtendExact(m: Memory, nBytes: nat, available: bool)
    requires Valid(m) && Aligned(nBytes) && Size(m) < m.brk + nBytes < U32
    ensures var g, newBytes := Extend(m, nBytes, available), Size(m) + nBytes;
      if newBytes < U32 && newBytes <= m.max * PAGE && available
      then g.r == Ok(Size(m)) && g.m.brk == Size(g.m) == newBytes && g.m.max == m.max
      else g.r.Err? && g.m == m
  {
    var newBytes := Size(m) + nBytes;
    AlignedParts(Size(m), nBytes);
    AlignedWrapped(newBytes);
    PagesExact(ToU32(newBytes));
    var newPages := PagesForBytes(newBytes);
    assert newPages * PAGE == ToU32(newBytes);
    PageChange(newPages, m.pages);
    hide ToU32, PagesForBytes, Aligned;
    if newBytes < U32 {
      assert newPages * PAGE == newBytes;
    } else {
      assert newPages * PAGE == newBytes - U32 < Size(m);
      assert newPages < m.pages;
    }
  }

  /** What growing by a number of bytes comes to. Where the 32-bit sum wraps, the break falls. */
  lemma GrowExact(m: Memory, nBytes: nat, available: bool)
    requires Valid(m) && nBytes < U32
    ensures var g, top := Grow(m, nBytes, available), m.brk + nBytes;
      && (!Aligned(nBytes) ==> g.r.Err? && g.m == m)
      && (Aligned(nBytes) && top >= U32 ==>
            g.r == Ok(m.brk) && g.m == m.(brk := top - U32) && g.m.brk < m.brk)
      && (Aligned(nBytes) && top <= Size(m) && top < U32 ==> g.r == Ok(m.brk) && g.m == m.(brk := top))
      && (Aligned(nBytes) && Size(m) < top < U32 ==> g == Extend(m, nBytes, available))
  {
    AlignedParts(m.brk, nBytes);
    AlignedWrapped(m.brk + nBytes);
  }

  /** Whatever is called with whatever arguments, the break stays aligned and within the memory, and the memory within
      its maximum. */
  lemma GrowKeepsValid(m: Memory, nBytes: nat, available: bool)
    requires Valid(m) && nBytes < U32
    ensures Valid(Grow(m, nBytes, available).m) && Grow(m, nBytes, available).m.max == m.max
  {
    GrowExact(m, nBytes, available);
    AlignedParts(m.brk, nBytes);
    hide Grow, Extend;
    if Aligned(nBytes) && Size(m) < m.brk + nBytes < U32 {
      ExtendExact(m, nBytes, available);
      AlignedParts(Size(m), nBytes);
    } else if Aligned(nBytes) && m.brk + nBytes >= U32 {
      AlignedWrapped(m.brk + nBytes);
    }
  }

  lemma ShrinkExact(m: Memory, nBytes: nat)
    requires Valid(m)
    ensures var g := Shrink(m, nBytes);
      && Valid(g.m) && g.m == m.(brk := g.m.brk) && (g.r.Ok? <==> Aligned(nBytes) && nBytes <= m.brk)
      && (g.r.Ok? ==> g.r.value == m.brk)
      && g.m.brk == if g.r.Ok? then m.brk - nBytes else m.brk
  {
    AlignedParts(m.brk, nBytes);
  }

  /** Growing and then shrinking by as much gives the old break back exactly if the growth did not wrap and stayed in
      the memory provisioned or began at its top; the shrink then returns the end of what the growth handed out. */
  lemma GrowThenShrink(m: Memory, nBytes: nat, available: bool)
    requires Valid(m) && 0 < nBytes < U32 && Grow(m, nBytes, available).r.Ok?
    ensures var g := Grow(m, nBytes, available);
      var s := Shrink(g.m, nBytes);
      && (s.m.brk == m.brk <==> m.brk + nBytes < U32 && (m.brk + nBytes <= Size(m) || m.brk == Size(m)))
      && (s.m.brk == m.brk ==> s.r == Ok(g.r.value + nBytes) && g.r.value == m.brk)
      && (s.r.Err? <==> m.brk + nBytes >= U32)
  {
    GrowExact(m, nBytes, available);
    AlignedParts(m.brk, nBytes);
    GrowKeepsValid(m, nBytes, available);
    ShrinkExact(Grow(m, nBytes, available).m, nBytes);
    if Aligned(nBytes) && Size(m) < m.brk + nBytes < U32 {
      ExtendExact(m, nBytes, available);
    }
    hide Grow, Shrink, Extend;
  }

  /** Unmapping gives memory back exactly if what is unmapped, rounded up, ends at the break; the break then falls to
      where it begins. A range that wraps around is never given back. It is an error exactly if there is something to
      unmap and its address is not aligned, its end, wrapped, is beyond the maximum, or it wraps around to the break. */
  lemma UnmapExact(m: Memory, offset: nat, nBytes: nat)
    requires Valid(m) && offset < U32 && nBytes < U32
    ensures var g, top := Unmap(m, offset, nBytes), offset + RoundUp(nBytes);
      && Valid(g.m) && g.m == m.(brk := g.m.brk)
      && (g.m.brk == if nBytes > 0 && Aligned(offset) && top == m.brk then offset else m.brk)
      && (g.r.Ok? ==> g.r.value == m.brk)
      && (g.r.Err? <==>
            && nBytes > 0
            && (!Aligned(offset) || ToU32(top) > m.max * PAGE || top == m.brk + U32))
  {
    RoundUpExact(nBytes);
    AlignedWrapped(offset + RoundUp(nBytes));
    hide RoundUp;
    ShrinkExact(m, RoundUp(nBytes));
    assert m.brk <= m.max * PAGE;
  }

  /** Mapping rounds up to pages, and so gives at least what was asked for, exactly if that is at most 2^32 less a page;
      above that it rounds to nothing and hands out no memory. */
  lemma MmapExact(m: Memory, nBytes: nat, available: bool)
    requires Valid(m) && 0 < nBytes < U32
    ensures RoundUp(nBytes) >= nBytes <==> nBytes <= U32 - PAGE
    ensures nBytes > U32 - PAGE ==> Mmap(m, nBytes, available) == Grown(m, Ok(m.brk))
    ensures nBytes <= U32 - PAGE ==> Aligned(RoundUp(nBytes)) && RoundUp(nBytes) < nBytes + PAGE
    ensures Mmap(m, nBytes, available).r.Ok? && nBytes <= U32 - PAGE && m.brk + RoundUp(nBytes) < U32 ==>
      var g := Mmap(m, nBytes, available); m.brk <= g.r.value && g.r.value + nBytes <= g.m.brk
  {
    RoundUpExact(nBytes);
    var size := RoundUp(nBytes);
    if nBytes <= U32 - PAGE && m.brk + size < U32 {
      GrowExact(m, size, available);
      if Size(m) < m.brk + size {
        ExtendExact(m, size, available);
      }
    }
    hide Grow, Extend, RoundUp;
  }

  /** After a restore the break is at least the snapshot's size, and equals it exactly if it did not have to grow beyond
      the memory provisioned, or did so from the very top of it. */
  lemma RestoreExact(m: Memory, size: nat, available: bool)
    requires Valid(m) && size < U32
    ensures var g := Restore(m, size, available);
      && Valid(g.m) && g.m.max == m.max && (g.r.Err? ==> g.m == m)
      && (g.r.Ok? ==> g.m.brk >= size && (g.m.brk == size <==> size <= Size(m) || m.brk == Size(m)))
  {
    hide Grow, Extend, Shrink;
    if size > m.brk {
      var n := size - m.brk;
      GrowKeepsValid(m, n, available);
      GrowExact(m, n, available);
      if Aligned(n) && size > Size(m) {
        ExtendExact(m, n, available);
      }
    } else if size < m.brk {
      ShrinkExact(m, m.brk - size);
    }
  }

  /** A break one page below the top of three pages, and a snapshot of four: the restore ends at five. */
  lemma RestoreOvershoots()
    ensures var g := Restore(Memory(2 * PAGE, 3, MAX_PAGES), 4 * PAGE, true);
      g.r.Ok? && g.m.brk == 5 * PAGE
  {
    var m := Memory(2 * PAGE, 3, MAX_PAGES);
    GrowExact(m, 2 * PAGE, true);
    ExtendExact(m, 2 * PAGE, true);
    hide Grow, Extend;
  }
}
