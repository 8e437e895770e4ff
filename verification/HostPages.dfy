/** Host page arithmetic for lazily allocated memory. */
module HostPages {

  type pos = n: nat | n > 0 witness 1

  /** What the operating system reports; nothing depends on its value. */
  const HOST_PAGE_SIZE: pos

  function PageOf(offset: nat): nat {
    offset / HOST_PAGE_SIZE
  }

  function RequiredHostPages(nBytes: nat): nat {
    (nBytes + HOST_PAGE_SIZE - 1) / HOST_PAGE_SIZE
  }

  datatype AlignedChunk = AlignedChunk(
    originalOffset: nat, originalLength: nat,
    nBytesOffset: nat, nBytesLength: nat, nPagesOffset: nat, nPagesLength: nat, offsetRemainder: nat)

  lemma DivBounds(n: nat, d: pos)
    ensures d * (n / d) <= n < d * (n / d) + d
  {
  }

  lemma MulMonotone(a: nat, b: nat, d: pos)
    ensures a <= b <==> d * a <= d * b
  {
    if a <= b {
      assert d * b == d * a + d * (b - a);
    } else {
      assert d * a == d * b + d * (a - b);
    }
  }

  /** The quotient is the only number of whole pages that fits. */
  lemma QuotientUnique(n: nat, q: nat, d: pos)
    requires d * q <= n < d * q + d
    ensures n / d == q
  {
    DivBounds(n, d);
    if n / d < q {
      MulMonotone(n / d + 1, q, d);
    } else if q < n / d {
      MulMonotone(q + 1, n / d, d);
    }
  }

  lemma RoundUpBounds(n: nat)
    ensures n <= HOST_PAGE_SIZE * RequiredHostPages(n) < n + HOST_PAGE_SIZE
  {
    DivBounds(n + HOST_PAGE_SIZE - 1, HOST_PAGE_SIZE);
  }

  lemma PageOrder(a: nat, b: nat)
    requires a <= b
    ensures PageOf(a) <= RequiredHostPages(b)
  {
    DivBounds(a, HOST_PAGE_SIZE);
    RoundUpBounds(b);
    MulMonotone(PageOf(a), RequiredHostPages(b), HOST_PAGE_SIZE);
  }

  function GetPageAlignedChunk(offset: nat, length: nat): (c: AlignedChunk)
    ensures c.originalOffset == offset && c.originalLength == length
    ensures c.nPagesOffset + c.nPagesLength == RequiredHostPages(offset + length)
    ensures c.nBytesOffset + c.offsetRemainder == offset
  {
    var nPagesOffset := PageOf(offset);
    var nPagesUpper := RequiredHostPages(offset + length);
    PageOrder(offset, offset + length);
    DivBounds(offset, HOST_PAGE_SIZE);
    AlignedChunk(offset, length,
                 nPagesOffset * HOST_PAGE_SIZE, (nPagesUpper - nPagesOffset) * HOST_PAGE_SIZE,
                 nPagesOffset, nPagesUpper - nPagesOffset, offset - nPagesOffset * HOST_PAGE_SIZE)
  }

  predicate Aligned(offset: nat) {
    offset == HOST_PAGE_SIZE * PageOf(offset)
  }

  lemma MultipleAligned(q: nat)
    ensures PageOf(HOST_PAGE_SIZE * q) == q && Aligned(HOST_PAGE_SIZE * q)
  {
    QuotientUnique(HOST_PAGE_SIZE * q, q, HOST_PAGE_SIZE);
  }

  /** The aligned chunk covers the range with whole pages. */
  lemma AlignedChunkCovers(offset: nat, length: nat)
    ensures var c := GetPageAlignedChunk(offset, length);
      && c.nBytesOffset <= offset && offset + length <= c.nBytesOffset + c.nBytesLength
      && Aligned(c.nBytesOffset) && Aligned(c.nBytesOffset + c.nBytesLength)
      && c.offsetRemainder < HOST_PAGE_SIZE
  {
    var c := GetPageAlignedChunk(offset, length);
    var upper := RequiredHostPages(offset + length);
    DivBounds(offset, HOST_PAGE_SIZE);
    RoundUpBounds(offset + length);
    assert c.nBytesOffset == HOST_PAGE_SIZE * c.nPagesOffset;
    assert c.nBytesOffset + c.nBytesLength == HOST_PAGE_SIZE * upper;
    MultipleAligned(c.nPagesOffset);
    MultipleAligned(upper);
  }

  lemma AlignedBelow(low: nat, n: nat)
    requires Aligned(low) && low <= n
    ensures low <= HOST_PAGE_SIZE * PageOf(n)
  {
    DivBounds(n, HOST_PAGE_SIZE);
    if PageOf(n) < PageOf(low) {
      MulMonotone(PageOf(n) + 1, PageOf(low), HOST_PAGE_SIZE);
    }
    MulMonotone(PageOf(low), PageOf(n), HOST_PAGE_SIZE);
  }

  lemma AlignedAbove(high: nat, n: nat)
    requires Aligned(high) && n <= high
    ensures HOST_PAGE_SIZE * RequiredHostPages(n) <= high
  {
    RoundUpBounds(n);
    if PageOf(high) < RequiredHostPages(n) {
      MulMonotone(PageOf(high) + 1, RequiredHostPages(n), HOST_PAGE_SIZE);
    }
    MulMonotone(RequiredHostPages(n), PageOf(high), HOST_PAGE_SIZE);
  }

  lemma AlignedChunkEnds(offset: nat, length: nat)
    ensures var c := GetPageAlignedChunk(offset, length);
      && c.nBytesOffset == HOST_PAGE_SIZE * PageOf(offset)
      && c.nBytesOffset + c.nBytesLength == HOST_PAGE_SIZE * RequiredHostPages(offset + length)
  {
    var c := GetPageAlignedChunk(offset, length);
    assert HOST_PAGE_SIZE * (c.nPagesOffset + c.nPagesLength)
        == HOST_PAGE_SIZE * c.nPagesOffset + HOST_PAGE_SIZE * c.nPagesLength;
  }

  /** No smaller range of whole pages does. */
  lemma AlignedChunkLeast(offset: nat, length: nat, low: nat, high: nat)
    requires Aligned(low) && Aligned(high) && low <= offset && offset + length <= high
    ensures var c := GetPageAlignedChunk(offset, length);
      low <= c.nBytesOffset && c.nBytesOffset + c.nBytesLength <= high
  {
    hide Aligned, GetPageAlignedChunk, PageOf, RequiredHostPages;
    AlignedChunkEnds(offset, length);
    AlignedBelow(low, offset);
    AlignedAbove(high, offset + length);
  }

  function PageRange(low: nat, high: nat): (pages: set<nat>)
    ensures forall p :: p in pages <==> low <= p < high
    decreases high - low
  {
    if low >= high then {} else {low} + PageRange(low + 1, high)
  }

  /** The pages made writable for a range. */
  function PagesOf(offset: nat, length: nat): (pages: set<nat>)
    ensures forall p :: p in pages <==> PageOf(offset) <= p < RequiredHostPages(offset + length)
  {
    var c := GetPageAlignedChunk(offset, length);
    PageRange(c.nPagesOffset, c.nPagesOffset + c.nPagesLength)
  }

  lemma PageMonotone(a: nat, b: nat)
    requires a <= b
    ensures PageOf(a) <= PageOf(b)
  {
    DivBounds(a, HOST_PAGE_SIZE);
    DivBounds(b, HOST_PAGE_SIZE);
    if PageOf(b) < PageOf(a) {
      MulMonotone(PageOf(b) + 1, PageOf(a), HOST_PAGE_SIZE);
    }
  }

  lemma PageBelow(i: nat, end: nat)
    requires i < end
    ensures PageOf(i) < RequiredHostPages(end)
  {
    DivBounds(i, HOST_PAGE_SIZE);
    RoundUpBounds(end);
    if RequiredHostPages(end) <= PageOf(i) {
      MulMonotone(RequiredHostPages(end), PageOf(i), HOST_PAGE_SIZE);
    }
  }

  /** Every byte of the range is on one of its pages. */
  lemma PagesOfRange(offset: nat, length: nat, i: nat)
    requires offset <= i < offset + length
    ensures PageOf(i) in PagesOf(offset, length)
  {
    hide PagesOf, PageOf, RequiredHostPages;
    PageMonotone(offset, i);
    PageBelow(i, offset + length);
  }

  lemma LastPage(end: nat)
    requires end > 0
    ensures RequiredHostPages(end) == PageOf(end - 1) + 1
  {
    DivBounds(end - 1, HOST_PAGE_SIZE);
    QuotientUnique(end + HOST_PAGE_SIZE - 1, PageOf(end - 1) + 1, HOST_PAGE_SIZE);
  }

  /** The reserved memory is the whole pages that hold the value. */
  function ReservedBytes(valueSize: nat): nat {
    HOST_PAGE_SIZE * RequiredHostPages(valueSize)
  }

  lemma ReservedFits(valueSize: nat)
    ensures valueSize <= ReservedBytes(valueSize)
  {
    RoundUpBounds(valueSize);
  }
}
