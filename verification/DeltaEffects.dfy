/** What the printed commands do to the data, page by page. */
module DeltaEffects {
  import opened Bytes
  import opened Numbers
  import opened Delta
  import opened DeltaFraming

  lemma {:induction false} RunConcat(a: seq<Action>, b: seq<Action>, data: seq<byte>)
    requires Run(a, data).status.Done?
    ensures Run(a + b, data) == Run(b, Run(a, data).data)
  {
    if a == [] {
      assert a + b == b;
    } else {
      assert (a + b)[0] == a[0] && (a + b)[1..] == a[1..] + b;
      RunConcat(a[1..], b, Effect(a[0], data).data);
    }
  }

  // ------------------------------------------------------ effect on the data

  /** What the data looks like once its size has been set. */
  function Base(ch: Change): (base: seq<byte>)
    ensures |base| == |ch.newData|
  {
    Resize(ch.oldData, |ch.newData|)
  }

  lemma {:induction false} PagesPrintable(test: PageTest, ch: Change, from: nat)
    requires |ch.newData| < U32 && ch.cfg.pageSize > 0
    ensures forall c | c in PagedActions(test, ch, from) :: Printable(c)
    decreases |ch.newData| - from
  {
    hide AnyNonZero, TestedBytes;
    if from < |ch.newData| {
      PagesPrintable(test, ch, from + ch.cfg.pageSize);
    }
  }

  lemma RegionsPrintable(test: PageTest, ch: Change)
    requires |ch.newData| < U32 && Usable(ch)
    ensures forall c | c in RegionActions(test, ch) :: Printable(c)
  {
    if ch.cfg.usePages {
      PagesPrintable(test, ch, 0);
    }
  }

  lemma XorBytesCancel(a: seq<byte>, b: seq<byte>)
    requires |a| == |b|
    ensures XorBytes(XorBytes(a, b), a) == b
  {
    forall i | 0 <= i < |a| ensures XorBytes(XorBytes(a, b), a)[i] == b[i] {
      XorCancels(a[i], b[i]);
    }
  }

  lemma RunNone(data: seq<byte>)
    ensures Run([], data) == Outcome(data, Done)
  {
  }

  lemma RunOne(c: Action, data: seq<byte>)
    ensures Run([c], data) == Effect(c, data)
  {
    var r := Effect(c, data);
    assert [c][1..] == [];
    if r.status.Done? {
      assert Run([], r.data) == Outcome(r.data, Done);
    }
  }

  /** Where the data still holds the old bytes, a changed region, overwritten or XORed, leaves the new ones. */
  lemma ChangedRegionEffect(ch: Change, start: nat, length: nat, data: seq<byte>)
    requires start + length <= |ch.oldData| && start + length <= |ch.newData| == |data|
    requires data[start..start + length] == ch.oldData[start..start + length]
    ensures Run(ChangedRegion(ch, start, length), data)
         == Outcome(Splice(data, start, ch.newData[start..start + length]), Done)
  {
    hide Run, Splice, XorBytes;
    RunNone(data);
    var before, after := ch.oldData[start..start + length], ch.newData[start..start + length];
    if length == 0 {
      SpliceSame(data, start, 0);
      assert after == data[start..start];
    } else if ch.cfg.xorWithOld {
      RunOne(XorWith(start, XorBytes(before, after)), data);
      XorBytesCancel(before, after);
    } else {
      RunOne(Overwrite(start, after), data);
    }
  }

  lemma NewRegionEffect(ch: Change, start: nat, length: nat, data: seq<byte>)
    requires start + length <= |ch.newData| == |data|
    ensures Run(NewRegion(ch, start, length), data)
         == Outcome(Splice(data, start, ch.newData[start..start + length]), Done)
  {
    hide Run, Splice;
    RunNone(data);
    var after := ch.newData[start..start + length];
    if length == 0 {
      SpliceSame(data, start, 0);
      assert after == data[start..start];
    } else {
      RunOne(Overwrite(start, after), data);
    }
  }

  /** What a page holds at the end: the new bytes, or the bytes it had where nothing was emitted for it. */
  function PageResult(test: PageTest, ch: Change, start: nat): (page: seq<byte>)
    requires start < |ch.newData|
    ensures |page| == PageLength(ch, start)
  {
    var source := if PageActions(test, ch, start) == [] then Base(ch) else ch.newData;
    source[start..start + PageLength(ch, start)]
  }

  lemma BaseWithin(ch: Change, start: nat, length: nat)
    requires start + length <= |ch.oldData| && start + length <= |ch.newData|
    ensures Base(ch)[start..start + length] == ch.oldData[start..start + length]
  {
  }

  lemma SliceOfTail(a: seq<byte>, b: seq<byte>, start: nat, length: nat)
    requires |a| == |b| && start + length <= |a| && a[start..] == b[start..]
    ensures a[start..start + length] == b[start..start + length]
  {
    assert a[start..start + length] == a[start..][..length];
    assert b[start..start + length] == b[start..][..length];
  }

  lemma SpliceSame(data: seq<byte>, start: nat, length: nat)
    requires start + length <= |data|
    ensures Splice(data, start, data[start..start + length]) == data
  {
  }

  lemma PageEmitted(test: PageTest, ch: Change, start: nat)
    requires start < |ch.newData| && PageActions(test, ch, start) != []
    ensures PageActions(test, ch, start)
         == if start < |ch.oldData| && InBoth(ch, start) then ChangedRegion(ch, start, ch.cfg.pageSize)
            else NewRegion(ch, start, PageLength(ch, start))
  {
    hide ChangedRegion, NewRegion, AnyNonZero, TestedBytes;
  }

  lemma PageEffect(test: PageTest, ch: Change, start: nat, data: seq<byte>)
    requires start < |ch.newData| == |data| && ch.cfg.pageSize > 0
    requires data[start..] == Base(ch)[start..]
    ensures Run(PageActions(test, ch, start), data) == Outcome(Splice(data, start, PageResult(test, ch, start)), Done)
  {
    hide Splice, Base, PageActions, ChangedRegion, NewRegion, Run;
    RunNone(data);
    var length := PageLength(ch, start);
    SliceOfTail(data, Base(ch), start, length);
    if PageActions(test, ch, start) == [] {
      SpliceSame(data, start, length);
    } else {
      PageEmitted(test, ch, start);
      if start < |ch.oldData| && InBoth(ch, start) {
        BaseWithin(ch, start, length);
        ChangedRegionEffect(ch, start, length, data);
      } else {
        NewRegionEffect(ch, start, length, data);
      }
    }
  }

  lemma FirstPageEffect(test: PageTest, ch: Change, from: nat, data: seq<byte>)
    requires from < |ch.newData| == |data| && ch.cfg.pageSize > 0
    requires data[from..] == Base(ch)[from..]
    ensures Run(PagedActions(test, ch, from), data)
         == Run(PagedActions(test, ch, from + ch.cfg.pageSize), Splice(data, from, PageResult(test, ch, from)))
  {
    hide Splice, Base, PageActions, PageResult;
    PageEffect(test, ch, from, data);
    RunConcat(PageActions(test, ch, from), PagedActions(test, ch, from + ch.cfg.pageSize), data);
  }

  function PagedResult(test: PageTest, ch: Change, from: nat): (r: seq<byte>)
    requires ch.cfg.pageSize > 0
    ensures |r| == if from < |ch.newData| then |ch.newData| - from else 0
    decreases |ch.newData| - from
  {
    if from >= |ch.newData| then []
    else PageResult(test, ch, from) + PagedResult(test, ch, from + ch.cfg.pageSize)
  }

  lemma SpliceTwice(data: seq<byte>, from: nat, a: seq<byte>, b: seq<byte>)
    requires from + |a| + |b| <= |data|
    ensures Splice(Splice(data, from, a), from + |a|, b) == Splice(data, from, a + b)
  {
    hide Splice;
  }

  /** Running the actions of all pages from one on puts their results in the data, one after the other. */
  lemma {:induction false} PagedEffect(test: PageTest, ch: Change, from: nat, data: seq<byte>)
    requires from < |ch.newData| == |data| && ch.cfg.pageSize > 0
    requires data[from..] == Base(ch)[from..]
    ensures Run(PagedActions(test, ch, from), data) == Outcome(Splice(data, from, PagedResult(test, ch, from)), Done)
    decreases |data| - from
  {
    hide Splice, Base, PageActions, PageResult, Run;
    RunNone(Splice(data, from, PageResult(test, ch, from)));
    var page, next := PageResult(test, ch, from), from + ch.cfg.pageSize;
    var mid := Splice(data, from, page);
    FirstPageEffect(test, ch, from, data);
    if next < |data| {
      TailAfter(data, Base(ch), mid, from, next);
      PagedEffect(test, ch, next, mid);
      SpliceTwice(data, from, page, PagedResult(test, ch, next));
    } else {
      assert PagedActions(test, ch, next) == [] && page + [] == page;
    }
  }

  lemma TailAfter(data: seq<byte>, base: seq<byte>, mid: seq<byte>, from: nat, next: nat)
    requires |data| == |base| == |mid| && from <= next <= |data|
    requires data[from..] == base[from..]
    requires forall i :: next <= i < |data| ==> mid[i] == data[i]
    ensures mid[next..] == base[next..]
  {
    forall i | next <= i < |data| ensures mid[i] == base[i] {
      assert data[i] == data[from..][i - from] == base[from..][i - from];
    }
  }

  /** A page the serializer leaves out although it changed: it lies in both buffers and equals the old bytes
      it is compared with, but not its own. */
  predicate WronglySkipped(test: PageTest, ch: Change, start: nat) {
    var base := CompareBase(test, start);
    && InBoth(ch, start)
    && ch.newData[start..start + ch.cfg.pageSize] == ch.oldData[base..base + ch.cfg.pageSize]
    && ch.newData[start..start + ch.cfg.pageSize] != ch.oldData[start..start + ch.cfg.pageSize]
  }

  lemma PageBytes(test: PageTest, ch: Change, start: nat)
    requires start < |ch.newData| && ch.cfg.pageSize > 0
    ensures PageActions(test, ch, start) == []
       <==> if start < |ch.oldData| && InBoth(ch, start) then
              var base := CompareBase(test, start);
              ch.newData[start..start + ch.cfg.pageSize] == ch.oldData[base..base + ch.cfg.pageSize]
            else start >= |ch.oldData| && !AnyNonZero(TestedBytes(ch, start))
  {
    hide AnyNonZero, TestedBytes;
  }

  lemma ZeroPage(ch: Change, start: nat)
    requires |ch.oldData| <= start < |ch.newData| && !AnyNonZero(TestedBytes(ch, start))
    ensures ch.newData[start..start + PageLength(ch, start)] == Base(ch)[start..start + PageLength(ch, start)]
  {
    forall i | start <= i < start + PageLength(ch, start) ensures ch.newData[i] == Base(ch)[i] {
      assert TestedBytes(ch, start)[i - start] == ch.newData[i];
    }
  }

  lemma PageExact(test: PageTest, ch: Change, start: nat)
    requires start < |ch.newData| && ch.cfg.pageSize > 0
    ensures PageResult(test, ch, start) == ch.newData[start..start + PageLength(ch, start)]
       <==> !WronglySkipped(test, ch, start)
  {
    hide AnyNonZero, TestedBytes, PageActions, Base;
    PageBytes(test, ch, start);
    if PageActions(test, ch, start) == [] {
      if start >= |ch.oldData| {
        ZeroPage(ch, start);
      } else {
        BaseWithin(ch, start, PageLength(ch, start));
      }
    }
  }

  function PageStart(ch: Change, k: nat): nat {
    k * ch.cfg.pageSize
  }

  lemma NextPage(ch: Change, k: nat)
    ensures PageStart(ch, k + 1) == PageStart(ch, k) + ch.cfg.pageSize
  {
  }

  lemma PagesAscend(ch: Change, j: nat, k: nat)
    requires k <= j
    ensures PageStart(ch, k) <= PageStart(ch, j)
  {
    var ps := ch.cfg.pageSize;
    assert (j - k) * ps >= 0;
    assert j * ps == k * ps + (j - k) * ps;
  }

  ghost predicate NoneSkippedFrom(test: PageTest, ch: Change, k: nat) {
    forall j: nat :: k <= j ==> !WronglySkipped(test, ch, PageStart(ch, j))
  }

  lemma FirstAndLater(test: PageTest, ch: Change, k: nat)
    ensures NoneSkippedFrom(test, ch, k)
       <==> !WronglySkipped(test, ch, PageStart(ch, k)) && NoneSkippedFrom(test, ch, k + 1)
  {
  }

  lemma NoPagesLeft(test: PageTest, ch: Change, k: nat)
    requires ch.cfg.pageSize > 0 && PageStart(ch, k) >= |ch.newData|
    ensures NoneSkippedFrom(test, ch, k) && PagedResult(test, ch, PageStart(ch, k)) == []
  {
    forall j: nat | k <= j ensures !WronglySkipped(test, ch, PageStart(ch, j)) {
      PagesAscend(ch, j, k);
    }
  }

  lemma FirstPage(test: PageTest, ch: Change, k: nat)
    requires ch.cfg.pageSize > 0 && PageStart(ch, k) < |ch.newData|
    ensures var from, after := PageStart(ch, k), PageStart(ch, k + 1);
      && after == from + ch.cfg.pageSize && Min(after, |ch.newData|) == from + PageLength(ch, from)
      && |PageResult(test, ch, from)| == PageLength(ch, from)
      && PagedResult(test, ch, from) == PageResult(test, ch, from) + PagedResult(test, ch, after)
  {
    NextPage(ch, k);
    hide PageStart, PageResult;
  }

  lemma {:induction false} PagesExact(test: PageTest, ch: Change, k: nat)
    requires ch.cfg.pageSize > 0
    ensures var from := Min(PageStart(ch, k), |ch.newData|);
      PagedResult(test, ch, PageStart(ch, k)) == ch.newData[from..]
      <==> NoneSkippedFrom(test, ch, k)
    decreases |ch.newData| - PageStart(ch, k)
  {
    hide PageStart, PagedResult, PageResult, WronglySkipped, NoneSkippedFrom, PageLength;
    var from := PageStart(ch, k);
    if from >= |ch.newData| {
      NoPagesLeft(test, ch, k);
    } else {
      var next := Min(PageStart(ch, k + 1), |ch.newData|);
      FirstPage(test, ch, k);
      PageExact(test, ch, from);
      PagesExact(test, ch, k + 1);
      SplitAt(ch.newData, from, next, PageResult(test, ch, from), PagedResult(test, ch, PageStart(ch, k + 1)));
      FirstAndLater(test, ch, k);
    }
  }

  lemma SplitAt(whole: seq<byte>, a: nat, b: nat, first: seq<byte>, second: seq<byte>)
    requires a <= b <= |whole| && |first| == b - a
    ensures first + second == whole[a..] <==> first == whole[a..b] && second == whole[b..]
  {
    assert whole[a..] == whole[a..b] + whole[b..];
    if first + second == whole[a..] {
      assert first == (first + second)[..b - a];
      assert second == (first + second)[b - a..];
    }
  }


  /** The data a delta leaves behind. */
  function Patched(test: PageTest, ch: Change): seq<byte>
    requires Usable(ch)
  {
    if ch.cfg.usePages then PagedResult(test, ch, 0) else ch.newData
  }

  lemma SpliceWhole(data: seq<byte>, block: seq<byte>)
    requires |data| == |block|
    ensures Splice(data, 0, block) == block
  {
  }

  lemma GrownEffect(ch: Change)
    requires |ch.newData| >= |ch.oldData|
    ensures Run(ChangedRegion(ch, 0, |ch.oldData|) + NewRegion(ch, |ch.oldData|, |ch.newData| - |ch.oldData|), Base(ch))
         == Outcome(ch.newData, Done)
  {
    hide Splice, Base, ChangedRegion, NewRegion, Run;
    var n, base := |ch.oldData|, Base(ch);
    BaseWithin(ch, 0, n);
    ChangedRegionEffect(ch, 0, n, base);
    var mid := Splice(base, 0, ch.newData[0..n]);
    RunConcat(ChangedRegion(ch, 0, n), NewRegion(ch, n, |base| - n), base);
    NewRegionEffect(ch, n, |base| - n, mid);
    SpliceTwice(base, 0, ch.newData[0..n], ch.newData[n..]);
    assert ch.newData[0..n] + ch.newData[n..] == ch.newData;
    SpliceWhole(base, ch.newData);
  }

  lemma ShrunkEffect(ch: Change)
    requires |ch.newData| < |ch.oldData|
    ensures Run(ChangedRegion(ch, 0, |ch.newData|), Base(ch)) == Outcome(ch.newData, Done)
  {
    hide Splice, Base, ChangedRegion, Run;
    BaseWithin(ch, 0, |ch.newData|);
    ChangedRegionEffect(ch, 0, |ch.newData|, Base(ch));
    assert ch.newData[0..|ch.newData|] == ch.newData;
    SpliceWhole(Base(ch), ch.newData);
  }

  lemma RegionsEffect(test: PageTest, ch: Change)
    requires Usable(ch)
    ensures Run(RegionActions(test, ch), Base(ch)) == Outcome(Patched(test, ch), Done)
  {
    hide Splice, ChangedRegion, NewRegion, PagedActions, PagedResult, Run;
    if ch.cfg.usePages {
      if ch.newData != [] {
        PagedEffect(test, ch, 0, Base(ch));
        SpliceWhole(Base(ch), PagedResult(test, ch, 0));
      } else {
        NoPages(test, ch);
      }
    } else if |ch.newData| >= |ch.oldData| {
      GrownEffect(ch);
    } else {
      ShrunkEffect(ch);
    }
  }

  lemma NoPages(test: PageTest, ch: Change)
    requires ch.cfg.pageSize > 0 && ch.newData == []
    ensures PagedResult(test, ch, 0) == []
    ensures Run(PagedActions(test, ch, 0), Base(ch)) == Outcome([], Done)
  {
  }
}
