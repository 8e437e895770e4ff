/** Sums of weights over sequences. */
module Sums {
  ghost function Sum<A(!new)>(s: seq<A>, weight: A -> int): int {
    if s == [] then 0 else Sum(s[..|s| - 1], weight) + weight(s[|s| - 1])
  }

  lemma SumAppend<A(!new)>(s: seq<A>, x: A, weight: A -> int)
    ensures Sum(s + [x], weight) == Sum(s, weight) + weight(x)
  {
    assert (s + [x])[..|s|] == s;
  }

  lemma {:induction false} SumUpdate<A(!new)>(s: seq<A>, k: nat, x: A, weight: A -> int)
    requires k < |s|
    ensures Sum(s[k := x], weight) == Sum(s, weight) - weight(s[k]) + weight(x)
  {
    var last := |s| - 1;
    if k < last {
      assert s[k := x][..last] == s[..last][k := x];
      SumUpdate(s[..last], k, x, weight);
    } else {
      assert s[k := x][..last] == s[..last];
    }
  }

  ghost predicate NonNegative<A(!new)>(weight: A -> int) {
    forall x :: weight(x) >= 0
  }

  lemma {:induction false} SumNonNegative<A(!new)>(s: seq<A>, weight: A -> int)
    requires NonNegative(weight)
    ensures Sum(s, weight) >= 0
  {
    if s != [] {
      SumNonNegative(s[..|s| - 1], weight);
    }
  }

  lemma {:induction false} SumMember<A(!new)>(s: seq<A>, k: nat, weight: A -> int)
    requires NonNegative(weight) && k < |s|
    ensures Sum(s, weight) >= weight(s[k])
  {
    if k < |s| - 1 {
      SumMember(s[..|s| - 1], k, weight);
    } else {
      SumNonNegative(s[..|s| - 1], weight);
    }
  }

  /** Two members together weigh no more than all. */
  lemma {:induction false} SumPair<A(!new)>(s: seq<A>, j: nat, k: nat, weight: A -> int)
    requires NonNegative(weight) && j < k < |s|
    ensures Sum(s, weight) >= weight(s[j]) + weight(s[k])
  {
    if k < |s| - 1 {
      SumPair(s[..|s| - 1], j, k, weight);
    } else {
      SumMember(s[..|s| - 1], j, weight);
    }
  }

  lemma {:induction false} SumZero<A(!new)>(s: seq<A>, weight: A -> int)
    requires forall k :: 0 <= k < |s| ==> weight(s[k]) == 0
    ensures Sum(s, weight) == 0
  {
    if s != [] {
      SumZero(s[..|s| - 1], weight);
    }
  }
}
