/** Medians and median absolute deviations over the reals (`statistics.median` and
    backend/src/consolidate/consolidate.py, `_mad`). */
module RobustStatistics {
  import opened Sorting

  predicate Le(x: real, y: real) {
    x <= y
  }

  function Middle(sorted: seq<real>): real
    requires sorted != []
  {
    var n := |sorted|;
    if n % 2 == 1 then sorted[n / 2] else (sorted[n / 2 - 1] + sorted[n / 2]) / 2.0
  }

  function Median(xs: seq<real>): real
    requires xs != []
  {
    Middle(Sort(Le, xs))
  }

  function Distance(x: real, y: real): (d: real)
    ensures d >= 0.0 && (d == 0.0 <==> x == y)
  {
    if x < y then y - x else x - y
  }

  function Deviations(xs: seq<real>, med: real): seq<real> {
    seq(|xs|, i requires 0 <= i < |xs| => Distance(xs[i], med))
  }

  function Mad(xs: seq<real>, med: real): real {
    if xs == [] then 0.0 else Median(Deviations(xs, med))
  }

  /** How many elements are at most `bound`. */
  function CountLe(xs: seq<real>, bound: real): nat {
    if xs == [] then 0 else (if xs[0] <= bound then 1 else 0) + CountLe(xs[1..], bound)
  }

  lemma {:induction false} CountLeConcat(xs: seq<real>, ys: seq<real>, bound: real)
    ensures CountLe(xs + ys, bound) == CountLe(xs, bound) + CountLe(ys, bound)
  {
    if xs == [] {
      assert xs + ys == ys;
    } else {
      assert (xs + ys)[1..] == xs[1..] + ys;
      CountLeConcat(xs[1..], ys, bound);
    }
  }

  lemma {:induction false} CountLeInsert(x: real, xs: seq<real>, bound: real)
    ensures CountLe(Insert(Le, x, xs), bound) == (if x <= bound then 1 else 0) + CountLe(xs, bound)
  {
    if xs == [] || x <= xs[0] {
    } else {
      CountLeInsert(x, xs[1..], bound);
    }
  }

  lemma {:induction false} CountLeSort(xs: seq<real>, bound: real)
    ensures CountLe(Sort(Le, xs), bound) == CountLe(xs, bound)
  {
    if xs != [] {
      CountLeSort(xs[1..], bound);
      CountLeInsert(xs[0], Sort(Le, xs[1..]), bound);
    }
  }

  lemma {:induction false} CountLeAll(xs: seq<real>, bound: real)
    requires forall i :: 0 <= i < |xs| ==> xs[i] <= bound
    ensures CountLe(xs, bound) == |xs|
  {
    if xs != [] { CountLeAll(xs[1..], bound); }
  }

  /** The first `n` of a sorted list are at most whatever bounds the `n`-th. */
  lemma CountLePrefix(sorted: seq<real>, n: nat, bound: real)
    requires Sorted(Le, sorted) && 0 < n <= |sorted| && sorted[n - 1] <= bound
    ensures CountLe(sorted, bound) >= n
  {
    assert sorted == sorted[..n] + sorted[n..];
    CountLeConcat(sorted[..n], sorted[n..], bound);
    forall i | 0 <= i < n ensures sorted[..n][i] <= bound {
      if i < n - 1 { assert Le(sorted[i], sorted[n - 1]); }
    }
    CountLeAll(sorted[..n], bound);
  }

  /** At least half of a list is at most its median. */
  lemma HalfBelowMedian(xs: seq<real>)
    requires xs != []
    ensures 2 * CountLe(xs, Median(xs)) >= |xs|
  {
    hide CountLe, Sort;
    var s := Sort(Le, xs);
    SortSorted(Le, xs);
    CountLeSort(xs, Median(xs));
    var n := |xs|;
    if n % 2 == 1 {
      CountLePrefix(s, n / 2 + 1, Median(xs));
    } else {
      assert Le(s[n / 2 - 1], s[n / 2]);
      CountLePrefix(s, n / 2, Median(xs));
    }
  }

  /** If a list of non-negative numbers has median 0, a strict majority of it is 0. */
  lemma MajorityZero(xs: seq<real>)
    requires xs != [] && (forall i :: 0 <= i < |xs| ==> xs[i] >= 0.0) && Median(xs) == 0.0
    ensures 2 * CountLe(xs, 0.0) > |xs|
  {
    hide CountLe, Sort;
    var s := Sort(Le, xs);
    SortSorted(Le, xs);
    SortContents(Le, xs);
    CountLeSort(xs, 0.0);
    var n := |xs|;
    forall i | 0 <= i < n ensures s[i] >= 0.0 {
      assert s[i] in multiset(s);
      assert s[i] in xs;
    }
    assert s[n / 2] <= 0.0;
    CountLePrefix(s, n / 2 + 1, 0.0);
  }

  // ----- which element is the median -----

  /** How many elements are below `bound`. */
  function CountLt(xs: seq<real>, bound: real): nat {
    if xs == [] then 0 else (if xs[0] < bound then 1 else 0) + CountLt(xs[1..], bound)
  }

  /** An element that has exactly its place `k` in the order of `xs`: at most `k` are below it, more than
      `k` are not above it. */
  predicate HasRank(xs: seq<real>, x: real, k: nat) {
    CountLt(xs, x) <= k < CountLe(xs, x)
  }

  lemma {:induction false} CountLtInsert(x: real, xs: seq<real>, bound: real)
    ensures CountLt(Insert(Le, x, xs), bound) == (if x < bound then 1 else 0) + CountLt(xs, bound)
  {
    if xs == [] || x <= xs[0] {
    } else {
      CountLtInsert(x, xs[1..], bound);
    }
  }

  lemma {:induction false} CountLtSort(xs: seq<real>, bound: real)
    ensures CountLt(Sort(Le, xs), bound) == CountLt(xs, bound)
  {
    if xs != [] {
      CountLtSort(xs[1..], bound);
      CountLtInsert(xs[0], Sort(Le, xs[1..]), bound);
    }
  }

  /** From place `k` on, nothing of a sorted list is below its element `k`. */
  lemma {:induction false} CountLtPrefix(sorted: seq<real>, k: nat, bound: real)
    requires k <= |sorted| && forall i :: k <= i < |sorted| ==> sorted[i] >= bound
    ensures CountLt(sorted, bound) <= k
  {
    if sorted != [] {
      CountLtPrefix(sorted[1..], if k == 0 then 0 else k - 1, bound);
    }
  }

  lemma {:induction false} BelowIsNotAbove(xs: seq<real>, x: real, y: real)
    requires x < y
    ensures CountLe(xs, x) <= CountLt(xs, y)
  {
    if xs != [] { BelowIsNotAbove(xs[1..], x, y); }
  }

  /** At most one value has a given place. */
  lemma RankIsUnique(xs: seq<real>, x: real, y: real, k: nat)
    requires HasRank(xs, x, k) && HasRank(xs, y, k)
    ensures x == y
  {
    if x < y { BelowIsNotAbove(xs, x, y); }
    if y < x { BelowIsNotAbove(xs, y, x); }
  }

  lemma RankInSorted(xs: seq<real>, k: nat)
    requires k < |xs|
    ensures |Sort(Le, xs)| == |xs| && HasRank(xs, Sort(Le, xs)[k], k)
  {
    hide CountLe, CountLt, Sort;
    var s := Sort(Le, xs);
    SortSorted(Le, xs);
    CountLeSort(xs, s[k]);
    CountLtSort(xs, s[k]);
    CountLePrefix(s, k + 1, s[k]);
    forall i | k <= i < |s| ensures s[i] >= s[k] {
      if i > k { assert Le(s[k], s[i]); }
    }
    CountLtPrefix(s, k, s[k]);
  }

  /** The median of `n` numbers is halfway between those that have the places (n - 1) / 2 and n / 2, counted
      from 0 - one and the same for an odd `n`. */
  lemma MedianIsHalfway(xs: seq<real>) returns (lo: real, hi: real)
    requires xs != []
    ensures HasRank(xs, lo, (|xs| - 1) / 2) && HasRank(xs, hi, |xs| / 2)
    ensures Median(xs) == (lo + hi) / 2.0 && lo <= hi
  {
    hide HasRank, Sort;
    var s := Sort(Le, xs);
    RankInSorted(xs, (|xs| - 1) / 2);
    RankInSorted(xs, |xs| / 2);
    lo, hi := s[(|xs| - 1) / 2], s[|xs| / 2];
    LowerIsFewer(xs, lo, hi);
  }

  /** These two determine it. */
  lemma MedianIs(xs: seq<real>, lo: real, hi: real)
    requires xs != [] && HasRank(xs, lo, (|xs| - 1) / 2) && HasRank(xs, hi, |xs| / 2)
    ensures Median(xs) == (lo + hi) / 2.0
  {
    hide HasRank, Median;
    var l, h := MedianIsHalfway(xs);
    RankIsUnique(xs, lo, l, (|xs| - 1) / 2);
    RankIsUnique(xs, hi, h, |xs| / 2);
  }

  /** At least half of a list is at least its median: at most half is below it. */
  lemma HalfAboveMedian(xs: seq<real>)
    requires xs != []
    ensures 2 * CountLt(xs, Median(xs)) <= |xs|
  {
    hide CountLe, CountLt, Median;
    var lo, hi := MedianIsHalfway(xs);
    CountLtMonotone(xs, Median(xs), hi);
  }

  lemma LowerIsFewer(xs: seq<real>, lo: real, hi: real)
    requires xs != [] && HasRank(xs, lo, (|xs| - 1) / 2) && HasRank(xs, hi, |xs| / 2)
    ensures lo <= hi
  {
    if hi < lo { BelowIsNotAbove(xs, hi, lo); }
  }

  lemma {:induction false} CountLtMonotone(xs: seq<real>, a: real, b: real)
    requires a <= b
    ensures CountLt(xs, a) <= CountLt(xs, b)
  {
    if xs != [] { CountLtMonotone(xs[1..], a, b); }
  }

  // ----- a majority keeps the median -----

  /** How many elements lie between two bounds. */
  function CountIn(xs: seq<real>, a: real, b: real): nat {
    if xs == [] then 0 else (if a <= xs[0] <= b then 1 else 0) + CountIn(xs[1..], a, b)
  }

  lemma {:induction false} CountInBounds(xs: seq<real>, a: real, b: real)
    ensures CountIn(xs, a, b) <= CountLe(xs, b) && CountIn(xs, a, b) + CountLt(xs, a) <= |xs|
  {
    if xs != [] { CountInBounds(xs[1..], a, b); }
  }

  /** Whatever the rest of the list, the median lies where a strict majority lies. */
  lemma MajorityHoldsMedian(xs: seq<real>, a: real, b: real)
    requires xs != [] && 2 * CountIn(xs, a, b) > |xs|
    ensures a <= Median(xs) <= b
  {
    hide CountLe, CountLt, CountIn, Median;
    CountInBounds(xs, a, b);
    var lo, hi := MedianIsHalfway(xs);
    if lo < a { BelowIsNotAbove(xs, lo, a); }
    if b < hi { BelowIsNotAbove(xs, b, hi); }
  }
}
