/** Robust consolidation of box counts seen over several frames
    (backend/src/consolidate/consolidate.py), over the reals. The product of the three confidence
    factors is a parameter; labels and the display order are not modelled. */
module Consolidation {
  import opened Sequences
  import opened Sorting
  import opened RobustStatistics

  datatype Obs = Obs(boxes: int, confidence: real)

  // ----- inliers -----

  function Values(obs: seq<Obs>): (xs: seq<real>)
    ensures |xs| == |obs|
  {
    seq(|obs|, i requires 0 <= i < |obs| => obs[i].boxes as real)
  }

  /** Python's `round`. */
  function RoundHalfEven(x: real): int {
    var f := x.Floor;
    var d := x - f as real;
    if d < 0.5 || (d == 0.5 && f % 2 == 0) then f else f + 1
  }

  predicate IsInlier(o: Obs, med: real, mad: real, threshold: real) {
    if mad == 0.0 then o.boxes == RoundHalfEven(med)
    else Distance(o.boxes as real, med) <= threshold * mad
  }

  function Keep(obs: seq<Obs>, med: real, mad: real, threshold: real): seq<Obs> {
    if obs == [] then []
    else (if IsInlier(obs[0], med, mad, threshold) then [obs[0]] else []) + Keep(obs[1..], med, mad, threshold)
  }

  /** What the filter alone keeps. */
  function Kept(obs: seq<Obs>, threshold: real): seq<Obs>
    requires obs != []
  {
    var med := Median(Values(obs));
    Keep(obs, med, Mad(Values(obs), med), threshold)
  }

  /** With the fallback to all observations. */
  function Inliers(obs: seq<Obs>, threshold: real): seq<Obs>
    requires obs != []
  {
    if Kept(obs, threshold) == [] then obs else Kept(obs, threshold)
  }

  /** The filter keeps at least as many as have a deviation of at most `bound`. */
  lemma {:induction false} KeepsClose(obs: seq<Obs>, med: real, mad: real, threshold: real, bound: real)
    requires forall o: Obs :: Distance(o.boxes as real, med) <= bound ==> IsInlier(o, med, mad, threshold)
    ensures |Keep(obs, med, mad, threshold)| >= CountLe(Deviations(Values(obs), med), bound)
  {
    hide IsInlier, Distance;
    if obs != [] {
      KeepsClose(obs[1..], med, mad, threshold, bound);
      assert Deviations(Values(obs), med)[1..] == Deviations(Values(obs[1..]), med);
    }
  }

  lemma {:induction false} KeepPassesTest(obs: seq<Obs>, med: real, mad: real, threshold: real)
    ensures forall o :: o in Keep(obs, med, mad, threshold) <==> o in obs && IsInlier(o, med, mad, threshold)
  {
    hide IsInlier;
    if obs != [] {
      KeepPassesTest(obs[1..], med, mad, threshold);
      assert obs == [obs[0]] + obs[1..];
    }
  }

  lemma MadIsMedian(obs: seq<Obs>)
    requires obs != []
    ensures var med := Median(Values(obs));
      var devs := Deviations(Values(obs), med);
      devs != [] && |devs| == |obs| && Mad(Values(obs), med) == Median(devs)
      && forall i :: 0 <= i < |devs| ==> devs[i] >= 0.0
  {
    hide Median;
  }

  /** A value that occurs exactly at the median is an integer, so rounding changes nothing. */
  lemma {:induction false} MajorityValue(obs: seq<Obs>, med: real)
    requires CountLe(Deviations(Values(obs), med), 0.0) > 0
    ensures exists o :: o in obs && o.boxes as real == med
  {
    if Distance(obs[0].boxes as real, med) <= 0.0 {
      assert obs[0] in obs;
    } else {
      assert Deviations(Values(obs), med)[1..] == Deviations(Values(obs[1..]), med);
      MajorityValue(obs[1..], med);
      var o :| o in obs[1..] && o.boxes as real == med;
      assert o in obs;
    }
  }

  /** When the MAD is 0, whatever the threshold, a strict majority equals the median, and those are the
      inliers. */
  lemma ZeroMad(obs: seq<Obs>, threshold: real)
    requires obs != [] && Mad(Values(obs), Median(Values(obs))) == 0.0
    ensures var med := Median(Values(obs));
      && Inliers(obs, threshold) == Kept(obs, threshold)
      && 2 * |Inliers(obs, threshold)| > |obs|
      && forall o :: o in Inliers(obs, threshold) <==> o in obs && o.boxes as real == med
  {
    hide Median, Keep, IsInlier, CountLe, Deviations;
    var med := Median(Values(obs));
    MadIsMedian(obs);
    MajorityZero(Deviations(Values(obs), med));
    MajorityValue(obs, med);
    AtMedian(obs, med);
    KeepsClose(obs, med, 0.0, threshold, 0.0);
    KeepPassesTest(obs, med, 0.0, threshold);
  }

  /** With a threshold of at least 1, at least half of any observations are inliers and the fallback is
      not used. When the MAD is 0, a strict majority equals the median, and those are the inliers. */
  lemma HalfAreInliers(obs: seq<Obs>, threshold: real)
    requires obs != [] && threshold >= 1.0
    ensures var med := Median(Values(obs));
      && Inliers(obs, threshold) == Kept(obs, threshold)
      && 2 * |Inliers(obs, threshold)| >= |obs|
      && (Mad(Values(obs), med) == 0.0 ==>
            && 2 * |Inliers(obs, threshold)| > |obs|
            && forall o :: o in Inliers(obs, threshold) <==> o in obs && o.boxes as real == med)
  {
    hide Median, Keep, IsInlier, CountLe, Deviations;
    var med := Median(Values(obs));
    var devs := Deviations(Values(obs), med);
    MadIsMedian(obs);
    var mad := Median(devs);
    if mad == 0.0 {
      ZeroMad(obs, threshold);
    } else {
      HalfBelowMedian(devs);
      PositiveMad(devs);
      CloseIsInlier(med, mad, threshold);
      KeepsClose(obs, med, mad, threshold, mad);
    }
  }

  lemma AtMedian(obs: seq<Obs>, med: real)
    requires exists o :: o in obs && o.boxes as real == med
    ensures forall o: Obs, t: real :: IsInlier(o, med, 0.0, t) <==> o.boxes as real == med
    ensures forall o: Obs :: Distance(o.boxes as real, med) <= 0.0 <==> o.boxes as real == med
  {
    var o :| o in obs && o.boxes as real == med;
  }

  lemma PositiveMad(devs: seq<real>)
    requires devs != [] && forall i :: 0 <= i < |devs| ==> devs[i] >= 0.0
    ensures Median(devs) >= 0.0
  {
    hide CountLe;
    HalfBelowMedian(devs);
    if Median(devs) < 0.0 { CountNone(devs, Median(devs)); }
  }

  lemma {:induction false} CountNone(xs: seq<real>, bound: real)
    requires forall i :: 0 <= i < |xs| ==> xs[i] > bound
    ensures CountLe(xs, bound) == 0
  {
    if xs != [] { CountNone(xs[1..], bound); }
  }

  lemma CloseIsInlier(med: real, mad: real, threshold: real)
    requires mad > 0.0 && threshold >= 1.0
    ensures forall o: Obs :: Distance(o.boxes as real, med) <= mad ==> IsInlier(o, med, mad, threshold)
  {
    assert threshold * mad >= mad;
  }

  // ----- outliers do not move the inliers -----

  /** The filter takes each observation by itself and keeps their order. */
  lemma {:induction false} KeepConcat(a: seq<Obs>, b: seq<Obs>, med: real, mad: real, threshold: real)
    ensures Keep(a + b, med, mad, threshold) == Keep(a, med, mad, threshold) + Keep(b, med, mad, threshold)
  {
    hide IsInlier;
    if a == [] {
      assert a + b == b;
    } else {
      KeepConcat(a[1..], b, med, mad, threshold);
      KeepCons(a[0], a[1..], med, mad, threshold);
      KeepCons(a[0], a[1..] + b, med, mad, threshold);
      assert [a[0]] + a[1..] == a && [a[0]] + (a[1..] + b) == a + b;
    }
  }

  lemma KeepCons(o: Obs, obs: seq<Obs>, med: real, mad: real, threshold: real)
    ensures Keep([o] + obs, med, mad, threshold)
      == (if IsInlier(o, med, mad, threshold) then [o] else []) + Keep(obs, med, mad, threshold)
  {
    hide IsInlier;
    assert ([o] + obs)[1..] == obs;
  }

  lemma {:induction false} CloseTogether(xs: seq<real>, med: real, a: real, b: real)
    requires a <= med <= b
    ensures CountIn(Deviations(xs, med), 0.0, b - a) >= CountIn(xs, a, b)
  {
    if xs != [] {
      CloseTogether(xs[1..], med, a, b);
      assert Deviations(xs, med)[1..] == Deviations(xs[1..], med);
    }
  }

  /** When a strict majority of the counts lies between `a` and `b`, so does the median, and the MAD is at
      most their distance. */
  lemma MajorityHoldsCentre(obs: seq<Obs>, a: real, b: real)
    requires obs != [] && 2 * CountIn(Values(obs), a, b) > |obs|
    ensures a <= Median(Values(obs)) <= b
    ensures 0.0 <= Mad(Values(obs), Median(Values(obs))) <= b - a
  {
    hide Median, CountIn, Deviations;
    var med := Median(Values(obs));
    MajorityHoldsMedian(Values(obs), a, b);
    MadIsMedian(obs);
    CloseTogether(Values(obs), med, a, b);
    MajorityHoldsMedian(Deviations(Values(obs), med), 0.0, b - a);
  }

  /** Then every inlier - and so the estimate, which some inlier reported - is within `threshold` times that
      distance, however far off the other observations are. */
  lemma InliersAreNear(obs: seq<Obs>, threshold: real, a: real, b: real)
    requires obs != [] && threshold >= 1.0 && 2 * CountIn(Values(obs), a, b) > |obs|
    ensures Inliers(obs, threshold) != []
    ensures forall o :: o in Inliers(obs, threshold) ==>
      a - threshold * (b - a) <= o.boxes as real <= b + threshold * (b - a)
  {
    hide Median, CountIn, Deviations, Keep, IsInlier;
    var med := Median(Values(obs));
    var mad := Mad(Values(obs), med);
    MajorityHoldsCentre(obs, a, b);
    HalfAreInliers(obs, threshold);
    KeepPassesTest(obs, med, mad, threshold);
    Scaled(threshold, mad, b - a);
    var reach := threshold * (b - a);
    forall o | o in Inliers(obs, threshold) ensures a - reach <= o.boxes as real <= b + reach {
      InlierIsClose(o, med, mad, threshold, a, b, reach);
    }
  }

  lemma Scaled(threshold: real, x: real, y: real)
    requires threshold >= 0.0 && 0.0 <= x <= y
    ensures 0.0 <= threshold * x <= threshold * y
  {
  }

  lemma InlierIsClose(o: Obs, med: real, mad: real, threshold: real, a: real, b: real, reach: real)
    requires IsInlier(o, med, mad, threshold) && (mad == 0.0 ==> o.boxes as real == med)
    requires a <= med <= b && 0.0 <= threshold * mad <= reach
    ensures a - reach <= o.boxes as real <= b + reach
  {
  }

  lemma EstimateIsNear(obs: seq<Obs>, threshold: real, a: real, b: real, estimate: int)
    requires obs != [] && threshold >= 1.0 && 2 * CountIn(Values(obs), a, b) > |obs|
    requires IsMode(Inliers(obs, threshold), estimate)
    ensures a - threshold * (b - a) <= estimate as real <= b + threshold * (b - a)
  {
    hide IsMode, Inliers, CountIn;
    InliersAreNear(obs, threshold, a, b);
    ModeIsObserved(Inliers(obs, threshold), estimate);
  }

  /** The fallback is dead code exactly for thresholds of at least 1. */
  lemma FallbackUnreachableIff(threshold: real)
    ensures (forall obs: seq<Obs> :: obs != [] ==> Kept(obs, threshold) != []) <==> threshold >= 1.0
  {
    hide Kept;
    if threshold >= 1.0 {
      forall obs: seq<Obs> | obs != [] ensures Kept(obs, threshold) != [] {
        HalfAreInliers(obs, threshold);
      }
    } else {
      FarApart(threshold);
    }
  }

  lemma FarApart(threshold: real)
    requires threshold < 1.0
    ensures Kept([Obs(0, 0.0), Obs(1, 0.0)], threshold) == []
  {
    var obs := [Obs(0, 0.0), Obs(1, 0.0)];
    assert Values(obs) == [0.0, 1.0];
    MedianOfTwo(0.0, 1.0);
    assert Deviations([0.0, 1.0], 0.5) == [0.5, 0.5];
    MedianOfTwo(0.5, 0.5);
    assert Mad(Values(obs), 0.5) == 0.5;
    assert !IsInlier(obs[0], 0.5, 0.5, threshold) && !IsInlier(obs[1], 0.5, 0.5, threshold);
    KeepsNone(obs, 0.5, 0.5, threshold);
  }

  lemma {:induction false} KeepsNone(obs: seq<Obs>, med: real, mad: real, threshold: real)
    requires forall i :: 0 <= i < |obs| ==> !IsInlier(obs[i], med, mad, threshold)
    ensures Keep(obs, med, mad, threshold) == []
  {
    if obs != [] { KeepsNone(obs[1..], med, mad, threshold); }
  }

  lemma MedianOfTwo(x: real, y: real)
    requires x <= y
    ensures Median([x, y]) == (x + y) / 2.0
  {
    SortSmall(x, y);
  }

  lemma SortSmall(x: real, y: real)
    requires x <= y
    ensures Sort(Le, [x, y]) == [x, y]
  {
    assert [x, y][1..] == [y] && [y][1..] == [];
    assert Sort(Le, [y]) == [y];
  }

  // ----- the phantom filter -----

  predicate Phantom(obs: seq<Obs>, threshold: real, minEvidence: int, minConfidence: real, confidence: real)
    requires obs != []
  {
    |obs| >= 3 && |Inliers(obs, threshold)| < minEvidence && confidence < minConfidence
  }

  /** The fewest inliers that three or more observations can have. */
  function FewestInliers(threshold: real): nat {
    if 0.0 <= threshold < 1.0 then 1 else 2
  }

  /** For every threshold, the filter can drop something exactly when it asks for more inliers than the
      fewest possible and for a positive confidence. With the defaults (3.0, 2 and 0.45) it never fires. */
  lemma PhantomUnreachableIff(threshold: real, minEvidence: int, minConfidence: real)
    ensures (forall obs: seq<Obs>, c: real :: obs != [] && 0.0 <= c <= 1.0 ==>
               !Phantom(obs, threshold, minEvidence, minConfidence, c))
      <==> minEvidence <= FewestInliers(threshold) || minConfidence <= 0.0
  {
    hide Kept, Inliers;
    if minEvidence <= FewestInliers(threshold) {
      forall obs: seq<Obs>, c: real | obs != []
        ensures !Phantom(obs, threshold, minEvidence, minConfidence, c)
      {
        if |obs| >= 3 { AtLeastFewest(obs, threshold); }
      }
    } else if minConfidence > 0.0 {
      FewestIsReached(threshold);
      var obs := Scarce(threshold);
      assert Phantom(obs, threshold, minEvidence, minConfidence, 0.0);
    }
  }

  lemma AtLeastFewest(obs: seq<Obs>, threshold: real)
    requires |obs| >= 3
    ensures |Inliers(obs, threshold)| >= FewestInliers(threshold)
  {
    hide Median, Keep, IsInlier, Deviations;
    if threshold >= 1.0 {
      HalfAreInliers(obs, threshold);
    } else if Mad(Values(obs), Median(Values(obs))) == 0.0 {
      ZeroMad(obs, threshold);
    } else if threshold < 0.0 {
      NegativeKeepsNone(obs, threshold);
    }
  }

  /** A negative threshold keeps nothing once the MAD is positive, so that the fallback takes all. */
  lemma NegativeKeepsNone(obs: seq<Obs>, threshold: real)
    requires obs != [] && threshold < 0.0 && Mad(Values(obs), Median(Values(obs))) != 0.0
    ensures Kept(obs, threshold) == []
  {
    hide Median, Keep, Deviations;
    var med := Median(Values(obs));
    MadIsMedian(obs);
    PositiveMad(Deviations(Values(obs), med));
    var mad := Mad(Values(obs), med);
    assert threshold * mad < 0.0;
    KeepsNone(obs, med, mad, threshold);
  }

  /** Three observations with the fewest inliers. */
  function Scarce(threshold: real): (obs: seq<Obs>)
    ensures |obs| == 3
  {
    if 0.0 <= threshold < 1.0 then [Obs(0, 0.0), Obs(1, 0.0), Obs(2, 0.0)]
    else [Obs(0, 0.0), Obs(0, 0.0), Obs(5, 0.0)]
  }

  lemma FewestIsReached(threshold: real)
    ensures |Inliers(Scarce(threshold), threshold)| == FewestInliers(threshold)
  {
    hide Inliers;
    if 0.0 <= threshold < 1.0 { OneOfThree(threshold); } else { TwoOfThree(threshold); }
  }

  lemma OneOfThree(threshold: real)
    requires 0.0 <= threshold < 1.0
    ensures |Inliers([Obs(0, 0.0), Obs(1, 0.0), Obs(2, 0.0)], threshold)| == 1
  {
    var a, b, c := Obs(0, 0.0), Obs(1, 0.0), Obs(2, 0.0);
    var obs := [a, b, c];
    assert Values(obs) == [0.0, 1.0, 2.0];
    assert Median([0.0, 1.0, 2.0]) == 1.0;
    assert Deviations([0.0, 1.0, 2.0], 1.0) == [1.0, 0.0, 1.0];
    OneZeroOne();
    KeepMiddle(a, b, c, threshold);
  }

  lemma OneZeroOne()
    ensures Median([1.0, 0.0, 1.0]) == 1.0
  {
    SortSmall(0.0, 1.0);
    assert [1.0, 0.0, 1.0][1..] == [0.0, 1.0] && [0.0, 1.0][1..] == [1.0];
    assert Insert(Le, 1.0, [1.0]) == [1.0, 1.0];
    assert Insert(Le, 1.0, [0.0, 1.0]) == [0.0, 1.0, 1.0];
    assert Sort(Le, [1.0, 0.0, 1.0]) == [0.0, 1.0, 1.0];
  }

  lemma KeepMiddle(a: Obs, b: Obs, c: Obs, threshold: real)
    requires !IsInlier(a, 1.0, 1.0, threshold) && IsInlier(b, 1.0, 1.0, threshold) && !IsInlier(c, 1.0, 1.0, threshold)
    ensures Keep([a, b, c], 1.0, 1.0, threshold) == [b]
  {
    hide IsInlier;
    assert [a, b, c][1..] == [b, c] && [b, c][1..] == [c] && [c][1..] == [];
    assert Keep([c], 1.0, 1.0, threshold) == [];
    assert Keep([b, c], 1.0, 1.0, threshold) == [b];
  }

  lemma TwoOfThree(threshold: real)
    ensures |Inliers([Obs(0, 0.0), Obs(0, 0.0), Obs(5, 0.0)], threshold)| == 2
  {
    hide IsInlier;
    var a, b := Obs(0, 0.0), Obs(5, 0.0);
    var obs := [a, a, b];
    assert Values(obs) == [0.0, 0.0, 5.0];
    assert Median([0.0, 0.0, 5.0]) == 0.0;
    assert Deviations([0.0, 0.0, 5.0], 0.0) == [0.0, 0.0, 5.0];
    assert Mad([0.0, 0.0, 5.0], 0.0) == 0.0;
    AtMedian(obs, 0.0);
    assert obs[1..] == [a, b] && [a, b][1..] == [b] && [b][1..] == [];
    KeepThree(a, b, threshold);
  }

  lemma KeepThree(a: Obs, b: Obs, threshold: real)
    requires IsInlier(a, 0.0, 0.0, threshold) && !IsInlier(b, 0.0, 0.0, threshold)
    ensures Keep([a, a, b], 0.0, 0.0, threshold) == [a, a]
  {
    hide IsInlier;
    assert [a, a, b][1..] == [a, b] && [a, b][1..] == [b] && [b][1..] == [];
    assert Keep([b], 0.0, 0.0, threshold) == [];
    assert Keep([a, b], 0.0, 0.0, threshold) == [a];
  }

  // ----- first appearances -----

  /** The keys of a dictionary filled in this order. */
  function Firsts<T(==, !new)>(xs: seq<T>): (r: seq<T>)
    ensures forall x :: x in r <==> x in xs
  {
    if xs == [] then []
    else
      var front := Firsts(xs[..|xs| - 1]);
      var last := xs[|xs| - 1];
      assert xs == xs[..|xs| - 1] + [last];
      if last in front then front else front + [last]
  }

  lemma {:induction false} FirstsDistinct<T(!new)>(xs: seq<T>)
    ensures Distinct(Firsts(xs))
  {
    if xs != [] {
      FirstsDistinct(xs[..|xs| - 1]);
    }
  }

  /** They stand in the order of their first appearances: each has appeared before any later one has. */
  lemma {:induction false} FirstsInOrder<T(!new)>(xs: seq<T>, i: nat, j: nat) returns (k: nat)
    requires i < j < |Firsts(xs)|
    ensures k < |xs| && xs[k] == Firsts(xs)[i] && Firsts(xs)[j] !in xs[..k + 1]
  {
    var front, last := xs[..|xs| - 1], xs[|xs| - 1];
    if j < |Firsts(front)| {
      k := FirstsInOrder(front, i, j);
      assert xs[..k + 1] == front[..k + 1];
    } else {
      assert Firsts(front)[i] in front;
      k :| 0 <= k < |front| && front[k] == Firsts(front)[i];
      assert last !in front;
      assert forall x :: x in xs[..k + 1] ==> x in front;
    }
  }

  lemma FirstsSnoc<T(!new)>(xs: seq<T>, x: T)
    ensures Firsts(xs + [x]) == if x in xs then Firsts(xs) else Firsts(xs) + [x]
  {
    assert (xs + [x])[..|xs|] == xs;
  }

  // ----- the weighted mode -----

  function Boxes(obs: seq<Obs>): (r: seq<int>)
    ensures |r| == |obs| && forall i :: 0 <= i < |obs| ==> r[i] == obs[i].boxes
  {
    seq(|obs|, i requires 0 <= i < |obs| => obs[i].boxes)
  }

  /** The confidence given to one count. */
  function Weight(obs: seq<Obs>, boxes: int): real {
    if obs == [] then 0.0
    else
      var last := obs[|obs| - 1];
      Weight(obs[..|obs| - 1], boxes) + (if last.boxes == boxes then last.confidence else 0.0)
  }

  /** Of the counts that weigh most, the one seen first. */
  ghost predicate IsMode(obs: seq<Obs>, estimate: int) {
    var order := Firsts(Boxes(obs));
    exists i :: 0 <= i < |order| && order[i] == estimate
      && (forall j :: 0 <= j < |order| ==> Weight(obs, order[j]) <= Weight(obs, estimate))
      && (forall j :: 0 <= j < i ==> Weight(obs, order[j]) < Weight(obs, estimate))
  }

  lemma ModeIsUnique(obs: seq<Obs>, a: int, b: int)
    requires IsMode(obs, a) && IsMode(obs, b)
    ensures a == b
  {
    hide Firsts, Weight;
  }

  /** The estimate is a count some inlier reported, and none weighs more. */
  lemma ModeIsObserved(obs: seq<Obs>, estimate: int)
    requires IsMode(obs, estimate)
    ensures exists i :: 0 <= i < |obs| && obs[i].boxes == estimate
    ensures forall i :: 0 <= i < |obs| ==> Weight(obs, obs[i].boxes) <= Weight(obs, estimate)
  {
    hide Firsts, Weight;
    var boxes := Boxes(obs);
    assert estimate in Firsts(boxes);
    assert estimate in boxes;
    forall i | 0 <= i < |obs| ensures Weight(obs, obs[i].boxes) <= Weight(obs, estimate) {
      assert boxes[i] in Firsts(boxes);
    }
  }

  method WeightedMode(inliers: seq<Obs>) returns (estimate: int)
    requires inliers != []
    ensures IsMode(inliers, estimate)
  {
    hide Weight, Firsts, Boxes;
    var weights: map<int, real>, order: seq<int> := map[], [];
    assert inliers[..0] == [];
    NoBoxes();
    for i := 0 to |inliers|
      invariant order == Firsts(Boxes(inliers[..i]))
      invariant forall v :: v in weights <==> v in order
      invariant forall v: int :: (if v in weights then weights[v] else 0.0) == Weight(inliers[..i], v)
    {
      var o := inliers[i];
      OneMoreBox(inliers, i);
      if o.boxes !in weights {
        order := order + [o.boxes];
        weights := weights[o.boxes := 0.0];
      }
      weights := weights[o.boxes := weights[o.boxes] + o.confidence];
    }
    assert inliers[..|inliers|] == inliers;
    SomeBox(inliers);
    var best := 0;
    forall j | 0 <= j < |order| ensures order[j] in weights {
      assert order[j] in order;
    }
    for i := 1 to |order|
      invariant 0 <= best < |order|
      invariant forall j :: 0 <= j < i ==> weights[order[j]] <= weights[order[best]]
      invariant forall j :: 0 <= j < best ==> weights[order[j]] < weights[order[best]]
    {
      if weights[order[i]] > weights[order[best]] { best := i; }
    }
    estimate := order[best];
  }

  lemma NoBoxes()
    ensures Firsts(Boxes([])) == [] && forall v :: Weight([], v) == 0.0
  {
    assert Boxes([]) == [];
  }

  lemma SomeBox(obs: seq<Obs>)
    requires obs != []
    ensures Firsts(Boxes(obs)) != []
  {
    hide Firsts;
    assert Boxes(obs)[0] in Firsts(Boxes(obs));
  }

  lemma OneMoreBox(obs: seq<Obs>, i: nat)
    requires i < |obs|
    ensures Firsts(Boxes(obs[..i + 1]))
      == if obs[i].boxes in Firsts(Boxes(obs[..i])) then Firsts(Boxes(obs[..i])) else Firsts(Boxes(obs[..i])) + [obs[i].boxes]
    ensures forall v ::
      Weight(obs[..i + 1], v) == Weight(obs[..i], v) + (if obs[i].boxes == v then obs[i].confidence else 0.0)
  {
    hide Firsts;
    assert Boxes(obs[..i + 1]) == Boxes(obs[..i]) + [obs[i].boxes];
    FirstsSnoc(Boxes(obs[..i]), obs[i].boxes);
    assert obs[..i + 1][..i] == obs[..i];
  }

  /** The confidence given to a count adds up over the observations. */
  lemma {:induction false} WeightConcat(a: seq<Obs>, b: seq<Obs>, boxes: int)
    ensures Weight(a + b, boxes) == Weight(a, boxes) + Weight(b, boxes)
  {
    if b == [] {
      assert a + b == a;
    } else {
      assert (a + b)[..|a + b| - 1] == a + b[..|b| - 1];
      WeightConcat(a, b[..|b| - 1], boxes);
    }
  }

  // ----- a worked case -----

  lemma CountFour(w: real, x: real, y: real, z: real, bound: real)
    ensures CountLe([w, x, y, z], bound)
      == (if w <= bound then 1 else 0) + (if x <= bound then 1 else 0) + (if y <= bound then 1 else 0) + (if z <= bound then 1 else 0)
    ensures CountLt([w, x, y, z], bound)
      == (if w < bound then 1 else 0) + (if x < bound then 1 else 0) + (if y < bound then 1 else 0) + (if z < bound then 1 else 0)
  {
    assert [w, x, y, z][1..] == [x, y, z] && [x, y, z][1..] == [y, z] && [y, z][1..] == [z] && [z][1..] == [];
    assert CountLe([z], bound) == if z <= bound then 1 else 0;
    assert CountLt([z], bound) == if z < bound then 1 else 0;
    assert CountLe([y, z], bound) == (if y <= bound then 1 else 0) + CountLe([z], bound);
    assert CountLt([y, z], bound) == (if y < bound then 1 else 0) + CountLt([z], bound);
    assert CountLe([x, y, z], bound) == (if x <= bound then 1 else 0) + CountLe([y, z], bound);
    assert CountLt([x, y, z], bound) == (if x < bound then 1 else 0) + CountLt([y, z], bound);
  }

  /** Counts 10, 11, 12 and one wild 100: median 11.5, MAD 1. */
  lemma CentreOfCase()
    ensures Median([10.0, 11.0, 12.0, 100.0]) == 11.5 && Mad([10.0, 11.0, 12.0, 100.0], 11.5) == 1.0
  {
    hide CountLe, CountLt, Median;
    var xs, devs := [10.0, 11.0, 12.0, 100.0], [1.5, 0.5, 0.5, 88.5];
    CountFour(10.0, 11.0, 12.0, 100.0, 11.0);
    CountFour(10.0, 11.0, 12.0, 100.0, 12.0);
    MedianIs(xs, 11.0, 12.0);
    CountFour(1.5, 0.5, 0.5, 88.5, 0.5);
    CountFour(1.5, 0.5, 0.5, 88.5, 1.5);
    MedianIs(devs, 0.5, 1.5);
    assert Deviations(xs, 11.5) == devs;
  }

  /** With the default threshold the wild one is no inlier although it is the surest, and the first of the
      other three, all equally sure, is the estimate. */
  lemma WildCountIsIgnored(estimate: int)
    ensures var a, b, c, d := Obs(10, 0.9), Obs(11, 0.9), Obs(12, 0.9), Obs(100, 0.95);
      && Inliers([a, b, c, d], 3.0) == [a, b, c]
      && (IsMode([a, b, c], estimate) <==> estimate == 10)
  {
    hide Median, Mad, IsMode, Weight, Firsts, Keep;
    var a, b, c, d := Obs(10, 0.9), Obs(11, 0.9), Obs(12, 0.9), Obs(100, 0.95);
    var obs := [a, b, c, d];
    assert Values(obs) == [10.0, 11.0, 12.0, 100.0];
    CentreOfCase();
    KeepCons(a, [b, c, d], 11.5, 1.0, 3.0);
    KeepCons(b, [c, d], 11.5, 1.0, 3.0);
    KeepCons(c, [d], 11.5, 1.0, 3.0);
    KeepCons(d, [], 11.5, 1.0, 3.0);
    assert [a] + [b, c, d] == obs && [b] + [c, d] == [b, c, d] && [c] + [d] == [c, d] && [d] + [] == [d];
    KeepsNone([], 11.5, 1.0, 3.0);
    FirstOfThree(a, b, c, 0.9);
    if IsMode([a, b, c], estimate) { ModeIsUnique([a, b, c], estimate, 10); }
  }

  lemma FirstOfThree(a: Obs, b: Obs, c: Obs, confidence: real)
    requires a.confidence == confidence && b.confidence == confidence && c.confidence == confidence
    requires a.boxes != b.boxes && a.boxes != c.boxes && b.boxes != c.boxes
    ensures IsMode([a, b, c], a.boxes)
  {
    hide Weight, Firsts, Distinct;
    var obs := [a, b, c];
    assert Boxes(obs) == [a.boxes] + [b.boxes] + [c.boxes] && [] + [a.boxes] == [a.boxes];
    NoBoxes();
    assert Boxes([]) == [];
    FirstsSnoc([], a.boxes);
    FirstsSnoc([a.boxes], b.boxes);
    FirstsSnoc([a.boxes] + [b.boxes], c.boxes);
    assert Firsts(Boxes(obs)) == [a.boxes, b.boxes, c.boxes];
    forall v ensures Weight(obs, v)
      == (if a.boxes == v then confidence else 0.0) + (if b.boxes == v then confidence else 0.0)
         + (if c.boxes == v then confidence else 0.0)
    {
      OneWeight(a, v);
      OneWeight(b, v);
      OneWeight(c, v);
      WeightConcat([a], [b], v);
      WeightConcat([a] + [b], [c], v);
      assert [a] + [b] + [c] == obs;
    }
    assert Firsts(Boxes(obs))[0] == a.boxes;
  }

  lemma OneWeight(o: Obs, v: int)
    ensures Weight([o], v) == if o.boxes == v then o.confidence else 0.0
  {
    assert [o][..0] == [];
  }
}
