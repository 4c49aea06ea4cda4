/** Greedy planning of bulk uploads (scripts/benchmark_bulk_upload_batching.py). */
module BatchPlanner {

  function Sum(xs: seq<int>): int {
    if xs == [] then 0 else Sum(xs[..|xs| - 1]) + xs[|xs| - 1]
  }

  function Flatten(batches: seq<seq<int>>): seq<int> {
    if batches == [] then [] else batches[0] + Flatten(batches[1..])
  }

  ghost predicate Positive(sizes: seq<int>) {
    forall i :: 0 <= i < |sizes| ==> sizes[i] > 0
  }

  ghost predicate NonNegative(sizes: seq<int>) {
    forall i :: 0 <= i < |sizes| ==> sizes[i] >= 0
  }

  /** The rule a batch must obey: within both limits, or one item that is oversized on its own. */
  ghost predicate Allowed(batch: seq<int>, maxFiles: int, maxBytes: int) {
    |batch| <= maxFiles && (Sum(batch) <= maxBytes || |batch| == 1)
  }

  /** Any way of cutting `sizes`, in order, into batches that obey the rule. */
  ghost predicate Partition(batches: seq<seq<int>>, sizes: seq<int>, maxFiles: int, maxBytes: int) {
    Flatten(batches) == sizes
    && forall b :: b in batches ==> Allowed(b, maxFiles, maxBytes)
  }

  /** The open batch is closed before `size` is added to it. */
  predicate ClosesBefore(current: seq<int>, size: int, maxFiles: int, maxBytes: int) {
    current != [] && (|current| >= maxFiles || Sum(current) + size > maxBytes)
  }

  /** The open batch is closed as soon as its last item is in. */
  predicate ClosesAfter(open: seq<int>, maxFiles: int, maxBytes: int) {
    |open| >= maxFiles || Sum(open) >= maxBytes
  }

  /** What is still to be planned once `current` is open and `rest` is unread. */
  function Plan(current: seq<int>, rest: seq<int>, maxFiles: int, maxBytes: int): seq<seq<int>>
    decreases |rest|, 0
  {
    if rest == [] then (if current == [] then [] else [current])
    else if ClosesBefore(current, rest[0], maxFiles, maxBytes)
    then [current] + PlanAfter([rest[0]], rest[1..], maxFiles, maxBytes)
    else PlanAfter(current + [rest[0]], rest[1..], maxFiles, maxBytes)
  }

  function PlanAfter(open: seq<int>, rest: seq<int>, maxFiles: int, maxBytes: int): seq<seq<int>>
    decreases |rest|, 1
  {
    if ClosesAfter(open, maxFiles, maxBytes)
    then [open] + Plan([], rest, maxFiles, maxBytes)
    else Plan(open, rest, maxFiles, maxBytes)
  }

  /** One item read: what was planned plus what is left stays the same. */
  lemma ReadItem(done: seq<seq<int>>, current: seq<int>, rest: seq<int>, maxFiles: int, maxBytes: int)
    requires rest != []
    ensures var early := ClosesBefore(current, rest[0], maxFiles, maxBytes);
            done + Plan(current, rest, maxFiles, maxBytes)
            == (if early then done + [current] else done)
               + PlanAfter((if early then [] else current) + [rest[0]], rest[1..], maxFiles, maxBytes)
  {
    if ClosesBefore(current, rest[0], maxFiles, maxBytes) {
      assert [] + [rest[0]] == [rest[0]];
      Regroup(done, current, PlanAfter([rest[0]], rest[1..], maxFiles, maxBytes));
    }
  }

  /** ... and so it does once that item is in. */
  lemma CloseItem(done: seq<seq<int>>, open: seq<int>, rest: seq<int>, maxFiles: int, maxBytes: int)
    ensures done + PlanAfter(open, rest, maxFiles, maxBytes)
         == if ClosesAfter(open, maxFiles, maxBytes) then (done + [open]) + Plan([], rest, maxFiles, maxBytes)
            else done + Plan(open, rest, maxFiles, maxBytes)
  {
    hide Plan, ClosesAfter;
    Regroup(done, open, Plan([], rest, maxFiles, maxBytes));
  }

  lemma SumOfNone()
    ensures Sum([]) == 0
  {
  }

  lemma Regroup<T>(xs: seq<T>, y: T, zs: seq<T>)
    ensures xs + ([y] + zs) == (xs + [y]) + zs
  {
  }

  lemma SumPush(xs: seq<int>, x: int)
    ensures Sum(xs + [x]) == Sum(xs) + x
  {
    assert (xs + [x])[..|xs|] == xs;
  }

  method CreateBatches(sizes: seq<int>, maxFiles: int, maxBytes: int) returns (batches: seq<seq<int>>)
    ensures batches == Plan([], sizes, maxFiles, maxBytes)
  {
    hide Plan, PlanAfter, Sum;
    batches := [];
    var current: seq<int> := [];
    var currentBytes := 0;
    ghost var rest := sizes;
    SumOfNone();
    for i := 0 to |sizes|
      invariant rest == sizes[i..]
      invariant currentBytes == Sum(current) && Sum([]) == 0
      invariant batches + Plan(current, rest, maxFiles, maxBytes) == Plan([], sizes, maxFiles, maxBytes)
    {
      var size := sizes[i];
      ReadItem(batches, current, rest, maxFiles, maxBytes);
      rest := rest[1..];
      if current != [] && (|current| >= maxFiles || currentBytes + size > maxBytes) {
        batches := batches + [current];
        current := [];
        currentBytes := 0;
      }
      SumPush(current, size);
      current := current + [size];
      currentBytes := currentBytes + size;
      CloseItem(batches, current, rest, maxFiles, maxBytes);
      if |current| >= maxFiles || currentBytes >= maxBytes {
        batches := batches + [current];
        current := [];
        currentBytes := 0;
      }
    }
    LastBatch(batches, current, maxFiles, maxBytes);
    if current != [] {
      batches := batches + [current];
    }
  }

  lemma LastBatch(done: seq<seq<int>>, current: seq<int>, maxFiles: int, maxBytes: int)
    ensures done + Plan(current, [], maxFiles, maxBytes) == if current == [] then done else done + [current]
  {
  }

  // ----- sums of consecutive items -----

  lemma {:induction false} SumAppend(xs: seq<int>, ys: seq<int>)
    ensures Sum(xs + ys) == Sum(xs) + Sum(ys)
  {
    if ys == [] {
      assert xs + ys == xs;
    } else {
      assert (xs + ys)[..|xs + ys| - 1] == xs + ys[..|ys| - 1];
      SumAppend(xs, ys[..|ys| - 1]);
    }
  }

  lemma {:induction false} SumNonNegative(xs: seq<int>)
    requires NonNegative(xs)
    ensures Sum(xs) >= 0
  {
    if xs != [] { SumNonNegative(xs[..|xs| - 1]); }
  }

  /** Every run of consecutive items inside an allowed batch is allowed. */
  lemma AllowedInside(batch: seq<int>, i: nat, j: nat, maxFiles: int, maxBytes: int)
    requires NonNegative(batch) && i <= j <= |batch|
    requires Allowed(batch, maxFiles, maxBytes) && maxBytes >= 1
    ensures Allowed(batch[i..j], maxFiles, maxBytes)
  {
    assert batch == batch[..i] + batch[i..j] + batch[j..];
    SumAppend(batch[..i] + batch[i..j], batch[j..]);
    SumAppend(batch[..i], batch[i..j]);
    SumNonNegative(batch[..i]);
    SumNonNegative(batch[j..]);
    if i == j { assert Sum(batch[i..j]) == 0; }
  }

  // ----- the plan, batch by batch -----

  /** How many unread items the planner adds before it closes the open batch. */
  function Take(current: seq<int>, rest: seq<int>, maxFiles: int, maxBytes: int): (k: nat)
    ensures k <= |rest|
    ensures current == [] && rest != [] ==> k >= 1
    decreases |rest|
  {
    if rest == [] || ClosesBefore(current, rest[0], maxFiles, maxBytes) then 0
    else if ClosesAfter(current + [rest[0]], maxFiles, maxBytes) then 1
    else 1 + Take(current + [rest[0]], rest[1..], maxFiles, maxBytes)
  }

  /** The batch the planner closes next. */
  function Next(current: seq<int>, rest: seq<int>, maxFiles: int, maxBytes: int): seq<int> {
    current + rest[..Take(current, rest, maxFiles, maxBytes)]
  }

  lemma NextStep(current: seq<int>, rest: seq<int>, maxFiles: int, maxBytes: int)
    requires rest != [] && !ClosesBefore(current, rest[0], maxFiles, maxBytes)
    ensures var open := current + [rest[0]];
            if ClosesAfter(open, maxFiles, maxBytes)
            then Next(current, rest, maxFiles, maxBytes) == open
            else Next(current, rest, maxFiles, maxBytes) == Next(open, rest[1..], maxFiles, maxBytes)
  {
    var open := current + [rest[0]];
    var k := Take(current, rest, maxFiles, maxBytes);
    if ClosesAfter(open, maxFiles, maxBytes) {
      assert rest[..1] == [rest[0]];
    } else {
      assert rest[..k] == [rest[0]] + rest[1..][..k - 1];
    }
  }

  lemma {:induction false} PlanUnfolds(current: seq<int>, rest: seq<int>, maxFiles: int, maxBytes: int)
    requires current != [] || rest != []
    ensures Plan(current, rest, maxFiles, maxBytes)
         == [Next(current, rest, maxFiles, maxBytes)]
            + Plan([], rest[Take(current, rest, maxFiles, maxBytes)..], maxFiles, maxBytes)
    decreases |rest|
  {
    if rest == [] {
      assert current + [] == current;
    } else if ClosesBefore(current, rest[0], maxFiles, maxBytes) {
      assert current + rest[..0] == current;
      assert rest[0..] == rest;
      assert [] + [rest[0]] == [rest[0]];
      assert Plan([], rest, maxFiles, maxBytes) == PlanAfter([rest[0]], rest[1..], maxFiles, maxBytes);
    } else {
      var open := current + [rest[0]];
      NextStep(current, rest, maxFiles, maxBytes);
      if !ClosesAfter(open, maxFiles, maxBytes) {
        PlanUnfolds(open, rest[1..], maxFiles, maxBytes);
        var k := Take(open, rest[1..], maxFiles, maxBytes);
        assert rest[1..][k..] == rest[k + 1..];
      }
    }
  }

  lemma {:induction false} NextAllowed(current: seq<int>, rest: seq<int>, maxFiles: int, maxBytes: int)
    requires maxFiles >= 1
    requires current == [] || !ClosesAfter(current, maxFiles, maxBytes)
    requires maxBytes >= 1
    ensures Allowed(Next(current, rest, maxFiles, maxBytes), maxFiles, maxBytes)
    decreases |rest|
  {
    if rest == [] || ClosesBefore(current, rest[0], maxFiles, maxBytes) {
      assert Next(current, rest, maxFiles, maxBytes) == current;
    } else {
      var open := current + [rest[0]];
      assert open[..|current|] == current;
      NextStep(current, rest, maxFiles, maxBytes);
      if !ClosesAfter(open, maxFiles, maxBytes) {
        NextAllowed(open, rest[1..], maxFiles, maxBytes);
      }
    }
  }

  // ----- the plan is a partition -----

  lemma {:induction false} PlanIsPartition(sizes: seq<int>, maxFiles: int, maxBytes: int)
    requires maxFiles >= 1 && maxBytes >= 1
    ensures Partition(Plan([], sizes, maxFiles, maxBytes), sizes, maxFiles, maxBytes)
    ensures [] !in Plan([], sizes, maxFiles, maxBytes)
    decreases |sizes|
  {
    if sizes != [] {
      var k := Take([], sizes, maxFiles, maxBytes);
      var tail := Plan([], sizes[k..], maxFiles, maxBytes);
      PlanUnfolds([], sizes, maxFiles, maxBytes);
      NextAllowed([], sizes, maxFiles, maxBytes);
      PlanIsPartition(sizes[k..], maxFiles, maxBytes);
      assert [] + sizes[..k] == sizes[..k];
      assert sizes == sizes[..k] + sizes[k..];
    }
  }

  // ----- a reference planner: every batch as long as the rule allows -----

  /** How many unread items fit into the open batch. */
  function Fill(current: seq<int>, rest: seq<int>, maxFiles: int, maxBytes: int): (k: nat)
    ensures k <= |rest|
    ensures current == [] && rest != [] ==> k >= 1
    decreases |rest|
  {
    if rest == [] || ClosesBefore(current, rest[0], maxFiles, maxBytes) then 0
    else 1 + Fill(current + [rest[0]], rest[1..], maxFiles, maxBytes)
  }

  function Lazy(sizes: seq<int>, maxFiles: int, maxBytes: int): seq<seq<int>>
    decreases |sizes|
  {
    if sizes == [] then []
    else
      var k := Fill([], sizes, maxFiles, maxBytes);
      [sizes[..k]] + Lazy(sizes[k..], maxFiles, maxBytes)
  }

  /** What fits is allowed... */
  lemma {:induction false} FillIsAllowed(current: seq<int>, rest: seq<int>, maxFiles: int, maxBytes: int)
    requires Allowed(current, maxFiles, maxBytes) && maxFiles >= 1
    ensures Allowed(current + rest[..Fill(current, rest, maxFiles, maxBytes)], maxFiles, maxBytes)
    decreases |rest|
  {
    hide Sum;
    if rest == [] || ClosesBefore(current, rest[0], maxFiles, maxBytes) {
      assert current + rest[..0] == current;
    } else {
      var open := current + [rest[0]];
      var k := Fill(open, rest[1..], maxFiles, maxBytes);
      SumPush(current, rest[0]);
      FillIsAllowed(open, rest[1..], maxFiles, maxBytes);
      assert current + rest[..k + 1] == open + rest[1..][..k];
    }
  }

  /** ... and nothing longer is. */
  lemma {:induction false} FillIsLongest(current: seq<int>, rest: seq<int>, p: nat, maxFiles: int, maxBytes: int)
    requires NonNegative(rest) && Fill(current, rest, maxFiles, maxBytes) < p <= |rest|
    ensures !Allowed(current + rest[..p], maxFiles, maxBytes)
    decreases |rest|
  {
    hide Sum, Allowed;
    var open := current + [rest[0]];
    assert current + rest[..p] == open + rest[1..][..p - 1];
    if ClosesBefore(current, rest[0], maxFiles, maxBytes) {
      Overfull(current, rest[0], rest[1..][..p - 1], maxFiles, maxBytes);
    } else {
      FillIsLongest(open, rest[1..], p - 1, maxFiles, maxBytes);
    }
  }

  lemma Overfull(current: seq<int>, size: int, more: seq<int>, maxFiles: int, maxBytes: int)
    requires NonNegative(more) && ClosesBefore(current, size, maxFiles, maxBytes)
    ensures !Allowed((current + [size]) + more, maxFiles, maxBytes)
  {
    SumPush(current, size);
    SumAppend(current + [size], more);
    SumNonNegative(more);
  }

  lemma NothingIsAllowed(maxFiles: int, maxBytes: int)
    requires maxFiles >= 1 && maxBytes >= 1
    ensures Allowed([], maxFiles, maxBytes)
  {
  }

  lemma FirstFill(sizes: seq<int>, maxFiles: int, maxBytes: int) returns (k: nat)
    requires sizes != [] && NonNegative(sizes) && maxFiles >= 1 && maxBytes >= 1
    ensures 1 <= k <= |sizes| && k == Fill([], sizes, maxFiles, maxBytes)
    ensures Allowed(sizes[..k], maxFiles, maxBytes)
    ensures forall p :: k < p <= |sizes| ==> !Allowed(sizes[..p], maxFiles, maxBytes)
    ensures Lazy(sizes, maxFiles, maxBytes) == [sizes[..k]] + Lazy(sizes[k..], maxFiles, maxBytes)
  {
    hide Allowed, ClosesBefore;
    k := Fill([], sizes, maxFiles, maxBytes);
    NothingIsAllowed(maxFiles, maxBytes);
    FillIsAllowed([], sizes, maxFiles, maxBytes);
    assert [] + sizes[..k] == sizes[..k];
    forall p | k < p <= |sizes| ensures !Allowed(sizes[..p], maxFiles, maxBytes) {
      FillIsLongest([], sizes, p, maxFiles, maxBytes);
      assert [] + sizes[..p] == sizes[..p];
    }
  }

  lemma {:induction false} LazyIsPartition(sizes: seq<int>, maxFiles: int, maxBytes: int)
    requires NonNegative(sizes) && maxFiles >= 1 && maxBytes >= 1
    ensures Partition(Lazy(sizes, maxFiles, maxBytes), sizes, maxFiles, maxBytes)
    decreases |sizes|
  {
    if sizes != [] {
      var k := FirstFill(sizes, maxFiles, maxBytes);
      LazyIsPartition(sizes[k..], maxFiles, maxBytes);
      assert sizes == sizes[..k] + sizes[k..];
    }
  }

  lemma LazyOfNone(maxFiles: int, maxBytes: int)
    ensures Lazy([], maxFiles, maxBytes) == []
  {
  }

  lemma SliceOfSlice<T>(s: seq<T>, d: nat, k: nat)
    requires d <= k <= |s|
    ensures s[d..][..k - d] == s[..k][d..k]
  {
  }

  /** Dropping items from the front never makes the reference plan longer. */
  lemma {:induction false} LazyMonotone(sizes: seq<int>, d: nat, maxFiles: int, maxBytes: int)
    requires NonNegative(sizes) && maxFiles >= 1 && maxBytes >= 1 && d <= |sizes|
    ensures |Lazy(sizes[d..], maxFiles, maxBytes)| <= |Lazy(sizes, maxFiles, maxBytes)|
    decreases |sizes|
  {
    hide Fill, Lazy, Allowed;
    LazyOfNone(maxFiles, maxBytes);
    if d == 0 {
      assert sizes[d..] == sizes;
    } else if d == |sizes| {
      assert sizes[d..] == [];
    } else {
      var k := FirstFill(sizes, maxFiles, maxBytes);
      if d >= k {
        LazyMonotone(sizes[k..], d - k, maxFiles, maxBytes);
        assert sizes[k..][d - k..] == sizes[d..];
      } else {
        var tail := sizes[d..];
        var k' := FirstFill(tail, maxFiles, maxBytes);
        AllowedInside(sizes[..k], d, k, maxFiles, maxBytes);
        SliceOfSlice(sizes, d, k);
        LazyMonotone(sizes[k..], d + k' - k, maxFiles, maxBytes);
        assert sizes[k..][d + k' - k..] == tail[k'..];
      }
    }
  }

  /** The reference plan uses as few batches as any order-preserving partition under the same rule, zero
      sizes included. */
  lemma {:induction false} LazyIsOptimal(sizes: seq<int>, other: seq<seq<int>>, maxFiles: int, maxBytes: int)
    requires NonNegative(sizes) && maxFiles >= 1 && maxBytes >= 1
    requires Partition(other, sizes, maxFiles, maxBytes)
    ensures |Lazy(sizes, maxFiles, maxBytes)| <= |other|
    decreases |other|
  {
    if sizes != [] {
      var first := other[0];
      assert sizes[|first|..] == Flatten(other[1..]);
      assert sizes[..|first|] == first;
      LazyIsOptimal(sizes[|first|..], other[1..], maxFiles, maxBytes);
      var k := FirstFill(sizes, maxFiles, maxBytes);
      LazyMonotone(sizes[|first|..], k - |first|, maxFiles, maxBytes);
      assert sizes[|first|..][k - |first|..] == sizes[k..];
    }
  }

  // ----- when the plan is the reference plan -----

  /** Closed for its bytes alone, with no byte to spare. */
  predicate ExactlyFull(batch: seq<int>, maxFiles: int, maxBytes: int) {
    Sum(batch) == maxBytes && |batch| < maxFiles
  }

  /** Some zero-size item opens a batch although the one before it had room for it: that one was closed at
      exactly the byte limit, below the file limit. */
  ghost predicate Spills(batches: seq<seq<int>>, maxFiles: int, maxBytes: int) {
    exists i :: 0 <= i < |batches| - 1 && SpillsAt(batches, i, maxFiles, maxBytes)
  }

  predicate SpillsAt(batches: seq<seq<int>>, i: int, maxFiles: int, maxBytes: int)
    requires 0 <= i < |batches| - 1
  {
    ExactlyFull(batches[i], maxFiles, maxBytes) && batches[i + 1] != [] && batches[i + 1][0] == 0
  }

  lemma {:induction false} TakeIsFill(current: seq<int>, rest: seq<int>, maxFiles: int, maxBytes: int)
    requires NonNegative(rest) && maxFiles >= 1 && maxBytes >= 1
    requires current == [] || !ClosesAfter(current, maxFiles, maxBytes)
    ensures var k := Take(current, rest, maxFiles, maxBytes);
      && k <= Fill(current, rest, maxFiles, maxBytes)
      && (k < Fill(current, rest, maxFiles, maxBytes)
          <==> k < |rest| && rest[k] == 0 && ExactlyFull(Next(current, rest, maxFiles, maxBytes), maxFiles, maxBytes))
    decreases |rest|
  {
    if rest == [] || ClosesBefore(current, rest[0], maxFiles, maxBytes) {
      assert Next(current, rest, maxFiles, maxBytes) == current;
    } else {
      var open := current + [rest[0]];
      NextStep(current, rest, maxFiles, maxBytes);
      if !ClosesAfter(open, maxFiles, maxBytes) {
        TakeIsFill(open, rest[1..], maxFiles, maxBytes);
      }
    }
  }

  lemma FirstOfPlan(sizes: seq<int>, maxFiles: int, maxBytes: int)
    requires sizes != [] && maxFiles >= 1 && maxBytes >= 1
    ensures var plan := Plan([], sizes, maxFiles, maxBytes);
      plan != [] && plan[0] != [] && plan[0][0] == sizes[0]
  {
    PlanUnfolds([], sizes, maxFiles, maxBytes);
  }

  lemma SpillsCons(batch: seq<int>, batches: seq<seq<int>>, maxFiles: int, maxBytes: int)
    ensures Spills([batch] + batches, maxFiles, maxBytes)
      <==> (batches != [] && SpillsAt([batch] + batches, 0, maxFiles, maxBytes)) || Spills(batches, maxFiles, maxBytes)
  {
    hide ExactlyFull;
    var all := [batch] + batches;
    if i :| 0 <= i < |all| - 1 && SpillsAt(all, i, maxFiles, maxBytes) {
      assert i > 0 ==> SpillsAt(batches, i - 1, maxFiles, maxBytes);
    }
    if i :| 0 <= i < |batches| - 1 && SpillsAt(batches, i, maxFiles, maxBytes) {
      assert SpillsAt(all, i + 1, maxFiles, maxBytes);
    }
  }

  /** The plan departs from the reference plan exactly when a zero spills. */
  lemma {:induction false} PlanIsLazyIff(sizes: seq<int>, maxFiles: int, maxBytes: int)
    requires NonNegative(sizes) && maxFiles >= 1 && maxBytes >= 1
    ensures Plan([], sizes, maxFiles, maxBytes) == Lazy(sizes, maxFiles, maxBytes)
      <==> !Spills(Plan([], sizes, maxFiles, maxBytes), maxFiles, maxBytes)
    decreases |sizes|
  {
    hide Take, Fill, Plan, Spills, ClosesBefore, ClosesAfter, Sum;
    PlanOfNone(maxFiles, maxBytes);
    if sizes != [] {
      var k := Take([], sizes, maxFiles, maxBytes);
      var first, tail := sizes[..k], Plan([], sizes[k..], maxFiles, maxBytes);
      PlanUnfolds([], sizes, maxFiles, maxBytes);
      assert [] + first == first;
      TakeIsFill([], sizes, maxFiles, maxBytes);
      PlanIsLazyIff(sizes[k..], maxFiles, maxBytes);
      SpillsCons(first, tail, maxFiles, maxBytes);
      if k < |sizes| { FirstOfPlan(sizes[k..], maxFiles, maxBytes); }
      SameHead(first, tail, sizes[..Fill([], sizes, maxFiles, maxBytes)],
               Lazy(sizes[Fill([], sizes, maxFiles, maxBytes)..], maxFiles, maxBytes));
    }
  }

  lemma PlanOfNone(maxFiles: int, maxBytes: int)
    ensures Plan([], [], maxFiles, maxBytes) == [] && !Spills([], maxFiles, maxBytes)
  {
  }

  lemma SameHead<T>(x: T, xs: seq<T>, y: T, ys: seq<T>)
    ensures [x] + xs == [y] + ys <==> x == y && xs == ys
  {
    assert ([x] + xs)[0] == x && ([y] + ys)[0] == y;
    assert ([x] + xs)[1..] == xs && ([y] + ys)[1..] == ys;
  }

  lemma {:induction false} PositiveNeverSpills(sizes: seq<int>, maxFiles: int, maxBytes: int)
    requires Positive(sizes) && maxFiles >= 1 && maxBytes >= 1
    ensures Plan([], sizes, maxFiles, maxBytes) == Lazy(sizes, maxFiles, maxBytes)
    decreases |sizes|
  {
    hide Take, Fill, Plan, ClosesBefore, ClosesAfter, Sum;
    PlanOfNone(maxFiles, maxBytes);
    if sizes != [] {
      var k := Take([], sizes, maxFiles, maxBytes);
      PlanUnfolds([], sizes, maxFiles, maxBytes);
      assert [] + sizes[..k] == sizes[..k];
      TakeIsFill([], sizes, maxFiles, maxBytes);
      PositiveNeverSpills(sizes[k..], maxFiles, maxBytes);
    }
  }

  // ----- no partition has fewer batches -----

  /** Dropping items from the front never makes the plan longer. */
  lemma CountMonotone(sizes: seq<int>, d: nat, maxFiles: int, maxBytes: int)
    requires Positive(sizes) && maxFiles >= 1 && maxBytes >= 1 && d <= |sizes|
    ensures |Plan([], sizes[d..], maxFiles, maxBytes)| <= |Plan([], sizes, maxFiles, maxBytes)|
  {
    PositiveNeverSpills(sizes, maxFiles, maxBytes);
    PositiveNeverSpills(sizes[d..], maxFiles, maxBytes);
    LazyMonotone(sizes, d, maxFiles, maxBytes);
  }

  /** The plan uses as few batches as any order-preserving partition under the same rule. */
  lemma PlanIsOptimal(sizes: seq<int>, other: seq<seq<int>>, maxFiles: int, maxBytes: int)
    requires Positive(sizes) && maxFiles >= 1 && maxBytes >= 1
    requires Partition(other, sizes, maxFiles, maxBytes)
    ensures |Plan([], sizes, maxFiles, maxBytes)| <= |other|
  {
    PositiveNeverSpills(sizes, maxFiles, maxBytes);
    LazyIsOptimal(sizes, other, maxFiles, maxBytes);
  }

  // ----- zero-size items -----

  ghost predicate Optimal(sizes: seq<int>, maxFiles: int, maxBytes: int) {
    forall other | Partition(other, sizes, maxFiles, maxBytes) ::
      |Plan([], sizes, maxFiles, maxBytes)| <= |other|
  }

  /** A list in which no zero spills is planned optimally; and any list is exactly when the spilled zeros
      add up to no further batch. */
  lemma OptimalUnlessSpilled(sizes: seq<int>, maxFiles: int, maxBytes: int)
    requires NonNegative(sizes) && maxFiles >= 1 && maxBytes >= 1
    ensures !Spills(Plan([], sizes, maxFiles, maxBytes), maxFiles, maxBytes) ==> Optimal(sizes, maxFiles, maxBytes)
    ensures Optimal(sizes, maxFiles, maxBytes)
      <==> |Plan([], sizes, maxFiles, maxBytes)| == |Lazy(sizes, maxFiles, maxBytes)|
  {
    hide Plan, Lazy, Spills, Partition;
    PlanIsLazyIff(sizes, maxFiles, maxBytes);
    LazyIsPartition(sizes, maxFiles, maxBytes);
    PlanIsPartition(sizes, maxFiles, maxBytes);
    forall other | Partition(other, sizes, maxFiles, maxBytes)
      ensures |Lazy(sizes, maxFiles, maxBytes)| <= |other|
    {
      LazyIsOptimal(sizes, other, maxFiles, maxBytes);
    }
  }

  /** An item that fills its batch is closed off; a zero-size item that would still fit starts a new one. */
  lemma ZeroAfterFullBatch(maxFiles: int, maxBytes: int)
    requires maxFiles >= 2 && maxBytes >= 1
    ensures Plan([], [maxBytes, 0], maxFiles, maxBytes) == [[maxBytes], [0]]
    ensures Partition([[maxBytes, 0]], [maxBytes, 0], maxFiles, maxBytes)
  {
    var full, zero := [maxBytes], [0];
    assert [maxBytes, 0][..1] == full && [maxBytes, 0][1..] == zero;
    assert full[..0] == [] && zero[..0] == [] && zero[1..] == [];
    assert [] + full == full && [] + zero == zero;
    assert Plan([], zero, maxFiles, maxBytes) == Plan(zero, [], maxFiles, maxBytes) == [zero];
    assert [[maxBytes, 0]] + [] == [[maxBytes, 0]];
  }

  /** A zero that spills into a batch needed anyway costs nothing. */
  lemma SpillMayBeHarmless(maxFiles: int, maxBytes: int)
    requires maxFiles >= 2 && maxBytes >= 1
    ensures var sizes := [maxBytes, 0, maxBytes];
      Spills(Plan([], sizes, maxFiles, maxBytes), maxFiles, maxBytes) && Optimal(sizes, maxFiles, maxBytes)
  {
    hide Partition, Optimal;
    var m := maxBytes;
    var sizes, tail := [m, 0, m], [0, m];
    assert [m][..0] == [] && [0][..0] == [] && tail[..1] == [0] && [m, 0][..1] == [m];
    assert Sum([m]) == m && Sum([0]) == 0;
    assert sizes[1..] == tail && tail[1..] == [m] && [m][1..] == [];
    assert [] + [m] == [m] && [] + [0] == [0] && [0] + [m] == tail && [m] + [0] == [m, 0];
    SumPush([0], m);
    SumPush([m], 0);
    assert Plan([], tail, maxFiles, m) == Plan([0], [m], maxFiles, m) == [tail];
    assert Plan([], sizes, maxFiles, m) == [[m], tail];
    assert SpillsAt([[m], tail], 0, maxFiles, m);
    assert Fill([m, 0], [m], maxFiles, m) == 0;
    assert Fill([m], tail, maxFiles, m) == 1;
    assert Fill([], sizes, maxFiles, m) == 2;
    assert sizes[2..] == [m] && Fill([], [m], maxFiles, m) == 1;
    assert |Lazy([m], maxFiles, m)| == 1;
    OptimalUnlessSpilled(sizes, maxFiles, m);
  }

  /** Once zero sizes are let in, the plan is optimal for every list only when batches hold one item. */
  lemma OptimalWithZerosIffSingles(maxFiles: int, maxBytes: int)
    requires maxFiles >= 1 && maxBytes >= 1
    ensures (forall sizes | NonNegative(sizes) :: Optimal(sizes, maxFiles, maxBytes)) <==> maxFiles == 1
  {
    if maxFiles == 1 {
      forall sizes | NonNegative(sizes) ensures Optimal(sizes, maxFiles, maxBytes) {
        OptimalUnlessSpilled(sizes, maxFiles, maxBytes);
        SinglesNeverSpill(Plan([], sizes, maxFiles, maxBytes), maxBytes);
      }
    } else {
      ZeroAfterFullBatch(maxFiles, maxBytes);
      assert NonNegative([maxBytes, 0]) && !Optimal([maxBytes, 0], maxFiles, maxBytes);
    }
  }

  lemma SinglesNeverSpill(batches: seq<seq<int>>, maxBytes: int)
    requires maxBytes >= 1
    ensures !Spills(batches, 1, maxBytes)
  {
  }
}
