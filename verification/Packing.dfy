/**
 * Sequence packing: the concatenative, first-fit and modified first-fit-decreasing packers and the adjustment of
 * the bin count. Items are positions in the list of sequence lengths.
 */
module Packing {
  import opened Seqs
  import opened Lists

  datatype PackError =
    | ExceedsCapacity
    | BadCapacity
    | BadLength
    | TooFewSequences
    | BadMultiple

  /** How long item `x` is. */
  function Len(lengths: seq<nat>, x: nat): nat { if x < |lengths| then lengths[x] else 0 }

  function BinSum(lengths: seq<nat>, bin: seq<nat>): nat {
    if bin == [] then 0 else BinSum(lengths, bin[..|bin| - 1]) + Len(lengths, bin[|bin| - 1])
  }

  lemma BinSumSnoc(lengths: seq<nat>, bin: seq<nat>, x: nat)
    ensures BinSum(lengths, bin + [x]) == BinSum(lengths, bin) + Len(lengths, x)
  {
    assert (bin + [x])[..|bin|] == bin;
  }

  /** No bin is empty or over capacity. */
  ghost predicate Fits(bins: seq<seq<nat>>, lengths: seq<nat>, capacity: int) {
    forall k :: 0 <= k < |bins| ==> bins[k] != [] && BinSum(lengths, bins[k]) <= capacity
  }

  /** The bins hold exactly the items of `items`, each as often. */
  ghost predicate Holds(bins: seq<seq<nat>>, items: multiset<nat>) { multiset(Flatten(bins)) == items }

  /** Every sequence is in exactly one bin, and no bin is empty or over capacity. */
  ghost predicate IsPacking(bins: seq<seq<nat>>, lengths: seq<nat>, capacity: int) {
    Holds(bins, multiset(Range(0, |lengths|))) && Fits(bins, lengths, capacity)
  }

  /** Adding an item to a bin with room for it. */
  lemma AddToBin(bins: seq<seq<nat>>, lengths: seq<nat>, capacity: int, k: nat, x: nat)
    requires k < |bins| && Fits(bins, lengths, capacity)
    requires BinSum(lengths, bins[k]) + Len(lengths, x) <= capacity
    ensures Fits(bins[k := bins[k] + [x]], lengths, capacity)
    ensures Holds(bins[k := bins[k] + [x]], multiset(Flatten(bins)) + multiset{x})
  {
    BinSumSnoc(lengths, bins[k], x);
    FlattenMultisetUpdate(bins, k, x);
  }

  lemma AddNewBin(bins: seq<seq<nat>>, lengths: seq<nat>, capacity: int, x: nat)
    requires Fits(bins, lengths, capacity) && Len(lengths, x) <= capacity
    ensures Fits(bins + [[x]], lengths, capacity)
    ensures Holds(bins + [[x]], multiset(Flatten(bins)) + multiset{x})
  {
    FlattenSnoc(bins, [x]);
    BinSumSnoc(lengths, [], x);
    assert [] + [x] == [x];
  }

  lemma PopItem(pool: seq<nat>, i: nat)
    requires i < |pool|
    ensures multiset(pool) == multiset(RemoveAt(pool, i)) + multiset{pool[i]}
  {
    assert pool == pool[..i] + [pool[i]] + pool[i + 1..];
  }

  ghost predicate AllFit(lengths: seq<nat>, capacity: int) { forall i :: 0 <= i < |lengths| ==> lengths[i] <= capacity }

  method ValidateSequenceLengths(lengths: seq<nat>, capacity: int) returns (ok: bool)
    ensures ok <==> AllFit(lengths, capacity)
  {
    for i := 0 to |lengths|
      invariant forall j :: 0 <= j < i ==> lengths[j] <= capacity
    {
      if lengths[i] > capacity {
        return false;
      }
    }
    return true;
  }

  // ---- Concatenative packing ----

  /** Each bin but the last was closed because the sequence that opens the next one did not fit. */
  ghost predicate ClosedWhenFull(bins: seq<seq<nat>>, lengths: seq<nat>, capacity: int) {
    forall k {:trigger bins[k]} :: 0 < k < |bins| ==>
      bins[k] != [] && BinSum(lengths, bins[k - 1]) + Len(lengths, bins[k][0]) > capacity
  }

  /** The state of concatenative packing after the sequences before `i`: closed bins and the bin being filled. */
  ghost predicate Filling(bins: seq<seq<nat>>, current: seq<nat>, lengths: seq<nat>, capacity: int, i: nat) {
    && Fits(bins, lengths, capacity)
    && Flatten(bins) + current == Range(0, i)
    && (current == [] ==> bins == [])
    && (current != [] ==> BinSum(lengths, current) <= capacity && ClosedWhenFull(bins + [current], lengths, capacity))
  }

  lemma FillCurrent(bins: seq<seq<nat>>, current: seq<nat>, lengths: seq<nat>, capacity: int, i: nat)
    requires Filling(bins, current, lengths, capacity, i) && BinSum(lengths, current) + Len(lengths, i) <= capacity
    ensures Filling(bins, current + [i], lengths, capacity, i + 1)
  {
    assert Range(0, i + 1) == Range(0, i) + [i];
    assert (Flatten(bins) + current) + [i] == Flatten(bins) + (current + [i]);
    BinSumSnoc(lengths, current, i);
    var all, all' := bins + [current], bins + [current + [i]];
    assert forall k :: 0 <= k < |bins| ==> all'[k] == all[k];
  }

  lemma OpenNext(bins: seq<seq<nat>>, current: seq<nat>, lengths: seq<nat>, capacity: int, i: nat)
    requires Filling(bins, current, lengths, capacity, i) && current != []
    requires BinSum(lengths, current) + Len(lengths, i) > capacity >= Len(lengths, i)
    ensures Filling(bins + [current], [i], lengths, capacity, i + 1)
  {
    FlattenSnoc(bins, current);
    assert Range(0, i + 1) == Range(0, i) + [i];
    SingletonSum(lengths, i);
    FitsSnoc(bins, current, lengths, capacity);
    CloseWhenFull(bins + [current], [i], lengths, capacity);
  }

  lemma FitsSnoc(bins: seq<seq<nat>>, bin: seq<nat>, lengths: seq<nat>, capacity: int)
    requires Fits(bins, lengths, capacity) && bin != [] && BinSum(lengths, bin) <= capacity
    ensures Fits(bins + [bin], lengths, capacity)
  {
  }

  /** A bin opened by an item that did not fit into the last one. */
  lemma CloseWhenFull(bins: seq<seq<nat>>, next: seq<nat>, lengths: seq<nat>, capacity: int)
    requires bins != [] && ClosedWhenFull(bins, lengths, capacity) && next != []
    requires BinSum(lengths, bins[|bins| - 1]) + Len(lengths, next[0]) > capacity
    ensures ClosedWhenFull(bins + [next], lengths, capacity)
  {
    var all := bins + [next];
    forall k {:trigger all[k]} | 0 < k < |all|
      ensures all[k] != [] && BinSum(lengths, all[k - 1]) + Len(lengths, all[k][0]) > capacity
    {
      if k < |bins| {
        assert all[k] == bins[k] && all[k - 1] == bins[k - 1];
      } else {
        assert all[k] == next && all[k - 1] == bins[|bins| - 1];
      }
    }
  }

  lemma SingletonSum(lengths: seq<nat>, x: nat)
    ensures BinSum(lengths, [x]) == Len(lengths, x) && BinSum(lengths, []) == 0
  {
    BinSumSnoc(lengths, [], x);
    assert [] + [x] == [x];
  }

  /** Fills bins in order; bins are consecutive runs, and each is closed only when the next sequence does not fit. */
  method PackConcatenative(lengths: seq<nat>, capacity: int) returns (r: Result<seq<seq<nat>>, PackError>)
    ensures r.Ok? <==> forall i :: 0 <= i < |lengths| ==> lengths[i] <= capacity
    ensures r.Ok? ==> IsPacking(r.value, lengths, capacity) && Flatten(r.value) == Range(0, |lengths|)
    ensures r.Ok? ==> ClosedWhenFull(r.value, lengths, capacity)
  {
    var ok := ValidateSequenceLengths(lengths, capacity);
    if !ok {
      return Err(ExceedsCapacity);
    }
    var bins: seq<seq<nat>>, current: seq<nat>, currentLength: nat := [], [], 0;
    for i := 0 to |lengths|
      invariant Filling(bins, current, lengths, capacity, i) && currentLength == BinSum(lengths, current)
    {
      assert Len(lengths, i) == lengths[i];
      SingletonSum(lengths, i);
      if currentLength + lengths[i] > capacity {
        OpenNext(bins, current, lengths, capacity, i);
        if current != [] {
          bins := bins + [current];
        }
        current, currentLength := [i], lengths[i];
      } else {
        FillCurrent(bins, current, lengths, capacity, i);
        BinSumSnoc(lengths, current, i);
        current, currentLength := current + [i], currentLength + lengths[i];
      }
    }
    LastBinCloses(bins, current, lengths, capacity, |lengths|);
    if current != [] {
      bins := bins + [current];
    }
    return Ok(bins);
  }

  lemma LastBinCloses(bins: seq<seq<nat>>, current: seq<nat>, lengths: seq<nat>, capacity: int, n: nat)
    requires Filling(bins, current, lengths, capacity, n)
    ensures var all := if current == [] then bins else bins + [current];
      && Fits(all, lengths, capacity) && ClosedWhenFull(all, lengths, capacity)
      && Flatten(all) == Range(0, n) && Holds(all, multiset(Range(0, n)))
  {
    if current == [] {
      assert Flatten(bins) + [] == Flatten(bins);
    } else {
      FlattenSnoc(bins, current);
      FitsSnoc(bins, current, lengths, capacity);
    }
  }

  // ---- First fit ----

  /** `remaining` is the room left in each bin. */
  ghost predicate RoomLeft(bins: seq<seq<nat>>, remaining: seq<int>, lengths: seq<nat>, capacity: int) {
    |remaining| == |bins| && forall k :: 0 <= k < |bins| ==> remaining[k] == capacity - BinSum(lengths, bins[k])
  }

  /** No item would fit into a bin before its own. */
  ghost predicate Tight(bins: seq<seq<nat>>, lengths: seq<nat>, capacity: int) {
    forall j, k, i :: 0 <= j < k < |bins| && 0 <= i < |bins[k]| ==> BinSum(lengths, bins[j]) + Len(lengths, bins[k][i]) > capacity
  }

  /** The first bin with room for item `x`, or the number of bins. */
  function FirstRoom(bins: seq<seq<nat>>, lengths: seq<nat>, capacity: int, x: nat): (r: nat)
    ensures r <= |bins|
    ensures r < |bins| ==> BinSum(lengths, bins[r]) + Len(lengths, x) <= capacity
    ensures forall j :: 0 <= j < r ==> BinSum(lengths, bins[j]) + Len(lengths, x) > capacity
  {
    if bins == [] then 0
    else
      var n := |bins| - 1;
      var before := FirstRoom(bins[..n], lengths, capacity, x);
      if before < n then before else if BinSum(lengths, bins[n]) + Len(lengths, x) <= capacity then n else n + 1
  }

  /** Item `x` joins the first bin with room; without one it opens a new bin. */
  function Join(bins: seq<seq<nat>>, lengths: seq<nat>, capacity: int, x: nat): seq<seq<nat>> {
    var at := FirstRoom(bins, lengths, capacity, x);
    if at < |bins| then bins[at := bins[at] + [x]] else bins + [[x]]
  }

  /** First fit: the items join in the given order, from no bins at all. */
  function FirstFit(order: seq<nat>, lengths: seq<nat>, capacity: int): seq<seq<nat>> {
    if order == [] then []
    else Join(FirstFit(order[..|order| - 1], lengths, capacity), lengths, capacity, order[|order| - 1])
  }

  lemma FirstFitSnoc(order: seq<nat>, lengths: seq<nat>, capacity: int, x: nat)
    ensures FirstFit(order + [x], lengths, capacity) == Join(FirstFit(order, lengths, capacity), lengths, capacity, x)
  {
    assert (order + [x])[..|order|] == order;
  }

  lemma JoinKeepsTight(bins: seq<seq<nat>>, lengths: seq<nat>, capacity: int, x: nat)
    requires Tight(bins, lengths, capacity)
    ensures Tight(Join(bins, lengths, capacity, x), lengths, capacity)
  {
    var at := FirstRoom(bins, lengths, capacity, x);
    var after := Join(bins, lengths, capacity, x);
    if at < |bins| {
      BinSumSnoc(lengths, bins[at], x);
    }
    forall j, k, i | 0 <= j < k < |after| && 0 <= i < |after[k]|
      ensures BinSum(lengths, after[j]) + Len(lengths, after[k][i]) > capacity
    {
      assert BinSum(lengths, after[j]) >= BinSum(lengths, bins[j]);
      if k < |bins| && i < |bins[k]| {
        assert after[k][i] == bins[k][i];
      } else {
        assert after[k][i] == x && j < at;
      }
    }
  }

  /** First fit leaves no item in a later bin that would fit into an earlier one. */
  lemma {:induction false} FirstFitIsTight(order: seq<nat>, lengths: seq<nat>, capacity: int)
    ensures Tight(FirstFit(order, lengths, capacity), lengths, capacity)
  {
    if order != [] {
      FirstFitIsTight(order[..|order| - 1], lengths, capacity);
      JoinKeepsTight(FirstFit(order[..|order| - 1], lengths, capacity), lengths, capacity, order[|order| - 1]);
    }
  }

  lemma RoomAfterJoin(bins: seq<seq<nat>>, remaining: seq<int>, lengths: seq<nat>, capacity: int, x: nat, at: nat)
    requires RoomLeft(bins, remaining, lengths, capacity) && at < |bins|
    ensures RoomLeft(bins[at := bins[at] + [x]], remaining[at := remaining[at] - Len(lengths, x)], lengths, capacity)
  {
    BinSumSnoc(lengths, bins[at], x);
  }

  lemma RoomAfterNew(bins: seq<seq<nat>>, remaining: seq<int>, lengths: seq<nat>, capacity: int, x: nat)
    requires RoomLeft(bins, remaining, lengths, capacity)
    ensures RoomLeft(bins + [[x]], remaining + [capacity - Len(lengths, x)], lengths, capacity)
  {
    BinSumSnoc(lengths, [], x);
    assert [] + [x] == [x];
    assert BinSum(lengths, [x]) == Len(lengths, x);
  }

  /** Puts one item into the first bin with room, or into a new bin when there is none. */
  method PlaceFirstFit(bins: seq<seq<nat>>, remaining: seq<int>, lengths: seq<nat>, capacity: int, x: nat)
    returns (bins': seq<seq<nat>>, remaining': seq<int>)
    requires Fits(bins, lengths, capacity) && RoomLeft(bins, remaining, lengths, capacity) && Len(lengths, x) <= capacity
    ensures bins' == Join(bins, lengths, capacity, x)
    ensures Fits(bins', lengths, capacity) && RoomLeft(bins', remaining', lengths, capacity)
    ensures Holds(bins', multiset(Flatten(bins)) + multiset{x})
  {
    var length := Len(lengths, x);
    var i := 0;
    while i < |bins| && remaining[i] < length
      invariant 0 <= i <= |bins|
      invariant forall k :: 0 <= k < i ==> BinSum(lengths, bins[k]) + length > capacity
    {
      i := i + 1;
    }
    assert i == FirstRoom(bins, lengths, capacity, x);
    if i < |bins| {
      AddToBin(bins, lengths, capacity, i, x);
      RoomAfterJoin(bins, remaining, lengths, capacity, x, i);
      bins', remaining' := bins[i := bins[i] + [x]], remaining[i := remaining[i] - length];
    } else {
      AddNewBin(bins, lengths, capacity, x);
      RoomAfterNew(bins, remaining, lengths, capacity, x);
      bins', remaining' := bins + [[x]], remaining + [capacity - length];
    }
  }

  ghost predicate FitUpTo(order: seq<nat>, lengths: seq<nat>, capacity: int, n: nat) {
    forall k :: 0 <= k < n && k < |order| ==> Len(lengths, order[k]) <= capacity
  }

  lemma FitNext(order: seq<nat>, lengths: seq<nat>, capacity: int, n: nat)
    requires FitUpTo(order, lengths, capacity, n) && n < |order| && Len(lengths, order[n]) <= capacity
    ensures FitUpTo(order, lengths, capacity, n + 1)
  {
  }

  lemma PrefixSnoc<T>(s: seq<T>, j: nat)
    requires j < |s|
    ensures s[..j + 1] == s[..j] + [s[j]]
  {
  }

  /** Each item, in the given order, goes to the first bin with room, or to a new bin. */
  method PackFirstFit(lengths: seq<nat>, order: seq<nat>, capacity: int) returns (r: Result<seq<seq<nat>>, PackError>)
    requires IsPermutation(order, |lengths|)
    ensures r.Ok? <==> forall i :: 0 <= i < |lengths| ==> lengths[i] <= capacity
    ensures r.Ok? ==> r.value == FirstFit(order, lengths, capacity)
    ensures r.Ok? ==> IsPacking(r.value, lengths, capacity) && Tight(r.value, lengths, capacity)
  {
    assert |order| == |lengths| && forall k :: 0 <= k < |order| ==> order[k] < |lengths| by {
      PermutationMeans(order, |lengths|);
    }
    var bins: seq<seq<nat>>, remaining: seq<int> := [], [];
    for j := 0 to |order|
      invariant Fits(bins, lengths, capacity) && RoomLeft(bins, remaining, lengths, capacity)
      invariant Holds(bins, multiset(order[..j])) && bins == FirstFit(order[..j], lengths, capacity)
      invariant FitUpTo(order, lengths, capacity, j)
    {
      if lengths[order[j]] > capacity {
        return Err(ExceedsCapacity);
      }
      PrefixSnoc(order, j);
      FitNext(order, lengths, capacity, j);
      FirstFitSnoc(order[..j], lengths, capacity, order[j]);
      bins, remaining := PlaceFirstFit(bins, remaining, lengths, capacity, order[j]);
    }
    assert order[..|order|] == order;
    EveryItemFits(lengths, order, capacity);
    FirstFitIsTight(order, lengths, capacity);
    return Ok(bins);
  }

  lemma EveryItemFits(lengths: seq<nat>, order: seq<nat>, capacity: int)
    requires IsPermutation(order, |lengths|)
    requires FitUpTo(order, lengths, capacity, |order|)
    ensures AllFit(lengths, capacity)
  {
    PermutationMeans(order, |lengths|);
    forall i | 0 <= i < |lengths| ensures lengths[i] <= capacity {
      ArgSortInverts(order, i);
      assert Len(lengths, order[ArgSort(order)[i]]) <= capacity;
    }
  }

  function Reverse<T>(s: seq<T>): (r: seq<T>)
    ensures |r| == |s|
  {
    if s == [] then [] else [s[|s| - 1]] + Reverse(s[..|s| - 1])
  }

  lemma {:induction false} ReverseElements<T>(s: seq<T>)
    ensures multiset(Reverse(s)) == multiset(s)
  {
    if s != [] {
      ReverseElements(s[..|s| - 1]);
      assert s == s[..|s| - 1] + [s[|s| - 1]];
    }
  }

  lemma {:induction false} ReverseAt<T>(s: seq<T>, k: nat)
    requires k < |s|
    ensures Reverse(s)[k] == s[|s| - 1 - k]
  {
    if k > 0 {
      ReverseAt(s[..|s| - 1], k - 1);
    }
  }

  /** From longest to shortest, the later of two equal ones first. */
  ghost predicate LongestFirst(order: seq<nat>, lengths: seq<nat>) {
    && (forall k :: 0 <= k < |order| ==> order[k] < |lengths|)
    && (forall i, j :: 0 <= i < j < |order| ==>
          lengths[order[i]] > lengths[order[j]] || (lengths[order[i]] == lengths[order[j]] && order[i] > order[j]))
  }

  lemma ReversalIsLongestFirst(sorted: seq<nat>, order: seq<nat>, lengths: seq<nat>)
    requires SortedStably(sorted, lengths) && |order| == |sorted|
    requires forall k :: 0 <= k < |order| ==> order[k] == sorted[|sorted| - 1 - k]
    ensures LongestFirst(order, lengths)
  {
  }

  lemma ReversedIsLongestFirst(lengths: seq<nat>)
    ensures LongestFirst(Reverse(ArgSort(lengths)), lengths)
  {
    var sorted, order := ArgSort(lengths), Reverse(ArgSort(lengths));
    ArgSortSorts(lengths);
    forall k | 0 <= k < |order| ensures order[k] == sorted[|sorted| - 1 - k] {
      ReverseAt(sorted, k);
    }
    ReversalIsLongestFirst(sorted, order, lengths);
  }

  /** First fit over the sequences from longest to shortest, the later of two equal ones first. */
  method PackFirstFitDecreasing(lengths: seq<nat>, capacity: int) returns (r: Result<seq<seq<nat>>, PackError>)
    ensures r.Ok? <==> forall i :: 0 <= i < |lengths| ==> lengths[i] <= capacity
    ensures r.Ok? ==> exists order ::
      IsPermutation(order, |lengths|) && LongestFirst(order, lengths) && r.value == FirstFit(order, lengths, capacity)
    ensures r.Ok? ==> IsPacking(r.value, lengths, capacity) && Tight(r.value, lengths, capacity)
  {
    var order := Reverse(ArgSort(lengths));
    ArgSortPermutes(lengths);
    ReverseElements(ArgSort(lengths));
    ReversedIsLongestFirst(lengths);
    r := PackFirstFit(lengths, order, capacity);
  }

  /** There is only one such order. */
  lemma LongestFirstIsUnique(a: seq<nat>, b: seq<nat>, lengths: seq<nat>)
    requires IsPermutation(a, |lengths|) && LongestFirst(a, lengths)
    requires IsPermutation(b, |lengths|) && LongestFirst(b, lengths)
    ensures a == b
  {
    PermutationMeans(a, |lengths|);
    PermutationMeans(b, |lengths|);
    SameOrder(a, b, lengths);
  }

  lemma {:induction false} SameOrder(a: seq<nat>, b: seq<nat>, lengths: seq<nat>)
    requires multiset(a) == multiset(b) && LongestFirst(a, lengths) && LongestFirst(b, lengths)
    ensures a == b
  {
    assert |a| == |multiset(a)| == |multiset(b)| == |b|;
    if a != [] {
      var n := |a| - 1;
      LastIsLast(a, b, lengths);
      DropSameLast(a, b);
      SameOrder(a[..n], b[..n], lengths);
      assert a == a[..n] + [a[n]] && b == b[..n] + [b[n]];
    }
  }

  lemma DropSameLast(a: seq<nat>, b: seq<nat>)
    requires multiset(a) == multiset(b) && |a| == |b| > 0 && a[|a| - 1] == b[|b| - 1]
    ensures multiset(a[..|a| - 1]) == multiset(b[..|b| - 1])
  {
    LastOfMultiset(a);
    LastOfMultiset(b);
  }

  lemma LastOfMultiset(s: seq<nat>)
    requires s != []
    ensures multiset(s[..|s| - 1]) == multiset(s) - multiset{s[|s| - 1]}
  {
    assert s == s[..|s| - 1] + [s[|s| - 1]];
  }

  /** The last item of either order is the least of all. */
  lemma LastIsLast(a: seq<nat>, b: seq<nat>, lengths: seq<nat>)
    requires multiset(a) == multiset(b) && LongestFirst(a, lengths) && LongestFirst(b, lengths) && |a| == |b| > 0
    ensures a[|a| - 1] == b[|b| - 1]
  {
    var n := |a| - 1;
    assert a[n] in multiset(b) && b[n] in multiset(a);
    var i :| 0 <= i <= n && b[i] == a[n];
    var j :| 0 <= j <= n && a[j] == b[n];
  }

  // ---- Adjusting the number of bins ----

  function TargetBinCount(count: nat, minBinCount: nat, multiple: nat): nat
    requires 0 < multiple
  {
    var target := Max(count, minBinCount);
    if target % multiple != 0 then target + multiple - target % multiple else target
  }

  /** The smallest multiple that is neither below the current nor below the minimal count. */
  lemma TargetIsLeastMultiple(count: nat, minBinCount: nat, multiple: nat, other: nat)
    requires 0 < multiple
    ensures var t := TargetBinCount(count, minBinCount, multiple);
      && t % multiple == 0 && t >= count && t >= minBinCount
      && (other % multiple == 0 && other >= count && other >= minBinCount ==> t <= other)
  {
    var m := Max(count, minBinCount);
    if m % multiple != 0 {
      RoundedUp(m, multiple, m / multiple, m % multiple);
      if other % multiple == 0 && other >= m {
        NoMultipleBetween(m / multiple, m % multiple, multiple, other / multiple);
        assert other == other / multiple * multiple;
      }
    }
  }

  lemma RoundedUp(m: nat, multiple: nat, q: nat, r: nat)
    requires 0 < multiple && q == m / multiple && r == m % multiple
    ensures m == q * multiple + r && m + multiple - r == q * multiple + multiple
    ensures (m + multiple - r) % multiple == 0
  {
    assert m == q * multiple + r;
    assert (q + 1) * multiple == q * multiple + multiple;
    ModUnique(m + multiple - r, q + 1, 0, multiple);
  }

  lemma NoMultipleBetween(q: nat, r: nat, multiple: nat, p: nat)
    requires 0 < r < multiple && q * multiple + r <= p * multiple
    ensures q * multiple + multiple <= p * multiple
  {
    if p <= q {
      MultiplesAscend(p, q, multiple);
    } else {
      RowWithin(q, p, multiple);
    }
  }

  lemma MultiplesAscend(p: nat, q: nat, multiple: nat)
    requires p <= q
    ensures p * multiple <= q * multiple
  {
    assert q * multiple == p * multiple + (q - p) * multiple;
  }

  /** Moves the last item of bin `from` into the new bin that is opened at the end. */
  lemma MoveToNewBin(bins: seq<seq<nat>>, lengths: seq<nat>, capacity: int, from: nat)
    requires from < |bins| && |bins[from]| > 1 && Fits(bins, lengths, capacity)
    ensures var n := |bins[from]| - 1;
      var bins' := bins[from := bins[from][..n]] + [[bins[from][n]]];
      Fits(bins', lengths, capacity) && Holds(bins', multiset(Flatten(bins)))
  {
    var n := |bins[from]| - 1;
    var x, shorter := bins[from][n], bins[from := bins[from][..n]];
    assert bins[from] == bins[from][..n] + [x];
    assert shorter[from := shorter[from] + [x]] == bins;
    FlattenMultisetUpdate(shorter, from, x);
    BinSumSnoc(lengths, bins[from][..n], x);
    AddNewBin(shorter, lengths, capacity, x);
  }

  /** With one item in every bin there are as many items as bins. */
  lemma {:induction false} SingletonsCount(bins: seq<seq<nat>>)
    requires forall k :: 0 <= k < |bins| ==> |bins[k]| == 1
    ensures |Flatten(bins)| == |bins|
  {
    if bins != [] {
      SingletonsCount(bins[..|bins| - 1]);
    }
  }

  /** Skips, in order of size, the original bins that hold a single sequence. */
  method NextSource(bins: seq<seq<nat>>, bySize: seq<nat>, start: nat) returns (source: nat)
    requires start <= |bySize| && forall k :: 0 <= k < |bySize| ==> bySize[k] < |bins| && bins[bySize[k]] != []
    ensures start <= source <= |bySize|
    ensures forall k :: start <= k < source ==> |bins[bySize[k]]| == 1
    ensures source < |bySize| ==> |bins[bySize[source]]| > 1
  {
    source := start;
    while source < |bySize| && |bins[bySize[source]]| <= 1
      invariant source <= |bySize|
      invariant forall k :: start <= k < source ==> |bins[bySize[k]]| == 1
    {
      source := source + 1;
    }
  }

  function Sizes(bins: seq<seq<nat>>): seq<nat> { seq(|bins|, i requires 0 <= i < |bins| => |bins[i]|) }

  /** The original bins from fullest to emptiest. */
  function BySize(bins: seq<seq<nat>>): (r: seq<nat>)
    ensures |r| == |bins|
  {
    Reverse(ArgSort(seq(|bins|, i requires 0 <= i < |bins| => |bins[i]|)))
  }

  lemma BySizePermutes(bins: seq<seq<nat>>)
    ensures IsPermutation(BySize(bins), |bins|)
    ensures forall k :: 0 <= k < |bins| ==> BySize(bins)[k] < |bins|
    ensures LongestFirst(BySize(bins), Sizes(bins))
  {
    var sizes: seq<int> := seq(|bins|, i requires 0 <= i < |bins| => |bins[i]|);
    ArgSortPermutes(sizes);
    assert sizes == Sizes(bins);
    ReversedIsLongestFirst(Sizes(bins));
    ReverseElements(ArgSort(sizes));
    PermutationMeans(BySize(bins), |bins|);
  }

  /**
   * What is left of the original bins: each keeps its first sequences, and a bin gives sequences away only when those
   * before it in the order are down to one.
   */
  ghost predicate TakenInOrder(bins: seq<seq<nat>>, adjusted: seq<seq<nat>>, order: seq<nat>) {
    && |order| == |bins| <= |adjusted|
    && (forall k :: 0 <= k < |bins| ==> order[k] < |bins| && adjusted[k] <= bins[k])
    && (forall i, j :: 0 <= i < j < |bins| && adjusted[order[j]] != bins[order[j]] ==> |adjusted[order[i]]| <= 1)
  }

  /** A bin for each item. */
  function Singletons(items: seq<nat>): (r: seq<seq<nat>>)
    ensures |r| == |items|
  {
    seq(|items|, i requires 0 <= i < |items| => [items[i]])
  }

  /** What a bin gave away, from its end. */
  function Given(from: seq<nat>, left: seq<nat>): seq<nat> { if |left| < |from| then Reverse(from[|left|..]) else [] }

  /** What the bins in `order` gave away, bin by bin. */
  function AllGiven(bins: seq<seq<nat>>, adjusted: seq<seq<nat>>, order: seq<nat>): (r: seq<seq<nat>>)
    requires |bins| <= |adjusted| && forall k :: 0 <= k < |order| ==> order[k] < |bins|
    ensures |r| == |order|
  {
    seq(|order|, k requires 0 <= k < |order| && order[k] < |bins| <= |adjusted| =>
      Given(bins[order[k]], adjusted[order[k]]))
  }

  lemma {:induction false} ReverseFront<T>(x: T, s: seq<T>)
    ensures Reverse([x] + s) == Reverse(s) + [x]
  {
    if s == [] {
      assert [x] + s == [x] && [x][..0] == [];
    } else {
      var n := |s| - 1;
      ReverseFront(x, s[..n]);
      assert ([x] + s)[..n + 1] == [x] + s[..n];
    }
  }

  lemma GivesLast(from: seq<nat>, left: seq<nat>, x: nat)
    requires left + [x] <= from
    ensures Given(from, left) == Given(from, left + [x]) + [x]
  {
    var m := |left|;
    assert from[m] == (left + [x])[m] == x;
    assert from[m..] == [x] + from[m + 1..];
    ReverseFront(x, from[m + 1..]);
    assert m + 1 == |from| ==> from[m + 1..] == [];
  }

  /** When the later parts are empty, what joins a part comes last. */
  lemma {:induction false} JoinsLast(parts: seq<seq<nat>>, k: nat, x: nat)
    requires k < |parts| && forall j :: k < j < |parts| ==> parts[j] == []
    ensures Flatten(parts[k := parts[k] + [x]]) == Flatten(parts) + [x]
  {
    var n := |parts| - 1;
    var after := parts[k := parts[k] + [x]];
    if k < n {
      JoinsLast(parts[..n], k, x);
      assert after[..n] == parts[..n][k := parts[k] + [x]];
    } else {
      assert after[..n] == parts[..n];
    }
  }

  /** Bin `order[source]` gives one more, and the later ones have given nothing. */
  lemma GivesOneMore(bins: seq<seq<nat>>, adjusted: seq<seq<nat>>, after: seq<seq<nat>>, order: seq<nat>, source: nat, x: nat)
    requires source < |order| && |bins| <= |adjusted| <= |after|
    requires forall k :: 0 <= k < |order| ==> order[k] < |bins|
    requires forall k :: 0 <= k < |order| && k != source ==> after[order[k]] == adjusted[order[k]]
    requires forall k :: source < k < |order| ==> adjusted[order[k]] == bins[order[k]]
    requires adjusted[order[source]] == after[order[source]] + [x] && adjusted[order[source]] <= bins[order[source]]
    ensures Flatten(AllGiven(bins, after, order)) == Flatten(AllGiven(bins, adjusted, order)) + [x]
  {
    var parts := AllGiven(bins, adjusted, order);
    GivesLast(bins[order[source]], after[order[source]], x);
    assert AllGiven(bins, after, order) == parts[source := parts[source] + [x]];
    JoinsLast(parts, source, x);
  }

  /** Bins opened so far hold one sequence, and so do the original bins that were passed over. */
  ghost predicate Opened(bins: seq<seq<nat>>, bySize: seq<nat>, source: nat) {
    && |bySize| <= |bins| && source <= |bySize|
    && (forall k :: |bySize| <= k < |bins| ==> |bins[k]| == 1)
    && (forall k :: 0 <= k < |bySize| ==> bySize[k] < |bySize|)
    && (forall k :: 0 <= k < source ==> |bins[bySize[k]]| == 1)
  }

  lemma StaysOpened(bins: seq<seq<nat>>, bySize: seq<nat>, source: nat)
    requires Opened(bins, bySize, source) && source < |bySize| && |bins[bySize[source]]| > 1
    ensures var from := bySize[source]; var n := |bins[from]| - 1;
      Opened(bins[from := bins[from][..n]] + [[bins[from][n]]], bySize, source)
  {
  }

  /** The bins from fullest to emptiest, of two equal ones the later first, have given away in this order. */
  ghost predicate AdjustedInOrder(bins: seq<seq<nat>>, adjusted: seq<seq<nat>>, order: seq<nat>) {
    && IsPermutation(order, |bins|) && LongestFirst(order, Sizes(bins)) && TakenInOrder(bins, adjusted, order)
    && NewBinsHoldGiven(bins, adjusted, order)
  }

  /** While bin `source` of the order is giving away, the later ones are whole. */
  ghost predicate TakenUpTo(bins: seq<seq<nat>>, adjusted: seq<seq<nat>>, order: seq<nat>, source: nat) {
    && TakenInOrder(bins, adjusted, order) && source <= |order|
    && (forall k :: source < k < |order| ==> adjusted[order[k]] == bins[order[k]])
  }

  lemma TakesOne(bins: seq<seq<nat>>, adjusted: seq<seq<nat>>, order: seq<nat>, source: nat)
    requires TakenUpTo(bins, adjusted, order, source) && Opened(adjusted, order, source) && IsPermutation(order, |bins|)
    requires source < |order| && |adjusted[order[source]]| > 1
    ensures var from := order[source]; var n := |adjusted[from]| - 1;
      TakenUpTo(bins, adjusted[from := adjusted[from][..n]] + [[adjusted[from][n]]], order, source)
  {
    PermutationMeans(order, |bins|);
  }

  /** The new bins hold what was given away, in that order. */
  ghost predicate NewBinsHoldGiven(bins: seq<seq<nat>>, adjusted: seq<seq<nat>>, order: seq<nat>)
    requires |bins| <= |adjusted| && forall k :: 0 <= k < |order| ==> order[k] < |bins|
  {
    adjusted[|bins|..] == Singletons(Flatten(AllGiven(bins, adjusted, order)))
  }

  lemma OneMoreNewBin(bins: seq<seq<nat>>, adjusted: seq<seq<nat>>, order: seq<nat>, source: nat)
    requires TakenUpTo(bins, adjusted, order, source) && IsPermutation(order, |bins|) && NewBinsHoldGiven(bins, adjusted, order)
    requires source < |order| && adjusted[order[source]] != []
    ensures var from := order[source]; var n := |adjusted[from]| - 1;
      NewBinsHoldGiven(bins, adjusted[from := adjusted[from][..n]] + [[adjusted[from][n]]], order)
  {
    var from := order[source];
    var n := |adjusted[from]| - 1;
    var x := adjusted[from][n];
    var after := adjusted[from := adjusted[from][..n]] + [[x]];
    TakenApart(bins, adjusted, order, source, after);
    GivesOneMore(bins, adjusted, after, order, source, x);
    SingletonsSnoc(Flatten(AllGiven(bins, adjusted, order)), x);
    TailGrows(adjusted, from, adjusted[from][..n], [x], |bins|);
  }

  lemma TailGrows<T>(s: seq<T>, k: nat, x: T, y: T, n: nat)
    requires k < n <= |s|
    ensures (s[k := x] + [y])[n..] == s[n..] + [y]
  {
  }

  /** The bins of an order are different ones, so that only one changes. */
  lemma TakenApart(bins: seq<seq<nat>>, adjusted: seq<seq<nat>>, order: seq<nat>, source: nat, after: seq<seq<nat>>)
    requires TakenUpTo(bins, adjusted, order, source) && IsPermutation(order, |bins|)
    requires source < |order| && |adjusted| <= |after|
    requires forall k :: 0 <= k < |adjusted| && k != order[source] ==> after[k] == adjusted[k]
    ensures forall k :: 0 <= k < |order| ==> order[k] < |bins|
    ensures forall k :: 0 <= k < |order| && k != source ==> after[order[k]] == adjusted[order[k]]
    ensures forall k :: source < k < |order| ==> adjusted[order[k]] == bins[order[k]]
    ensures adjusted[order[source]] <= bins[order[source]]
  {
    PermutationMeans(order, |bins|);
  }

  lemma SingletonsSnoc(items: seq<nat>, x: nat)
    ensures Singletons(items + [x]) == Singletons(items) + [[x]]
  {
  }

  lemma NothingGiven(bins: seq<seq<nat>>, order: seq<nat>)
    requires forall k :: 0 <= k < |order| ==> order[k] < |bins|
    ensures NewBinsHoldGiven(bins, bins, order)
  {
    AllEmpty(AllGiven(bins, bins, order));
  }

  /** When every bin holds one sequence, there are no sequences left for a further bin. */
  lemma AllTaken(bins: seq<seq<nat>>, order: seq<nat>, total: nat, target: nat)
    requires IsPermutation(order, |order|) && Opened(bins, order, |order|)
    requires |multiset(Flatten(bins))| == total && |bins| < target
    ensures total < target
  {
    forall k | 0 <= k < |order| ensures |bins[k]| == 1 {
      ArgSortInverts(order, k);
    }
    SingletonsCount(bins);
  }

  /** The state of the adjustment: nothing is lost or overflows, and sequences were taken in the order. */
  ghost predicate Adjusting(bins: seq<seq<nat>>, adjusted: seq<seq<nat>>, order: seq<nat>, source: nat, lengths: seq<nat>,
                            capacity: int) {
    && Fits(adjusted, lengths, capacity) && Holds(adjusted, multiset(Flatten(bins)))
    && Opened(adjusted, order, source) && TakenUpTo(bins, adjusted, order, source) && IsPermutation(order, |bins|)
    && NewBinsHoldGiven(bins, adjusted, order)
  }

  lemma KeepsAdjusting(bins: seq<seq<nat>>, adjusted: seq<seq<nat>>, order: seq<nat>, source: nat, next: nat,
                       lengths: seq<nat>, capacity: int)
    requires Adjusting(bins, adjusted, order, source, lengths, capacity) && source <= next <= |order|
    requires forall k :: source <= k < next ==> |adjusted[order[k]]| == 1
    ensures Adjusting(bins, adjusted, order, next, lengths, capacity)
  {
  }

  /** One more bin, with the last sequence of the first bin in the order that can spare one: there always is one. */
  method OpenOne(ghost bins: seq<seq<nat>>, adjusted: seq<seq<nat>>, order: seq<nat>, source: nat, lengths: seq<nat>,
                 capacity: int)
    returns (more: seq<seq<nat>>, next: nat)
    requires Adjusting(bins, adjusted, order, source, lengths, capacity) && |adjusted| < |Flatten(bins)|
    ensures Adjusting(bins, more, order, next, lengths, capacity) && |more| == |adjusted| + 1
  {
    next := NextSource(adjusted, order, source);
    KeepsAdjusting(bins, adjusted, order, source, next, lengths, capacity);
    if next == |order| {
      AllTaken(adjusted, order, |Flatten(bins)|, |adjusted| + 1);
      assert false;
    }
    var from := order[next];
    var n := |adjusted[from]| - 1;
    MoveToNewBin(adjusted, lengths, capacity, from);
    StaysOpened(adjusted, order, next);
    TakesOne(bins, adjusted, order, next);
    OneMoreNewBin(bins, adjusted, order, next);
    more := adjusted[from := adjusted[from][..n]] + [[adjusted[from][n]]];
  }

  /**
   * Opens bins until their number is the target, taking one sequence at a time from the end of the fullest original bin
   * that has more than one. The only failure is that there are fewer sequences than bins: the search for a bin to take
   * from always succeeds.
   */
  method AdjustBinCount(bins: seq<seq<nat>>, lengths: seq<nat>, capacity: int, minBinCount: nat, multiple: nat)
    returns (r: Result<seq<seq<nat>>, PackError>)
    requires 0 < multiple && Fits(bins, lengths, capacity)
    ensures r.Err? <==> |Flatten(bins)| < TargetBinCount(|bins|, minBinCount, multiple) != |bins|
    ensures r.Ok? ==> |r.value| == TargetBinCount(|bins|, minBinCount, multiple)
    ensures r.Ok? ==> Fits(r.value, lengths, capacity) && Holds(r.value, multiset(Flatten(bins)))
    ensures r.Ok? ==> exists order :: AdjustedInOrder(bins, r.value, order)
  {
    var target := TargetBinCount(|bins|, minBinCount, multiple);
    var bySize := BySize(bins);
    BySizePermutes(bins);
    NothingGiven(bins, bySize);
    if target == |bins| {
      assert AdjustedInOrder(bins, bins, bySize);
      return Ok(bins);
    }
    if |Flatten(bins)| < target {
      return Err(TooFewSequences);
    }
    TargetIsLeastMultiple(|bins|, minBinCount, multiple, 0);
    var adjusted, source := bins, 0;
    while |adjusted| < target
      invariant |adjusted| <= target && Adjusting(bins, adjusted, bySize, source, lengths, capacity)
    {
      adjusted, source := OpenOne(bins, adjusted, bySize, source, lengths, capacity);
    }
    assert AdjustedInOrder(bins, adjusted, bySize);
    return Ok(adjusted);
  }
}
