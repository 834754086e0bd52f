/** The modified first-fit-decreasing packer: five phases that move items from pools of large, medium, small and tiny ones. */
module ModifiedFirstFit {
  import opened Seqs
  import opened Lists
  import opened Packing

  /** Items in bins and items still in the pool, together. */
  ghost function Together(bins: seq<seq<nat>>, pool: seq<nat>): multiset<nat> { multiset(Flatten(bins)) + multiset(pool) }

  /** One item moves from the pool into bin `k`. */
  lemma MoveIntoBin(bins: seq<seq<nat>>, pool: seq<nat>, lengths: seq<nat>, capacity: int, k: nat, i: nat)
    requires k < |bins| && i < |pool| && Fits(bins, lengths, capacity)
    requires BinSum(lengths, bins[k]) + Len(lengths, pool[i]) <= capacity
    ensures var bins' := bins[k := bins[k] + [pool[i]]];
      Fits(bins', lengths, capacity) && Together(bins', RemoveAt(pool, i)) == Together(bins, pool)
  {
    AddToBin(bins, lengths, capacity, k, pool[i]);
    PopItem(pool, i);
  }

  /** The position of the first pool item no longer than `room`, or the pool's size. */
  method FirstThatFits(pool: seq<nat>, lengths: seq<nat>, room: int) returns (i: nat)
    ensures i <= |pool| && (i < |pool| ==> Len(lengths, pool[i]) <= room)
    ensures forall j :: 0 <= j < i ==> Len(lengths, pool[j]) > room
  {
    i := 0;
    while i < |pool| && Len(lengths, pool[i]) > room
      invariant i <= |pool|
      invariant forall j :: 0 <= j < i ==> Len(lengths, pool[j]) > room
    {
      i := i + 1;
    }
  }

  /** The same from the other end, when some item does fit. */
  method LastThatFits(pool: seq<nat>, lengths: seq<nat>, room: int) returns (i: nat)
    requires pool != [] && Len(lengths, pool[0]) <= room
    ensures i < |pool| && Len(lengths, pool[i]) <= room
    ensures forall j :: i < j < |pool| ==> Len(lengths, pool[j]) > room
  {
    i := |pool| - 1;
    while Len(lengths, pool[i]) > room
      invariant i < |pool|
      invariant forall j :: i < j < |pool| ==> Len(lengths, pool[j]) > room
      decreases i
    {
      i := i - 1;
    }
  }

  // ---- Pools ----

  function Room(bin: seq<nat>, lengths: seq<nat>, capacity: int): int { capacity - BinSum(lengths, bin) }

  /** Longest first, equally long items in their original order. */
  ghost predicate Falls(pool: seq<nat>, lengths: seq<nat>) {
    forall i, j :: 0 <= i < j < |pool| ==>
      Len(lengths, pool[i]) > Len(lengths, pool[j]) || (Len(lengths, pool[i]) == Len(lengths, pool[j]) && pool[i] < pool[j])
  }

  /** Shortest first, equally long items in their original order. */
  ghost predicate Rises(pool: seq<nat>, lengths: seq<nat>) {
    forall i, j :: 0 <= i < j < |pool| ==>
      Len(lengths, pool[i]) < Len(lengths, pool[j]) || (Len(lengths, pool[i]) == Len(lengths, pool[j]) && pool[i] < pool[j])
  }

  /** Nothing in the pool fits. */
  ghost predicate NoneFits(pool: seq<nat>, lengths: seq<nat>, room: int) {
    forall y :: y in pool ==> Len(lengths, y) > room
  }

  /** No two items of the pool fit together. */
  ghost predicate NoTwoFit(pool: seq<nat>, lengths: seq<nat>, room: int) {
    forall i, j :: 0 <= i < j < |pool| ==> Len(lengths, pool[i]) + Len(lengths, pool[j]) > room
  }

  /** `x` fits, and what else fits is shorter, or as long and later. */
  ghost predicate FirstLargest(x: nat, pool: seq<nat>, lengths: seq<nat>, room: int) {
    Len(lengths, x) <= room &&
    forall y :: y in pool && Len(lengths, y) <= room ==>
      Len(lengths, y) < Len(lengths, x) || (Len(lengths, y) == Len(lengths, x) && x < y)
  }

  /** `x` fits, and what else fits is shorter, or as long and earlier. */
  ghost predicate LastLargest(x: nat, pool: seq<nat>, lengths: seq<nat>, room: int) {
    Len(lengths, x) <= room &&
    forall y :: y in pool && Len(lengths, y) <= room ==>
      Len(lengths, y) < Len(lengths, x) || (Len(lengths, y) == Len(lengths, x) && y < x)
  }

  /** Everything in the pool is longer than `x`, or as long and later. */
  ghost predicate FirstSmallest(x: nat, pool: seq<nat>, lengths: seq<nat>) {
    forall y :: y in pool ==> Len(lengths, x) < Len(lengths, y) || (Len(lengths, x) == Len(lengths, y) && x < y)
  }

  /** Taking `xs` out of `before` leaves `after`. */
  ghost predicate Takes(xs: seq<nat>, before: seq<nat>, after: seq<nat>) {
    multiset(before) == multiset(after) + multiset(xs)
  }

  /** What is left of a pool. */
  ghost predicate LeftOf(pool': seq<nat>, pool: seq<nat>) { forall y :: y in pool' ==> y in pool }

  lemma RemoveAtKeeps(pool: seq<nat>, lengths: seq<nat>, i: nat)
    requires i < |pool|
    ensures Takes([pool[i]], pool, RemoveAt(pool, i)) && LeftOf(RemoveAt(pool, i), pool)
    ensures Falls(pool, lengths) ==> Falls(RemoveAt(pool, i), lengths)
    ensures Rises(pool, lengths) ==> Rises(RemoveAt(pool, i), lengths)
  {
    var rest := RemoveAt(pool, i);
    PopItem(pool, i);
    assert forall j :: 0 <= j < |rest| ==> rest[j] == pool[if j < i then j else j + 1];
  }

  /** The first that fits in a falling pool is the first of the largest that fit. */
  lemma FirstIsLargest(pool: seq<nat>, lengths: seq<nat>, room: int, i: nat)
    requires Falls(pool, lengths) && i < |pool| && Len(lengths, pool[i]) <= room
    requires forall j :: 0 <= j < i ==> Len(lengths, pool[j]) > room
    ensures FirstLargest(pool[i], RemoveAt(pool, i), lengths, room)
  {
    var rest := RemoveAt(pool, i);
    assert forall j :: 0 <= j < |rest| ==> rest[j] == pool[if j < i then j else j + 1];
  }

  /** The last that fits in a rising pool is the last of the largest that fit. */
  lemma LastIsLargest(pool: seq<nat>, lengths: seq<nat>, room: int, i: nat)
    requires Rises(pool, lengths) && i < |pool| && Len(lengths, pool[i]) <= room
    requires forall j :: i < j < |pool| ==> Len(lengths, pool[j]) > room
    ensures LastLargest(pool[i], RemoveAt(pool, i), lengths, room)
  {
    var rest := RemoveAt(pool, i);
    assert forall j :: 0 <= j < |rest| ==> rest[j] == pool[if j < i then j else j + 1];
  }

  // ---- Phase 2 ----

  /** What phase 2 makes of a bin and the pool: the largest medium item that fits moves over, or none fits. */
  ghost predicate GotMedium(bin: seq<nat>, bin': seq<nat>, before: seq<nat>, after: seq<nat>, lengths: seq<nat>,
                            capacity: int) {
    || (bin' == bin && after == before && NoneFits(before, lengths, Room(bin, lengths, capacity)))
    || (|bin'| == |bin| + 1 && bin <= bin' && Takes(bin'[|bin|..], before, after)
        && FirstLargest(bin'[|bin|], after, lengths, Room(bin, lengths, capacity)))
  }

  /** The first `n` bins have been through phase 2, each with the pool that the one before it left. */
  ghost predicate MediumUpTo(bins: seq<seq<nat>>, bins': seq<seq<nat>>, pools: seq<seq<nat>>, n: nat, lengths: seq<nat>,
                             capacity: int) {
    && |bins'| == |bins| && |pools| == n + 1
    && (forall k :: 0 <= k < n && k < |bins| ==> GotMedium(bins[k], bins'[k], pools[k], pools[k + 1], lengths, capacity))
    && (forall k :: n <= k < |bins| ==> bins'[k] == bins[k])
  }

  /** Phase 2 over all bins, from the first to the last. */
  ghost predicate AddsMedium(bins: seq<seq<nat>>, bins': seq<seq<nat>>, pools: seq<seq<nat>>, lengths: seq<nat>,
                             capacity: int) {
    MediumUpTo(bins, bins', pools, |bins|, lengths, capacity)
  }

  lemma MediumStep(bins: seq<seq<nat>>, bins': seq<seq<nat>>, pools: seq<seq<nat>>, k: nat, pool: seq<nat>,
                   lengths: seq<nat>, capacity: int, i: nat)
    requires MediumUpTo(bins, bins', pools, k, lengths, capacity) && k < |bins| && i <= |pool|
    requires Falls(pool, lengths) && pools[k] == pool
    requires i < |pool| ==> Len(lengths, pool[i]) <= Room(bins[k], lengths, capacity)
    requires forall j :: 0 <= j < i ==> Len(lengths, pool[j]) > Room(bins[k], lengths, capacity)
    ensures i == |pool| ==> MediumUpTo(bins, bins', pools + [pool], k + 1, lengths, capacity)
    ensures i < |pool| ==>
      MediumUpTo(bins, bins'[k := bins'[k] + [pool[i]]], pools + [RemoveAt(pool, i)], k + 1, lengths, capacity)
  {
    if i < |pool| {
      RemoveAtKeeps(pool, lengths, i);
      FirstIsLargest(pool, lengths, Room(bins[k], lengths, capacity), i);
      assert (bins[k] + [pool[i]])[|bins[k]|..] == [pool[i]];
    }
  }

  /** Phase 2: one medium item for each bin that has room for one. `pools` is what was left before and after each bin. */
  method AddMedium(bins: seq<seq<nat>>, medium: seq<nat>, lengths: seq<nat>, capacity: int)
    returns (bins': seq<seq<nat>>, medium': seq<nat>, ghost pools: seq<seq<nat>>)
    requires Fits(bins, lengths, capacity) && Falls(medium, lengths)
    ensures Fits(bins', lengths, capacity) && Together(bins', medium') == Together(bins, medium)
    ensures AddsMedium(bins, bins', pools, lengths, capacity)
    ensures pools[0] == medium && pools[|bins|] == medium' && Falls(medium', lengths) && LeftOf(medium', medium)
  {
    bins', medium' := bins, medium;
    pools := [medium];
    for k := 0 to |bins|
      invariant |bins'| == |bins| && Fits(bins', lengths, capacity)
      invariant Together(bins', medium') == Together(bins, medium)
      invariant MediumUpTo(bins, bins', pools, k, lengths, capacity) && pools[0] == medium && pools[k] == medium'
      invariant Falls(medium', lengths) && LeftOf(medium', medium)
    {
      var i := FirstThatFits(medium', lengths, capacity - BinSum(lengths, bins'[k]));
      MediumStep(bins, bins', pools, k, medium', lengths, capacity, i);
      if i < |medium'| {
        MoveIntoBin(bins', medium', lengths, capacity, k, i);
        RemoveAtKeeps(medium', lengths, i);
        bins', medium' := bins'[k := bins'[k] + [medium'[i]]], RemoveAt(medium', i);
      }
      pools := pools + [medium'];
    }
  }

  // ---- Phase 3 ----

  predicate IsMedium(length: nat, capacity: int) { capacity < 3 * length && 2 * length <= capacity }

  predicate HasMedium(bin: seq<nat>, lengths: seq<nat>, capacity: int) {
    exists i :: 0 <= i < |bin| && IsMedium(Len(lengths, bin[i]), capacity)
  }

  /** An item above a third and up to a half of the capacity. */
  ghost predicate HoldsMedium(bin: seq<nat>, lengths: seq<nat>, capacity: int) {
    exists x :: x in bin && 2 * Len(lengths, x) <= capacity < 3 * Len(lengths, x)
  }

  lemma HasMediumIff(bin: seq<nat>, lengths: seq<nat>, capacity: int)
    ensures HasMedium(bin, lengths, capacity) <==> HoldsMedium(bin, lengths, capacity)
  {
    if HasMedium(bin, lengths, capacity) {
      var i :| 0 <= i < |bin| && IsMedium(Len(lengths, bin[i]), capacity);
      assert bin[i] in bin;
    }
  }

  /** A bin that phase 3 passes over: with a medium item, or without room for two of the small items. */
  ghost predicate NoPair(bin: seq<nat>, pool: seq<nat>, lengths: seq<nat>, capacity: int) {
    HoldsMedium(bin, lengths, capacity) || NoTwoFit(pool, lengths, Room(bin, lengths, capacity))
  }

  /** The smallest small item moves into the bin, and the largest one that fits beside it. */
  ghost predicate GotPair(bin: seq<nat>, bin': seq<nat>, before: seq<nat>, after: seq<nat>, lengths: seq<nat>,
                          capacity: int) {
    && !HoldsMedium(bin, lengths, capacity)
    && |bin'| == |bin| + 2 && bin <= bin' && Takes(bin'[|bin|..], before, after)
    && FirstSmallest(bin'[|bin|], after + [bin'[|bin| + 1]], lengths)
    && LastLargest(bin'[|bin| + 1], after, lengths, Room(bin, lengths, capacity) - Len(lengths, bin'[|bin|]))
  }

  ghost predicate PairOrNot(bin: seq<nat>, bin': seq<nat>, before: seq<nat>, after: seq<nat>, lengths: seq<nat>,
                            capacity: int) {
    || (bin' == bin && after == before && NoPair(bin, before, lengths, capacity))
    || GotPair(bin, bin', before, after, lengths, capacity)
  }

  /** The bins from `n` on have been through phase 3, each with the pool that the one after it left; those before not. */
  ghost predicate PairsFrom(bins: seq<seq<nat>>, bins': seq<seq<nat>>, pools: seq<seq<nat>>, n: nat, lengths: seq<nat>,
                            capacity: int) {
    && |bins'| == |bins| && |pools| == |bins| + 1
    && (forall k :: n <= k < |bins| ==> PairOrNot(bins[k], bins'[k], pools[k + 1], pools[k], lengths, capacity))
    && (forall k :: 0 <= k < n && k < |bins| ==> bins'[k] == bins[k])
  }

  /** Phase 3 over all bins, from the last to the first. */
  ghost predicate AddsPairs(bins: seq<seq<nat>>, bins': seq<seq<nat>>, pools: seq<seq<nat>>, lengths: seq<nat>,
                            capacity: int) {
    PairsFrom(bins, bins', pools, 0, lengths, capacity)
  }

  /** The first item of a rising pool is the smallest. */
  lemma FirstIsSmallest(pool: seq<nat>, lengths: seq<nat>)
    requires Rises(pool, lengths) && pool != []
    ensures FirstSmallest(pool[0], RemoveAt(pool, 0), lengths)
  {
    assert RemoveAt(pool, 0) == pool[1..];
  }

  /** Taking one item and then another. */
  lemma TakesTwo(x: nat, y: nat, before: seq<nat>, between: seq<nat>, after: seq<nat>)
    requires Takes([x], before, between) && Takes([y], between, after)
    ensures Takes([x] + [y], before, after) && LeftOf(after + [y], between)
  {
    forall z | z in after + [y] ensures z in between {
      assert z in multiset(after) + multiset([y]);
      assert z in multiset(between);
    }
  }

  lemma PairGot(bin: seq<nat>, pool: seq<nat>, lengths: seq<nat>, capacity: int, j: nat)
    requires !HoldsMedium(bin, lengths, capacity) && Rises(pool, lengths) && j + 1 < |pool|
    requires Len(lengths, RemoveAt(pool, 0)[j]) <= Room(bin, lengths, capacity) - Len(lengths, pool[0])
    requires forall m :: j < m < |RemoveAt(pool, 0)| ==>
                           Len(lengths, RemoveAt(pool, 0)[m]) > Room(bin, lengths, capacity) - Len(lengths, pool[0])
    ensures var others := RemoveAt(pool, 0);
      GotPair(bin, bin + [pool[0]] + [others[j]], pool, RemoveAt(others, j), lengths, capacity)
  {
    var others := RemoveAt(pool, 0);
    var x, y, rest := pool[0], others[j], RemoveAt(others, j);
    RemoveAtKeeps(pool, lengths, 0);
    RemoveAtKeeps(others, lengths, j);
    LastIsLargest(others, lengths, Room(bin, lengths, capacity) - Len(lengths, x), j);
    FirstIsSmallest(pool, lengths);
    TakesTwo(x, y, pool, others, rest);
    PairJoins(bin, x, y, pool, rest, lengths, capacity);
  }

  lemma PairJoins(bin: seq<nat>, x: nat, y: nat, pool: seq<nat>, rest: seq<nat>, lengths: seq<nat>, capacity: int)
    requires !HoldsMedium(bin, lengths, capacity) && Takes([x] + [y], pool, rest) && FirstSmallest(x, rest + [y], lengths)
    requires LastLargest(y, rest, lengths, Room(bin, lengths, capacity) - Len(lengths, x))
    ensures GotPair(bin, bin + [x] + [y], pool, rest, lengths, capacity)
  {
    var bin' := bin + [x] + [y];
    assert bin'[..|bin|] == bin && bin'[|bin|..] == [x] + [y] && bin'[|bin|] == x && bin'[|bin| + 1] == y;
  }

  /** The first pool item and one of the others move into bin `k`. */
  lemma MovePair(bins: seq<seq<nat>>, pool: seq<nat>, lengths: seq<nat>, capacity: int, k: nat, j: nat)
    requires k < |bins| && j + 1 < |pool| && Fits(bins, lengths, capacity)
    requires Len(lengths, RemoveAt(pool, 0)[j]) <= Room(bins[k], lengths, capacity) - Len(lengths, pool[0])
    ensures var others := RemoveAt(pool, 0); var bins' := bins[k := bins[k] + [pool[0]] + [others[j]]];
      Fits(bins', lengths, capacity) && Together(bins', RemoveAt(others, j)) == Together(bins, pool)
  {
    var others := RemoveAt(pool, 0);
    MoveIntoBin(bins, pool, lengths, capacity, k, 0);
    BinSumSnoc(lengths, bins[k], pool[0]);
    var mid := bins[k := bins[k] + [pool[0]]];
    MoveIntoBin(mid, others, lengths, capacity, k, j);
    assert mid[k := mid[k] + [others[j]]] == bins[k := bins[k] + [pool[0]] + [others[j]]];
  }

  /** The state of phase 3: nothing is lost, nothing overflows, and the bins from `k` on are done. */
  ghost predicate PairState(bins: seq<seq<nat>>, pool: seq<nat>, bins': seq<seq<nat>>, pool': seq<nat>,
                            pools: seq<seq<nat>>, k: nat, lengths: seq<nat>, capacity: int) {
    && Fits(bins', lengths, capacity) && Together(bins', pool') == Together(bins, pool)
    && PairsFrom(bins, bins', pools, k, lengths, capacity) && k <= |bins| && pools[|bins|] == pool && pools[k] == pool'
    && Rises(pool', lengths) && LeftOf(pool', pool)
  }

  lemma PairNext(bins: seq<seq<nat>>, pool: seq<nat>, bins': seq<seq<nat>>, pool': seq<nat>, pools: seq<seq<nat>>, k: nat,
                 lengths: seq<nat>, capacity: int, j: nat)
    requires k < |bins| && PairState(bins, pool, bins', pool', pools, k + 1, lengths, capacity) && j + 1 < |pool'|
    requires !HoldsMedium(bins'[k], lengths, capacity)
    requires var room := Room(bins'[k], lengths, capacity) - Len(lengths, pool'[0]); var others := RemoveAt(pool', 0);
      Len(lengths, others[j]) <= room && forall m :: j < m < |others| ==> Len(lengths, others[m]) > room
    ensures var others := RemoveAt(pool', 0);
      PairState(bins, pool, bins'[k := bins'[k] + [pool'[0]] + [others[j]]], RemoveAt(others, j),
                pools[k := RemoveAt(others, j)], k, lengths, capacity)
  {
    var others := RemoveAt(pool', 0);
    PairGot(bins'[k], pool', lengths, capacity, j);
    MovePair(bins', pool', lengths, capacity, k, j);
    RemoveAtKeeps(pool', lengths, 0);
    RemoveAtKeeps(others, lengths, j);
    PairsGrow(bins, bins', pools, k, bins'[k] + [pool'[0]] + [others[j]], RemoveAt(others, j), lengths, capacity);
  }

  lemma PairsGrow(bins: seq<seq<nat>>, bins': seq<seq<nat>>, pools: seq<seq<nat>>, k: nat, bin': seq<nat>, pool: seq<nat>,
                  lengths: seq<nat>, capacity: int)
    requires k < |bins| && PairsFrom(bins, bins', pools, k + 1, lengths, capacity)
    requires PairOrNot(bins[k], bin', pools[k + 1], pool, lengths, capacity)
    ensures PairsFrom(bins, bins'[k := bin'], pools[k := pool], k, lengths, capacity)
  {
    var after, left := bins'[k := bin'], pools[k := pool];
    forall m | k <= m < |bins| ensures PairOrNot(bins[m], after[m], left[m + 1], left[m], lengths, capacity) {
      if k < m {
        assert after[m] == bins'[m] && left[m] == pools[m] && left[m + 1] == pools[m + 1];
      }
    }
  }

  lemma PairSkipped(bins: seq<seq<nat>>, pool: seq<nat>, bins': seq<seq<nat>>, pool': seq<nat>, pools: seq<seq<nat>>, k: nat,
                    lengths: seq<nat>, capacity: int)
    requires k < |bins| && PairState(bins, pool, bins', pool', pools, k + 1, lengths, capacity)
    requires NoPair(bins'[k], pool', lengths, capacity)
    ensures PairState(bins, pool, bins', pool', pools[k := pool'], k, lengths, capacity)
  {
  }

  /** In a rising pool no two items fit when the first two do not. */
  lemma FirstTwoDecide(pool: seq<nat>, lengths: seq<nat>, room: int)
    requires Rises(pool, lengths) && (|pool| < 2 || Len(lengths, pool[0]) + Len(lengths, pool[1]) > room)
    ensures NoTwoFit(pool, lengths, room)
  {
  }

  /**
   * Phase 3: from the last bin back, the smallest small item and the largest other one that fits with it, for bins
   * without a medium item. The item taken first is never lost: a partner is always found. `pools[k]` is what bin `k` left.
   */
  method AddSmallPairs(bins: seq<seq<nat>>, small: seq<nat>, lengths: seq<nat>, capacity: int)
    returns (bins': seq<seq<nat>>, small': seq<nat>, ghost pools: seq<seq<nat>>)
    requires Fits(bins, lengths, capacity) && Rises(small, lengths)
    ensures Fits(bins', lengths, capacity) && Together(bins', small') == Together(bins, small)
    ensures AddsPairs(bins, bins', pools, lengths, capacity)
    ensures pools[|bins|] == small && pools[0] == small' && Rises(small', lengths) && LeftOf(small', small)
  {
    bins', small' := bins, small;
    pools := seq(|bins| + 1, _ => small);
    var k := |bins|;
    while k > 0
      invariant 0 <= k <= |bins| == |bins'| && |pools| == |bins| + 1
      invariant PairState(bins, small, bins', small', pools, k, lengths, capacity)
    {
      k := k - 1;
      var remaining := capacity - BinSum(lengths, bins'[k]);
      HasMediumIff(bins'[k], lengths, capacity);
      if !HasMedium(bins'[k], lengths, capacity) && |small'| >= 2
        && Len(lengths, small'[0]) + Len(lengths, small'[1]) <= remaining
      {
        var first, others := small'[0], RemoveAt(small', 0);
        var j := LastThatFits(others, lengths, remaining - Len(lengths, first));
        PairNext(bins, small, bins', small', pools, k, lengths, capacity, j);
        bins', small' := bins'[k := bins'[k] + [first] + [others[j]]], RemoveAt(others, j);
      } else {
        if !HasMedium(bins'[k], lengths, capacity) {
          FirstTwoDecide(small', lengths, remaining);
        }
        PairSkipped(bins, small, bins', small', pools, k, lengths, capacity);
      }
      pools := pools[k := small'];
    }
  }

  // ---- Phase 4 ----

  /** The items added to a bin from position `n` on were each the largest that fitted, of those still there. */
  ghost predicate AddedLargest(bin: seq<nat>, n: nat, pool: seq<nat>, lengths: seq<nat>, capacity: int) {
    forall i :: n <= i < |bin| ==> FirstLargest(bin[i], bin[i + 1..] + pool, lengths, Room(bin[..i], lengths, capacity))
  }

  /** What phase 4 has made of a bin so far: it keeps its items and took the largest that fits again and again. */
  ghost predicate TakesLargest(bin: seq<nat>, bin': seq<nat>, before: seq<nat>, after: seq<nat>, lengths: seq<nat>,
                          capacity: int) {
    bin <= bin' && Takes(bin'[|bin|..], before, after) && AddedLargest(bin', |bin|, after, lengths, capacity)
  }

  /** And in the end nothing fits. */
  ghost predicate Filled(bin: seq<nat>, bin': seq<nat>, before: seq<nat>, after: seq<nat>, lengths: seq<nat>,
                         capacity: int) {
    TakesLargest(bin, bin', before, after, lengths, capacity) && NoneFits(after, lengths, Room(bin', lengths, capacity))
  }

  /** The bins before `n` are done with phase 4, each with the pool that the one before it left; those after are untouched. */
  ghost predicate FilledUpTo(bins: seq<seq<nat>>, bins': seq<seq<nat>>, pools: seq<seq<nat>>, n: nat, lengths: seq<nat>,
                             capacity: int) {
    && |bins'| == |bins| && |pools| == n + 1
    && (forall k :: 0 <= k < n && k < |bins| ==> Filled(bins[k], bins'[k], pools[k], pools[k + 1], lengths, capacity))
    && (forall k :: n < k < |bins| ==> bins'[k] == bins[k])
  }

  /** Phase 4 over all bins, from the first to the last. */
  ghost predicate Fills(bins: seq<seq<nat>>, bins': seq<seq<nat>>, pools: seq<seq<nat>>, lengths: seq<nat>, capacity: int) {
    FilledUpTo(bins, bins', pools, |bins|, lengths, capacity)
  }

  /** The state of phase 4: nothing is lost, nothing overflows, and the first bins are done. */
  ghost predicate FillState(bins: seq<seq<nat>>, pool: seq<nat>, bins': seq<seq<nat>>, pool': seq<nat>,
                            pools: seq<seq<nat>>, k: nat, lengths: seq<nat>, capacity: int) {
    && Fits(bins', lengths, capacity) && Together(bins', pool') == Together(bins, pool)
    && FilledUpTo(bins, bins', pools, k, lengths, capacity) && pools[0] == pool
    && Falls(pool', lengths) && LeftOf(pool', pool)
  }

  /** Fewer candidates make no difference. */
  lemma StaysLargest(x: nat, pool: seq<nat>, pool': seq<nat>, lengths: seq<nat>, room: int)
    requires FirstLargest(x, pool, lengths, room) && LeftOf(pool', pool)
    ensures FirstLargest(x, pool', lengths, room)
  {
  }

  lemma AddLargest(bin: seq<nat>, n: nat, pool: seq<nat>, lengths: seq<nat>, capacity: int, i: nat)
    requires n <= |bin| && AddedLargest(bin, n, pool, lengths, capacity) && Falls(pool, lengths) && i < |pool|
    requires Len(lengths, pool[i]) <= Room(bin, lengths, capacity)
    requires forall j :: 0 <= j < i ==> Len(lengths, pool[j]) > Room(bin, lengths, capacity)
    ensures AddedLargest(bin + [pool[i]], n, RemoveAt(pool, i), lengths, capacity)
  {
    var bin', rest := bin + [pool[i]], RemoveAt(pool, i);
    assert LeftOf([pool[i]] + rest, pool) by {
      RemoveAtKeeps(pool, lengths, i);
    }
    FirstIsLargest(pool, lengths, Room(bin, lengths, capacity), i);
    forall m | n <= m < |bin'|
      ensures FirstLargest(bin'[m], bin'[m + 1..] + rest, lengths, Room(bin'[..m], lengths, capacity))
    {
      AddedAt(bin, pool[i], m, pool, rest, lengths, capacity);
    }
  }

  lemma AddedAt(bin: seq<nat>, x: nat, m: nat, pool: seq<nat>, rest: seq<nat>, lengths: seq<nat>, capacity: int)
    requires m <= |bin| && LeftOf([x] + rest, pool)
    requires m < |bin| ==> FirstLargest(bin[m], bin[m + 1..] + pool, lengths, Room(bin[..m], lengths, capacity))
    requires FirstLargest(x, rest, lengths, Room(bin, lengths, capacity))
    ensures var bin' := bin + [x];
      FirstLargest(bin'[m], bin'[m + 1..] + rest, lengths, Room(bin'[..m], lengths, capacity))
  {
    var bin' := bin + [x];
    assert bin'[..m] == bin[..m];
    if m == |bin| {
      assert bin[..m] == bin && bin'[m + 1..] + rest == rest;
    } else {
      assert bin'[m + 1..] + rest == bin[m + 1..] + ([x] + rest);
      StaysLargest(bin[m], bin[m + 1..] + pool, bin'[m + 1..] + rest, lengths, Room(bin[..m], lengths, capacity));
    }
  }

  lemma FillingNext(bin: seq<nat>, bin': seq<nat>, before: seq<nat>, pool: seq<nat>, lengths: seq<nat>, capacity: int, i: nat)
    requires TakesLargest(bin, bin', before, pool, lengths, capacity) && Falls(pool, lengths) && i < |pool|
    requires Len(lengths, pool[i]) <= Room(bin', lengths, capacity)
    requires forall j :: 0 <= j < i ==> Len(lengths, pool[j]) > Room(bin', lengths, capacity)
    ensures TakesLargest(bin, bin' + [pool[i]], before, RemoveAt(pool, i), lengths, capacity)
  {
    RemoveAtKeeps(pool, lengths, i);
    AddLargest(bin', |bin|, pool, lengths, capacity, i);
    assert (bin' + [pool[i]])[|bin|..] == bin'[|bin|..] + [pool[i]];
  }

  lemma FillNext(bins: seq<seq<nat>>, pool: seq<nat>, bins': seq<seq<nat>>, pool': seq<nat>, pools: seq<seq<nat>>, k: nat,
                 lengths: seq<nat>, capacity: int, i: nat)
    requires FillState(bins, pool, bins', pool', pools, k, lengths, capacity) && k < |bins| && i < |pool'|
    requires TakesLargest(bins[k], bins'[k], pools[k], pool', lengths, capacity)
    requires Len(lengths, pool'[i]) <= Room(bins'[k], lengths, capacity)
    requires forall j :: 0 <= j < i ==> Len(lengths, pool'[j]) > Room(bins'[k], lengths, capacity)
    ensures FillState(bins, pool, bins'[k := bins'[k] + [pool'[i]]], RemoveAt(pool', i), pools, k, lengths, capacity)
    ensures TakesLargest(bins[k], bins'[k] + [pool'[i]], pools[k], RemoveAt(pool', i), lengths, capacity)
  {
    FillingNext(bins[k], bins'[k], pools[k], pool', lengths, capacity, i);
    MoveIntoBin(bins', pool', lengths, capacity, k, i);
    RemoveAtKeeps(pool', lengths, i);
    FillingKeeps(bins, bins', pools, k, bins'[k] + [pool'[i]], lengths, capacity);
  }

  /** The bin being filled is not among those that are done. */
  lemma FillingKeeps(bins: seq<seq<nat>>, bins': seq<seq<nat>>, pools: seq<seq<nat>>, k: nat, bin: seq<nat>,
                     lengths: seq<nat>, capacity: int)
    requires FilledUpTo(bins, bins', pools, k, lengths, capacity) && k < |bins|
    ensures FilledUpTo(bins, bins'[k := bin], pools, k, lengths, capacity)
  {
    var after := bins'[k := bin];
    forall m | 0 <= m < k ensures Filled(bins[m], after[m], pools[m], pools[m + 1], lengths, capacity) {
      assert after[m] == bins'[m];
    }
  }

  lemma BinDone(bins: seq<seq<nat>>, pool: seq<nat>, bins': seq<seq<nat>>, pool': seq<nat>, pools: seq<seq<nat>>, k: nat,
                lengths: seq<nat>, capacity: int)
    requires FillState(bins, pool, bins', pool', pools, k, lengths, capacity) && k < |bins|
    requires TakesLargest(bins[k], bins'[k], pools[k], pool', lengths, capacity)
    requires NoneFits(pool', lengths, Room(bins'[k], lengths, capacity))
    ensures FillState(bins, pool, bins', pool', pools + [pool'], k + 1, lengths, capacity)
  {
  }

  /** In a falling pool nothing fits when the last item does not. */
  lemma LastIsSmallest(pool: seq<nat>, lengths: seq<nat>, room: int)
    requires Falls(pool, lengths) && pool != [] && room < Len(lengths, pool[|pool| - 1])
    ensures NoneFits(pool, lengths, room)
  {
  }

  /** Phase 4: each bin in turn takes the largest remaining item that fits, until none does. */
  method FillGreedily(bins: seq<seq<nat>>, pool: seq<nat>, lengths: seq<nat>, capacity: int)
    returns (bins': seq<seq<nat>>, pool': seq<nat>, ghost pools: seq<seq<nat>>)
    requires Fits(bins, lengths, capacity) && Falls(pool, lengths)
    ensures Fits(bins', lengths, capacity) && Together(bins', pool') == Together(bins, pool)
    ensures Fills(bins, bins', pools, lengths, capacity)
    ensures pools[0] == pool && pools[|bins|] == pool' && Falls(pool', lengths) && LeftOf(pool', pool)
  {
    bins', pool', pools := bins, pool, [pool];
    for k := 0 to |bins|
      invariant |bins'| == |bins| && |pools| == k + 1 && pools[k] == pool'
      invariant FillState(bins, pool, bins', pool', pools, k, lengths, capacity) && (k < |bins| ==> bins'[k] == bins[k])
    {
      var full := false;
      StartsFilling(bins[k], pool', lengths, capacity);
      while pool' != [] && !full
        invariant |bins'| == |bins| && FillState(bins, pool, bins', pool', pools, k, lengths, capacity)
        invariant TakesLargest(bins[k], bins'[k], pools[k], pool', lengths, capacity)
        invariant full ==> NoneFits(pool', lengths, Room(bins'[k], lengths, capacity))
        decreases |pool'|, !full
      {
        var room := Room(bins'[k], lengths, capacity);
        var i := FirstThatFits(pool', lengths, room);
        if room < Len(lengths, pool'[|pool'| - 1]) {
          LastIsSmallest(pool', lengths, room);
          full := true;
        } else if i == |pool'| {
          full := true;
        } else {
          FillNext(bins, pool, bins', pool', pools, k, lengths, capacity, i);
          bins', pool' := bins'[k := bins'[k] + [pool'[i]]], RemoveAt(pool', i);
        }
      }
      BinDone(bins, pool, bins', pool', pools, k, lengths, capacity);
      pools := pools + [pool'];
    }
  }

  lemma StartsFilling(bin: seq<nat>, pool: seq<nat>, lengths: seq<nat>, capacity: int)
    ensures TakesLargest(bin, bin, pool, pool, lengths, capacity)
  {
    assert bin[|bin|..] == [];
  }

  lemma FilledMeans(bins: seq<seq<nat>>, bins': seq<seq<nat>>, pools: seq<seq<nat>>, lengths: seq<nat>, capacity: int, k: nat)
    requires Fills(bins, bins', pools, lengths, capacity) && k < |bins|
    ensures LeftOf(pools[k + 1], pools[k]) && NoneFits(pools[k + 1], lengths, Room(bins'[k], lengths, capacity))
    ensures bins[k] <= bins'[k]
  {
    assert Filled(bins[k], bins'[k], pools[k], pools[k + 1], lengths, capacity);
    TakesLeaves(bins'[k][|bins[k]|..], pools[k], pools[k + 1]);
  }

  /** A pool only loses items from bin to bin. */
  lemma {:induction false} PoolsShrink(pools: seq<seq<nat>>, k: nat, n: nat)
    requires k <= n < |pools| && forall m :: 0 <= m < |pools| - 1 ==> LeftOf(pools[m + 1], pools[m])
    ensures LeftOf(pools[n], pools[k])
    decreases n
  {
    if k < n {
      PoolsShrink(pools, k, n - 1);
      assert LeftOf(pools[n - 1 + 1], pools[n - 1]);
    }
  }

  /** So what is left in the end fits into no bin. */
  lemma NothingFitsLater(bins: seq<seq<nat>>, bins': seq<seq<nat>>, pools: seq<seq<nat>>, lengths: seq<nat>, capacity: int,
                         k: nat)
    requires Fills(bins, bins', pools, lengths, capacity) && k < |bins|
    ensures NoneFits(pools[|bins|], lengths, Room(bins'[k], lengths, capacity))
  {
    forall m | 0 <= m < |pools| - 1 ensures LeftOf(pools[m + 1], pools[m]) {
      FilledMeans(bins, bins', pools, lengths, capacity, m);
    }
    FilledMeans(bins, bins', pools, lengths, capacity, k);
    PoolsShrink(pools, k + 1, |bins|);
  }

  lemma TakesLeaves(xs: seq<nat>, before: seq<nat>, after: seq<nat>)
    requires Takes(xs, before, after)
    ensures LeftOf(after, before)
  {
    forall y | y in after ensures y in before {
      assert y in multiset(after) && y in multiset(before);
    }
  }

  /** Phase 5: first fit over what is left, in bins of its own. */
  method PackLeftovers(pool: seq<nat>, lengths: seq<nat>, capacity: int) returns (bins: seq<seq<nat>>)
    requires forall k :: 0 <= k < |pool| ==> Len(lengths, pool[k]) <= capacity
    ensures bins == FirstFit(pool, lengths, capacity)
    ensures Fits(bins, lengths, capacity) && Holds(bins, multiset(pool))
  {
    var remaining: seq<int>;
    bins, remaining := [], [];
    for j := 0 to |pool|
      invariant bins == FirstFit(pool[..j], lengths, capacity)
      invariant Fits(bins, lengths, capacity) && RoomLeft(bins, remaining, lengths, capacity)
      invariant Holds(bins, multiset(pool[..j]))
    {
      assert pool[..j + 1] == pool[..j] + [pool[j]];
      FirstFitSnoc(pool[..j], lengths, capacity, pool[j]);
      bins, remaining := PlaceFirstFit(bins, remaining, lengths, capacity, pool[j]);
    }
    assert pool[..|pool|] == pool;
  }

  // ---- Sorting and classifying ----

  /** The lengths of the pool's items as sort keys. */
  function SizeKeys(pool: seq<nat>, lengths: seq<nat>, descending: bool): (r: seq<int>)
    ensures |r| == |pool|
  {
    var sign := if descending then -1 else 1;
    seq(|pool|, i requires 0 <= i < |pool| => sign * Len(lengths, pool[i]))
  }

  /** The pool sorted by length, equal lengths in their present order. */
  function SortPool(pool: seq<nat>, lengths: seq<nat>, descending: bool): (r: seq<nat>)
    ensures |r| == |pool|
  {
    Select(pool, ArgSort(SizeKeys(pool, lengths, descending)))
  }

  lemma SortPoolPermutes(pool: seq<nat>, lengths: seq<nat>, descending: bool)
    ensures multiset(SortPool(pool, lengths, descending)) == multiset(pool)
  {
    ArgSortPermutes(SizeKeys(pool, lengths, descending));
    SelectPermutation(pool, ArgSort(SizeKeys(pool, lengths, descending)));
  }

  /** Equally long items stand in their original order. */
  ghost predicate TiesInOrder(pool: seq<nat>, lengths: seq<nat>) {
    forall i, j :: 0 <= i < j < |pool| && Len(lengths, pool[i]) == Len(lengths, pool[j]) ==> pool[i] < pool[j]
  }

  lemma SortPoolSorts(pool: seq<nat>, lengths: seq<nat>)
    requires TiesInOrder(pool, lengths)
    ensures Falls(SortPool(pool, lengths, true), lengths) && Rises(SortPool(pool, lengths, false), lengths)
  {
    ArgSortSorts(SizeKeys(pool, lengths, true));
    ArgSortSorts(SizeKeys(pool, lengths, false));
  }

  datatype SizeClass = Large | Medium | Small | Tiny

  function IsLarge(capacity: int): nat -> bool { (length: nat) => 2 * length > capacity }

  /** Above a half, a third and a sixth of the capacity. */
  function ClassOf(length: nat, capacity: int): SizeClass {
    if 2 * length > capacity then Large
    else if IsMedium(length, capacity) then Medium
    else if 6 * length > capacity then Small
    else Tiny
  }

  /** The first `n` items of a class, in order. */
  ghost predicate OfClass(items: seq<nat>, lengths: seq<nat>, capacity: int, kind: SizeClass, n: nat) {
    && (forall i: nat :: i in items <==> i < n && ClassOf(Len(lengths, i), capacity) == kind)
    && (forall i, j :: 0 <= i < j < |items| ==> items[i] < items[j])
  }

  ghost predicate AreFirst(items: multiset<nat>, n: nat) { items == multiset(Range(0, n)) }

  /** The first `n` items, each in the list of its class. */
  ghost predicate Classified(large: seq<nat>, medium: seq<nat>, small: seq<nat>, tiny: seq<nat>, lengths: seq<nat>,
                             capacity: int, n: nat) {
    && n <= |lengths| && large == IndicesWhere(lengths[..n], IsLarge(capacity))
    && AreFirst(multiset(large) + multiset(medium) + multiset(small) + multiset(tiny), n)
    && OfClass(large, lengths, capacity, Large, n) && OfClass(medium, lengths, capacity, Medium, n)
    && OfClass(small, lengths, capacity, Small, n) && OfClass(tiny, lengths, capacity, Tiny, n)
  }

  lemma ClassifyNext(large: seq<nat>, medium: seq<nat>, small: seq<nat>, tiny: seq<nat>, lengths: seq<nat>, capacity: int,
                     n: nat)
    requires Classified(large, medium, small, tiny, lengths, capacity, n) && n < |lengths|
    ensures match ClassOf(Len(lengths, n), capacity) {
              case Large => Classified(large + [n], medium, small, tiny, lengths, capacity, n + 1)
              case Medium => Classified(large, medium + [n], small, tiny, lengths, capacity, n + 1)
              case Small => Classified(large, medium, small + [n], tiny, lengths, capacity, n + 1)
              case Tiny => Classified(large, medium, small, tiny + [n], lengths, capacity, n + 1)
            }
  {
    LargeNext(lengths, capacity, n);
    NextIsFirst(multiset(large), multiset(medium), multiset(small), multiset(tiny), n);
    ClassSnoc(large, lengths, capacity, Large, n);
    ClassSnoc(medium, lengths, capacity, Medium, n);
    ClassSnoc(small, lengths, capacity, Small, n);
    ClassSnoc(tiny, lengths, capacity, Tiny, n);
  }

  lemma NextIsFirst(large: multiset<nat>, medium: multiset<nat>, small: multiset<nat>, tiny: multiset<nat>, n: nat)
    requires AreFirst(large + medium + small + tiny, n)
    ensures AreFirst((large + multiset{n}) + medium + small + tiny, n + 1)
    ensures AreFirst(large + (medium + multiset{n}) + small + tiny, n + 1)
    ensures AreFirst(large + medium + (small + multiset{n}) + tiny, n + 1)
    ensures AreFirst(large + medium + small + (tiny + multiset{n}), n + 1)
  {
    RangeSnoc(n);
    var next := large + medium + small + tiny + multiset{n};
    assert (large + multiset{n}) + medium + small + tiny == next;
    assert large + (medium + multiset{n}) + small + tiny == next;
    assert large + medium + (small + multiset{n}) + tiny == next;
    assert large + medium + small + (tiny + multiset{n}) == next;
  }

  lemma LargeNext(lengths: seq<nat>, capacity: int, n: nat)
    requires n < |lengths|
    ensures var before := IndicesWhere(lengths[..n], IsLarge(capacity));
      IndicesWhere(lengths[..n + 1], IsLarge(capacity))
        == if ClassOf(Len(lengths, n), capacity) == Large then before + [n] else before
  {
    assert lengths[..n + 1][..n] == lengths[..n];
  }

  lemma ClassSnoc(items: seq<nat>, lengths: seq<nat>, capacity: int, kind: SizeClass, n: nat)
    requires OfClass(items, lengths, capacity, kind, n)
    ensures multiset(items + [n]) == multiset(items) + multiset{n}
    ensures if ClassOf(Len(lengths, n), capacity) == kind then OfClass(items + [n], lengths, capacity, kind, n + 1)
            else OfClass(items, lengths, capacity, kind, n + 1)
  {
    forall i | 0 <= i < |items| ensures items[i] < n {
      assert items[i] in items;
    }
    forall i: nat ensures i in items + [n] <==> i in items || i == n {
    }
  }

  method ClassifyItems(lengths: seq<nat>, capacity: int)
    returns (large: seq<nat>, medium: seq<nat>, small: seq<nat>, tiny: seq<nat>)
    ensures Classified(large, medium, small, tiny, lengths, capacity, |lengths|)
  {
    large, medium, small, tiny := [], [], [], [];
    for i := 0 to |lengths|
      invariant Classified(large, medium, small, tiny, lengths, capacity, i)
    {
      ClassifyNext(large, medium, small, tiny, lengths, capacity, i);
      if 2 * lengths[i] > capacity {
        large := large + [i];
      } else if 3 * lengths[i] > capacity {
        medium := medium + [i];
      } else if 6 * lengths[i] > capacity {
        small := small + [i];
      } else {
        tiny := tiny + [i];
      }
    }
  }

  lemma RangeSnoc(n: nat)
    ensures multiset(Range(0, n + 1)) == multiset(Range(0, n)) + multiset{n}
  {
    assert Range(0, n + 1) == Range(0, n) + [n];
  }

  lemma {:induction false} SingletonsFit(items: seq<nat>, lengths: seq<nat>, capacity: int)
    requires forall k :: 0 <= k < |items| ==> Len(lengths, items[k]) <= capacity
    ensures Fits(Singletons(items), lengths, capacity) && Flatten(Singletons(items)) == items
  {
    if items != [] {
      var n := |items| - 1;
      SingletonsFit(items[..n], lengths, capacity);
      assert Singletons(items) == Singletons(items[..n]) + [[items[n]]];
      AddNewBin(Singletons(items[..n]), lengths, capacity, items[n]);
    }
  }

  predicate AllPositive(lengths: seq<nat>) { forall i :: 0 <= i < |lengths| ==> lengths[i] > 0 }

  lemma LenWithin(lengths: seq<nat>, capacity: int, items: seq<nat>)
    requires 0 < capacity && AllFit(lengths, capacity)
    ensures forall k :: 0 <= k < |items| ==> Len(lengths, items[k]) <= capacity
  {
  }

  // ---- The five phases ----

  /** The sorted pools, and what the bins are after each phase, with what was left of the pools bin by bin. */
  datatype Phases = Phases(large: seq<nat>, medium: seq<nat>, small: seq<nat>, tiny: seq<nat>,
                           withMedium: seq<seq<nat>>, mediumPools: seq<seq<nat>>,
                           withPairs: seq<seq<nat>>, smallPools: seq<seq<nat>>,
                           filled: seq<seq<nat>>, fillPools: seq<seq<nat>>, leftovers: seq<nat>)

  /** Phase 1: the classes, large and medium sequences from the longest, the others from the shortest. */
  ghost predicate AreClasses(p: Phases, lengths: seq<nat>, capacity: int) {
    && (forall i: nat :: i in p.large <==> i < |lengths| && capacity < 2 * lengths[i])
    && (forall i: nat :: i in p.medium <==> i < |lengths| && 2 * lengths[i] <= capacity < 3 * lengths[i])
    && (forall i: nat :: i in p.small <==> i < |lengths| && 3 * lengths[i] <= capacity < 6 * lengths[i])
    && (forall i: nat :: i in p.tiny <==> i < |lengths| && 6 * lengths[i] <= capacity)
    && Falls(p.large, lengths) && Falls(p.medium, lengths) && Rises(p.small, lengths) && Rises(p.tiny, lengths)
  }

  /** Phases 2 to 5, each from what the one before it left. */
  ghost predicate RunsPhases(p: Phases, bins: seq<seq<nat>>, lengths: seq<nat>, capacity: int) {
    var n := |p.large|;
    && AddsMedium(Singletons(p.large), p.withMedium, p.mediumPools, lengths, capacity) && p.mediumPools[0] == p.medium
    && AddsPairs(p.withMedium, p.withPairs, p.smallPools, lengths, capacity) && p.smallPools[n] == p.small
    && Fills(p.withPairs, p.filled, p.fillPools, lengths, capacity) && Falls(p.fillPools[0], lengths)
    && multiset(p.fillPools[0]) == multiset(p.mediumPools[n]) + multiset(p.smallPools[0]) + multiset(p.tiny)
    && Falls(p.leftovers, lengths) && multiset(p.leftovers) == multiset(p.fillPools[n])
    && bins == p.filled + FirstFit(p.leftovers, lengths, capacity)
  }

  /**
   * The first `n` bins hold one large item each to begin with; whatever stands in a bin after them fits into no bin
   * before its own and is not large.
   */
  ghost predicate TightAfter(bins: seq<seq<nat>>, n: nat, lengths: seq<nat>, capacity: int) {
    && n <= |bins|
    && (forall k :: 0 <= k < n ==> bins[k] != [] && 2 * Len(lengths, bins[k][0]) > capacity)
    && (forall j, k, i :: 0 <= j < k < |bins| && n <= k && 0 <= i < |bins[k]| ==>
          BinSum(lengths, bins[j]) + Len(lengths, bins[k][i]) > capacity)
    && (forall k, i :: n <= k < |bins| && 0 <= i < |bins[k]| ==> 2 * Len(lengths, bins[k][i]) <= capacity)
  }

  /**
   * The five phases in turn: no sequence is lost or packed twice, no bin overflows, there is one bin for each large
   * sequence, starting with one, and the leftovers packed last fit into no earlier bin. `p` is what each phase did.
   */
  method PackModifiedFirstFit(lengths: seq<nat>, capacity: int)
    returns (r: Result<seq<seq<nat>>, PackError>, ghost p: Phases)
    ensures r.Ok? <==> 0 < capacity && forall i :: 0 <= i < |lengths| ==> 0 < lengths[i] <= capacity
    ensures r.Ok? ==> AreClasses(p, lengths, capacity) && RunsPhases(p, r.value, lengths, capacity)
    ensures r.Ok? ==> IsPacking(r.value, lengths, capacity) && TightAfter(r.value, |p.large|, lengths, capacity)
    ensures r.Ok? ==> |p.large| == |Filter(lengths, IsLarge(capacity))|
  {
    p := Phases([], [], [], [], [], [], [], [], [], [], []);
    if capacity <= 0 {
      return Err(BadCapacity), p;
    }
    if !AllPositive(lengths) {
      return Err(BadLength), p;
    }
    var ok := ValidateSequenceLengths(lengths, capacity);
    if !ok {
      return Err(ExceedsCapacity), p;
    }
    var large, medium, small, tiny := ClassifyItems(lengths, capacity);
    var bins;
    bins, p := PackPools(large, medium, small, tiny, lengths, capacity);
    assert lengths[..|lengths|] == lengths;
    return Ok(bins), p;
  }

  /** Every bin begins with a large item. */
  ghost predicate StartLarge(bins: seq<seq<nat>>, lengths: seq<nat>, capacity: int) {
    forall k :: 0 <= k < |bins| ==> bins[k] != [] && 2 * Len(lengths, bins[k][0]) > capacity
  }

  /** Bins that only grow keep their first items. */
  ghost predicate Grown(bins: seq<seq<nat>>, bins': seq<seq<nat>>) {
    |bins'| == |bins| && forall k :: 0 <= k < |bins| ==> bins[k] <= bins'[k]
  }

  lemma GrownStartLarge(bins: seq<seq<nat>>, bins': seq<seq<nat>>, lengths: seq<nat>, capacity: int)
    requires StartLarge(bins, lengths, capacity) && Grown(bins, bins')
    ensures StartLarge(bins', lengths, capacity)
  {
    assert forall k :: 0 <= k < |bins| ==> bins'[k][0] == bins[k][0];
  }

  /** A class in its order, however sorted, keeps its items. */
  ghost predicate IsClass(pool: seq<nat>, lengths: seq<nat>, capacity: int, kind: SizeClass) {
    forall i: nat :: i in pool <==> i < |lengths| && ClassOf(Len(lengths, i), capacity) == kind
  }

  /** Sorting a class, longest or shortest first. */
  lemma SortClass(items: seq<nat>, lengths: seq<nat>, capacity: int, kind: SizeClass, descending: bool)
    requires OfClass(items, lengths, capacity, kind, |lengths|)
    ensures multiset(SortPool(items, lengths, descending)) == multiset(items)
    ensures IsClass(SortPool(items, lengths, descending), lengths, capacity, kind)
    ensures if descending then Falls(SortPool(items, lengths, descending), lengths)
            else Rises(SortPool(items, lengths, descending), lengths)
  {
    SortPoolPermutes(items, lengths, descending);
    SortPoolSorts(items, lengths);
    forall i: nat ensures i in SortPool(items, lengths, descending) <==> i in items {
      assert i in multiset(items) <==> i in multiset(SortPool(items, lengths, descending));
    }
  }

  ghost predicate NotLarge(pool: seq<nat>, lengths: seq<nat>, capacity: int) {
    forall y :: y in pool ==> 2 * Len(lengths, y) <= capacity
  }

  lemma FilledThenTight(filled: seq<seq<nat>>, more: seq<seq<nat>>, rest: seq<nat>, lengths: seq<nat>, capacity: int)
    requires StartLarge(filled, lengths, capacity) && Tight(more, lengths, capacity) && Holds(more, multiset(rest))
    requires forall k :: 0 <= k < |filled| ==> NoneFits(rest, lengths, Room(filled[k], lengths, capacity))
    requires NotLarge(rest, lengths, capacity)
    ensures TightAfter(filled + more, |filled|, lengths, capacity)
  {
    var all := filled + more;
    forall k, i | |filled| <= k < |all| && 0 <= i < |all[k]| ensures 2 * Len(lengths, all[k][i]) <= capacity {
      BinItem(more, k - |filled|, i);
      assert all[k][i] in multiset(rest);
    }
    forall j, k, i | 0 <= j < k < |all| && |filled| <= k && 0 <= i < |all[k]|
      ensures BinSum(lengths, all[j]) + Len(lengths, all[k][i]) > capacity
    {
      var bin := more[k - |filled|];
      assert all[k] == bin;
      if j < |filled| {
        BinItem(more, k - |filled|, i);
        assert bin[i] in multiset(rest);
        assert NoneFits(rest, lengths, Room(filled[j], lengths, capacity));
      } else {
        assert all[j] == more[j - |filled|];
      }
    }
  }

  lemma BinItem(bins: seq<seq<nat>>, k: nat, i: nat)
    requires k < |bins| && i < |bins[k]|
    ensures bins[k][i] in multiset(Flatten(bins))
  {
    FlattenSlice(bins, k);
    SliceAt(Flatten(bins), Offset(bins, k), |bins[k]|, i);
    assert Flatten(bins)[Offset(bins, k) + i] in multiset(Flatten(bins));
  }

  /** Phases 4 and 5, from the pool of everything that is left. */
  method FinishBins(bins: seq<seq<nat>>, pool: seq<nat>, lengths: seq<nat>, capacity: int)
    returns (all: seq<seq<nat>>, ghost filled: seq<seq<nat>>, ghost pools: seq<seq<nat>>, ghost leftovers: seq<nat>)
    requires 0 < capacity && AllFit(lengths, capacity) && Fits(bins, lengths, capacity)
    requires StartLarge(bins, lengths, capacity) && NotLarge(pool, lengths, capacity) && TiesInOrder(pool, lengths)
    ensures Fits(all, lengths, capacity) && Holds(all, Together(bins, pool))
    ensures Fills(bins, filled, pools, lengths, capacity) && Falls(pools[0], lengths) && multiset(pools[0]) == multiset(pool)
    ensures Falls(leftovers, lengths) && multiset(leftovers) == multiset(pools[|bins|])
    ensures all == filled + FirstFit(leftovers, lengths, capacity)
    ensures TightAfter(all, |bins|, lengths, capacity)
  {
    SortPoolPermutes(pool, lengths, true);
    SortPoolSorts(pool, lengths);
    assert forall y :: y in SortPool(pool, lengths, true) ==> y in multiset(pool);
    var full, rest;
    full, rest, pools := FillGreedily(bins, SortPool(pool, lengths, true), lengths, capacity);
    FilledGrown(bins, full, pools, lengths, capacity);
    GrownStartLarge(bins, full, lengths, capacity);
    var sorted := SortPool(rest, lengths, true);
    SortPoolPermutes(rest, lengths, true);
    SortPoolSorts(rest, lengths);
    LenWithin(lengths, capacity, sorted);
    var more := PackLeftovers(sorted, lengths, capacity);
    FirstFitIsTight(sorted, lengths, capacity);
    forall k | 0 <= k < |full| ensures NoneFits(rest, lengths, Room(full[k], lengths, capacity)) {
      NothingFitsLater(bins, full, pools, lengths, capacity, k);
    }
    FilledThenTight(full, more, rest, lengths, capacity);
    FlattenConcat(full, more);
    all, filled, leftovers := full + more, full, sorted;
  }

  lemma FilledGrown(bins: seq<seq<nat>>, bins': seq<seq<nat>>, pools: seq<seq<nat>>, lengths: seq<nat>, capacity: int)
    requires Fills(bins, bins', pools, lengths, capacity)
    ensures Grown(bins, bins')
  {
    forall k | 0 <= k < |bins| ensures bins[k] <= bins'[k] {
      FilledMeans(bins, bins', pools, lengths, capacity, k);
    }
  }

  /** What is left for the last phases is of the three smaller classes, each in its order. */
  lemma PoolsNotLarge(medium: seq<nat>, medium': seq<nat>, small: seq<nat>, small': seq<nat>, tiny: seq<nat>,
                      lengths: seq<nat>, capacity: int)
    requires IsClass(medium, lengths, capacity, Medium) && IsClass(small, lengths, capacity, Small)
    requires IsClass(tiny, lengths, capacity, Tiny) && LeftOf(medium', medium) && LeftOf(small', small)
    requires Falls(medium', lengths) && Rises(small', lengths) && Rises(tiny, lengths)
    ensures NotLarge(medium' + small' + tiny, lengths, capacity) && TiesInOrder(medium' + small' + tiny, lengths)
  {
    assert forall x :: x in medium' ==> ClassOf(Len(lengths, x), capacity) == Medium;
    assert forall x :: x in small' ==> ClassOf(Len(lengths, x), capacity) == Small;
    assert forall x :: x in tiny ==> ClassOf(Len(lengths, x), capacity) == Tiny;
    TiesJoin(medium', small', lengths, capacity, {Medium}, {Small});
    TiesJoin(medium' + small', tiny, lengths, capacity, {Medium, Small}, {Tiny});
  }

  lemma TiesJoin(a: seq<nat>, b: seq<nat>, lengths: seq<nat>, capacity: int, kinds: set<SizeClass>, others: set<SizeClass>)
    requires kinds !! others && TiesInOrder(a, lengths) && TiesInOrder(b, lengths)
    requires forall x :: x in a ==> ClassOf(Len(lengths, x), capacity) in kinds
    requires forall x :: x in b ==> ClassOf(Len(lengths, x), capacity) in others
    ensures TiesInOrder(a + b, lengths)
  {
    assert forall i :: 0 <= i < |a| ==> ClassOf(Len(lengths, a[i]), capacity) in kinds;
    assert forall j :: 0 <= j < |b| ==> ClassOf(Len(lengths, b[j]), capacity) in others;
  }

  /** Phases 2 and 3: bins for the large items, medium ones and pairs of small ones added. */
  method StartBins(large: seq<nat>, medium: seq<nat>, small: seq<nat>, lengths: seq<nat>, capacity: int)
    returns (bins: seq<seq<nat>>, medium': seq<nat>, small': seq<nat>, ghost withMedium: seq<seq<nat>>,
             ghost mediumPools: seq<seq<nat>>, ghost smallPools: seq<seq<nat>>)
    requires 0 < capacity && AllFit(lengths, capacity) && IsClass(large, lengths, capacity, Large)
    requires Falls(medium, lengths) && Rises(small, lengths)
    ensures Fits(bins, lengths, capacity) && StartLarge(bins, lengths, capacity) && |bins| == |large|
    ensures Together(bins, medium') + multiset(small') == multiset(large) + multiset(medium) + multiset(small)
    ensures AddsMedium(Singletons(large), withMedium, mediumPools, lengths, capacity)
    ensures mediumPools[0] == medium && mediumPools[|large|] == medium'
    ensures AddsPairs(withMedium, bins, smallPools, lengths, capacity)
    ensures smallPools[|large|] == small && smallPools[0] == small'
    ensures Falls(medium', lengths) && Rises(small', lengths) && LeftOf(medium', medium) && LeftOf(small', small)
  {
    LargeBins(large, lengths, capacity);
    var started := Singletons(large);
    var two;
    two, medium', mediumPools := AddMedium(started, medium, lengths, capacity);
    bins, small', smallPools := AddSmallPairs(two, small, lengths, capacity);
    withMedium := two;
    StayLarge(started, two, bins, mediumPools, smallPools, lengths, capacity);
    PhasesConserve(multiset(Flatten(started)), multiset(Flatten(two)), multiset(Flatten(bins)), multiset(medium),
                   multiset(medium'), multiset(small), multiset(small'));
  }

  /** What is in the bins after each phase and what is left of the pools add up. */
  lemma PhasesConserve(started: multiset<nat>, withMedium: multiset<nat>, withPairs: multiset<nat>, medium: multiset<nat>,
                       medium': multiset<nat>, small: multiset<nat>, small': multiset<nat>)
    requires withMedium + medium' == started + medium && withPairs + small' == withMedium + small
    ensures withPairs + medium' + small' == started + medium + small
  {
    assert withPairs + small' + medium' == withMedium + medium' + small;
  }

  lemma LargeBins(large: seq<nat>, lengths: seq<nat>, capacity: int)
    requires 0 < capacity && AllFit(lengths, capacity) && IsClass(large, lengths, capacity, Large)
    ensures Fits(Singletons(large), lengths, capacity) && Flatten(Singletons(large)) == large
    ensures StartLarge(Singletons(large), lengths, capacity)
  {
    LenWithin(lengths, capacity, large);
    SingletonsFit(large, lengths, capacity);
    var started := Singletons(large);
    forall k | 0 <= k < |started| ensures started[k] != [] && 2 * Len(lengths, started[k][0]) > capacity {
      assert large[k] in large;
    }
  }

  lemma StayLarge(started: seq<seq<nat>>, withMedium: seq<seq<nat>>, bins: seq<seq<nat>>, mediumPools: seq<seq<nat>>,
                  smallPools: seq<seq<nat>>, lengths: seq<nat>, capacity: int)
    requires AddsMedium(started, withMedium, mediumPools, lengths, capacity)
    requires AddsPairs(withMedium, bins, smallPools, lengths, capacity) && StartLarge(started, lengths, capacity)
    ensures StartLarge(bins, lengths, capacity)
  {
    MediumGrown(started, withMedium, mediumPools, lengths, capacity);
    GrownStartLarge(started, withMedium, lengths, capacity);
    PairsGrown(withMedium, bins, smallPools, lengths, capacity);
    GrownStartLarge(withMedium, bins, lengths, capacity);
  }

  lemma MediumGrown(bins: seq<seq<nat>>, bins': seq<seq<nat>>, pools: seq<seq<nat>>, lengths: seq<nat>, capacity: int)
    requires AddsMedium(bins, bins', pools, lengths, capacity)
    ensures Grown(bins, bins')
  {
    forall k | 0 <= k < |bins| ensures bins[k] <= bins'[k] {
      assert GotMedium(bins[k], bins'[k], pools[k], pools[k + 1], lengths, capacity);
    }
  }

  lemma PairsGrown(bins: seq<seq<nat>>, bins': seq<seq<nat>>, pools: seq<seq<nat>>, lengths: seq<nat>, capacity: int)
    requires AddsPairs(bins, bins', pools, lengths, capacity)
    ensures Grown(bins, bins')
  {
    forall k | 0 <= k < |bins| ensures bins[k] <= bins'[k] {
      assert PairOrNot(bins[k], bins'[k], pools[k + 1], pools[k], lengths, capacity);
    }
  }

  /** The classes by their bounds. */
  lemma ClassBounds(p: Phases, lengths: seq<nat>, capacity: int)
    requires IsClass(p.large, lengths, capacity, Large) && IsClass(p.medium, lengths, capacity, Medium)
    requires IsClass(p.small, lengths, capacity, Small) && IsClass(p.tiny, lengths, capacity, Tiny)
    requires Falls(p.large, lengths) && Falls(p.medium, lengths) && Rises(p.small, lengths) && Rises(p.tiny, lengths)
    ensures AreClasses(p, lengths, capacity)
  {
  }

  /** Phases 2 to 5 on the sorted classes. */
  method PackSorted(large: seq<nat>, medium: seq<nat>, small: seq<nat>, tiny: seq<nat>, lengths: seq<nat>, capacity: int)
    returns (bins: seq<seq<nat>>, ghost p: Phases)
    requires 0 < capacity && AllFit(lengths, capacity)
    requires IsClass(large, lengths, capacity, Large) && IsClass(medium, lengths, capacity, Medium)
    requires IsClass(small, lengths, capacity, Small) && IsClass(tiny, lengths, capacity, Tiny)
    requires Falls(medium, lengths) && Rises(small, lengths) && Rises(tiny, lengths)
    ensures Fits(bins, lengths, capacity)
    ensures Holds(bins, multiset(large) + multiset(medium) + multiset(small) + multiset(tiny))
    ensures TightAfter(bins, |large|, lengths, capacity) && RunsPhases(p, bins, lengths, capacity)
    ensures p.large == large && p.medium == medium && p.small == small && p.tiny == tiny
  {
    var started, medium', small', withMedium, mediumPools, smallPools := StartBins(large, medium, small, lengths, capacity);
    PoolsNotLarge(medium, medium', small, small', tiny, lengths, capacity);
    ghost var filled, fillPools, leftovers;
    bins, filled, fillPools, leftovers := FinishBins(started, medium' + small' + tiny, lengths, capacity);
    p := Phases(large, medium, small, tiny, withMedium, mediumPools, started, smallPools, filled, fillPools, leftovers);
    AllAddUp(multiset(Flatten(started)), multiset(medium'), multiset(small'), multiset(tiny), multiset(large),
             multiset(medium), multiset(small));
  }

  lemma AllAddUp(bins: multiset<nat>, medium': multiset<nat>, small': multiset<nat>, tiny: multiset<nat>,
                 large: multiset<nat>, medium: multiset<nat>, small: multiset<nat>)
    requires bins + medium' + small' == large + medium + small
    ensures bins + (medium' + small' + tiny) == large + medium + small + tiny
  {
    assert bins + (medium' + small' + tiny) == bins + medium' + small' + tiny;
  }

  method PackPools(large: seq<nat>, medium: seq<nat>, small: seq<nat>, tiny: seq<nat>, lengths: seq<nat>, capacity: int)
    returns (bins: seq<seq<nat>>, ghost p: Phases)
    requires 0 < capacity && AllFit(lengths, capacity) && OfClass(large, lengths, capacity, Large, |lengths|)
    requires OfClass(medium, lengths, capacity, Medium, |lengths|) && OfClass(small, lengths, capacity, Small, |lengths|)
    requires OfClass(tiny, lengths, capacity, Tiny, |lengths|)
    ensures Fits(bins, lengths, capacity)
    ensures Holds(bins, multiset(large) + multiset(medium) + multiset(small) + multiset(tiny))
    ensures TightAfter(bins, |large|, lengths, capacity) && |p.large| == |large|
    ensures AreClasses(p, lengths, capacity) && RunsPhases(p, bins, lengths, capacity)
  {
    SortClass(large, lengths, capacity, Large, true);
    SortClass(medium, lengths, capacity, Medium, true);
    SortClass(small, lengths, capacity, Small, false);
    SortClass(tiny, lengths, capacity, Tiny, false);
    bins, p := PackSorted(SortPool(large, lengths, true), SortPool(medium, lengths, true), SortPool(small, lengths, false),
                          SortPool(tiny, lengths, false), lengths, capacity);
    ClassBounds(p, lengths, capacity);
  }

  // ---- The packer used for sharding ----

  /** The algorithms; the shuffled one is given the order its shuffle produced. */
  datatype Algorithm =
    | Concatenative
    | FirstFitDecreasing
    | FirstFitShuffle(order: seq<nat>)
    | ModifiedFirstFitDecreasing

  /** What the algorithm demands of its input. */
  ghost predicate Packable(algorithm: Algorithm, lengths: seq<nat>, capacity: int) {
    && (forall i :: 0 <= i < |lengths| ==> lengths[i] <= capacity)
    && (algorithm.ModifiedFirstFitDecreasing? ==> 0 < capacity && forall i :: 0 <= i < |lengths| ==> 0 < lengths[i])
  }

  /** What the algorithm makes of its input, before the number of bins is adjusted. */
  ghost predicate IsOutput(algorithm: Algorithm, bins: seq<seq<nat>>, lengths: seq<nat>, capacity: int) {
    match algorithm
    case Concatenative => Flatten(bins) == Range(0, |lengths|) && ClosedWhenFull(bins, lengths, capacity)
    case FirstFitDecreasing =>
      exists order :: IsPermutation(order, |lengths|) && LongestFirst(order, lengths) && bins == FirstFit(order, lengths, capacity)
    case FirstFitShuffle(order) => bins == FirstFit(order, lengths, capacity)
    case ModifiedFirstFitDecreasing => exists p :: AreClasses(p, lengths, capacity) && RunsPhases(p, bins, lengths, capacity)
  }

  /** The algorithm's bins, adjusted to a multiple of `shards` of at least `shards`. */
  ghost predicate PackedBy(algorithm: Algorithm, packed: seq<seq<nat>>, lengths: seq<nat>, capacity: int, shards: nat)
    requires 0 < shards
  {
    exists bins :: IsOutput(algorithm, bins, lengths, capacity) && AdjustedTo(bins, packed, shards)
  }

  /** As many bins as the least multiple asks for, with the sequences for new bins taken in the order of adjustment. */
  ghost predicate AdjustedTo(bins: seq<seq<nat>>, packed: seq<seq<nat>>, shards: nat)
    requires 0 < shards
  {
    && IsLeastMultiple(|packed|, Max(|bins|, shards), shards)
    && exists order :: AdjustedInOrder(bins, packed, order)
  }

  lemma {:induction false} BinsAtMostItems(bins: seq<seq<nat>>)
    requires forall k :: 0 <= k < |bins| ==> bins[k] != []
    ensures |bins| <= |Flatten(bins)|
  {
    if bins != [] {
      BinsAtMostItems(bins[..|bins| - 1]);
    }
  }

  lemma PackingCounts(bins: seq<seq<nat>>, lengths: seq<nat>, capacity: int)
    requires IsPacking(bins, lengths, capacity)
    ensures |bins| <= |Flatten(bins)| == |lengths|
  {
    BinsAtMostItems(bins);
    PermutationMeans(Flatten(bins), |lengths|);
  }

  /** The algorithm itself, before the number of bins is adjusted. */
  method PackUnadjusted(algorithm: Algorithm, lengths: seq<nat>, capacity: int) returns (r: Result<seq<seq<nat>>, PackError>)
    requires algorithm.FirstFitShuffle? ==> IsPermutation(algorithm.order, |lengths|)
    ensures r.Ok? <==> Packable(algorithm, lengths, capacity)
    ensures r.Ok? ==> IsPacking(r.value, lengths, capacity) && IsOutput(algorithm, r.value, lengths, capacity)
  {
    ghost var phases: Phases;
    match algorithm {
      case Concatenative => r := PackConcatenative(lengths, capacity);
      case FirstFitDecreasing => r := PackFirstFitDecreasing(lengths, capacity);
      case FirstFitShuffle(order) => r := PackFirstFit(lengths, order, capacity);
      case ModifiedFirstFitDecreasing => r, phases := PackModifiedFirstFit(lengths, capacity);
    }
  }

  lemma TargetIsLeast(count: nat, shards: nat)
    requires 0 < shards
    ensures IsLeastMultiple(TargetBinCount(count, shards, shards), Max(count, shards), shards)
  {
    var target := TargetBinCount(count, shards, shards);
    TargetIsLeastMultiple(count, shards, shards, target);
    forall y: nat | IsMultiple(y, shards) && Max(count, shards) <= y ensures target <= y {
      TargetIsLeastMultiple(count, shards, shards, y);
    }
  }

  /**
   * Packing and then adjusting the bin count to a positive multiple of `shards`: whatever the algorithm, a returned
   * packing covers every sequence once within capacity, with no empty bin. When the sequences can be shared out evenly
   * there are always enough of them, so that packing fails only on input that the algorithm itself refuses.
   */
  method Pack(algorithm: Algorithm, lengths: seq<nat>, capacity: int, shards: nat)
    returns (r: Result<seq<seq<nat>>, PackError>)
    requires algorithm.FirstFitShuffle? ==> IsPermutation(algorithm.order, |lengths|)
    ensures r.Ok? ==> 0 < shards && Packable(algorithm, lengths, capacity) && IsPacking(r.value, lengths, capacity)
    ensures r.Ok? ==> |r.value| % shards == 0 && |r.value| >= shards
    ensures r.Ok? ==> PackedBy(algorithm, r.value, lengths, capacity, shards)
    ensures 0 < shards <= |lengths| && |lengths| % shards == 0 ==> (r.Ok? <==> Packable(algorithm, lengths, capacity))
  {
    if shards == 0 {
      return Err(BadMultiple);
    }
    var packed := PackUnadjusted(algorithm, lengths, capacity);
    if packed.Err? {
      return packed;
    }
    PackingCounts(packed.value, lengths, capacity);
    TargetIsLeastMultiple(|packed.value|, shards, shards, |lengths|);
    TargetIsLeast(|packed.value|, shards);
    r := AdjustBinCount(packed.value, lengths, capacity, shards, shards);
    assert r.Ok? ==> AdjustedTo(packed.value, r.value, shards);
  }
}
