/**
 * Dynamic sampling: generated batches are filtered to the samples whose standard deviation is not zero and collected
 * in a cache until a training step has enough of them. The batch is columnar, as in the program; every column but
 * `totalReward` stays aligned with the samples. Before that a monitor stops the run on batches without a signal.
 */
module DynamicSampling {
  import opened Seqs
  import opened Lists
  import GroupStatistics

  /** A generated batch with the statistics just computed for it. */
  datatype Generated<P> = Generated(samples: seq<P>, std: seq<real>, baseline: seq<real>, totalReward: seq<real>,
                                    lossMultiplier: Option<seq<real>>)

  /** The batch after filtering: the unfiltered rewards are kept beside the filtered ones. */
  datatype Batch<P> = Batch(samples: seq<P>, std: seq<real>, baseline: seq<real>, filteredReward: seq<real>,
                            totalReward: seq<real>)

  /** One sample with everything that belongs to it. */
  datatype Row<P> = Row(sample: P, std: real, baseline: real, reward: real)

  datatype SamplingError = NonPositiveLimit | TooManyBatches(limit: int)

  datatype Sampled<P> = Sampled(batch: Batch<P>, complete: bool, cache: Option<Batch<P>>, discarded: nat)

  // ---- Rows of columnar batches ----

  ghost predicate IsGenerated<P>(g: Generated<P>) { |g.samples| == |g.std| == |g.baseline| == |g.totalReward| }

  ghost predicate Aligned<P>(b: Batch<P>) { |b.samples| == |b.std| == |b.baseline| == |b.filteredReward| }

  function Zip<P>(samples: seq<P>, std: seq<real>, baseline: seq<real>, reward: seq<real>): seq<Row<P>>
    requires |samples| == |std| == |baseline| == |reward|
  {
    seq(|samples|, i requires 0 <= i < |samples| => Row(samples[i], std[i], baseline[i], reward[i]))
  }

  function RowsOf<P>(b: Batch<P>): (r: seq<Row<P>>)
    requires |b.samples| == |b.std| == |b.baseline| == |b.filteredReward|
    ensures |r| == |b.samples|
  {
    Zip(b.samples, b.std, b.baseline, b.filteredReward)
  }

  function HasSpread<P>(): Row<P> -> bool { (r: Row<P>) => r.std != 0.0 }

  /** What filtering must keep of a generated batch. */
  function Kept<P>(g: Generated<P>): seq<Row<P>>
    requires |g.samples| == |g.std| == |g.baseline| == |g.totalReward|
  {
    Filter(Zip(g.samples, g.std, g.baseline, g.totalReward), HasSpread())
  }

  ghost predicate AreGenerated<P>(gs: seq<Generated<P>>) { forall i :: 0 <= i < |gs| ==> IsGenerated(gs[i]) }

  /** All kept samples of a run of batches, in order. */
  ghost function KeptAll<P>(gs: seq<Generated<P>>): seq<Row<P>>
    requires AreGenerated(gs)
  {
    if gs == [] then [] else KeptAll(gs[..|gs| - 1]) + Kept(gs[|gs| - 1])
  }

  /** The unfiltered rewards of the batches that contributed. */
  ghost function RewardsAll<P>(gs: seq<Generated<P>>): seq<real>
    requires AreGenerated(gs)
  {
    if gs == [] then []
    else
      var g := gs[|gs| - 1];
      RewardsAll(gs[..|gs| - 1]) + (if Kept(g) == [] then [] else g.totalReward)
  }

  /** Selecting the kept positions in every column keeps the rows together. */
  lemma {:induction false} SelectKeepsRows<P>(g: Generated<P>)
    requires IsGenerated(g)
    ensures var keep := IndicesWhere(g.std, s => s != 0.0);
      Zip(Select(g.samples, keep), Select(g.std, keep), Select(g.baseline, keep), Select(g.totalReward, keep)) == Kept(g)
    decreases |g.samples|
  {
    if g.samples != [] {
      var n := |g.samples| - 1;
      var h := Generated(g.samples[..n], g.std[..n], g.baseline[..n], g.totalReward[..n], None);
      SelectKeepsRows(h);
      assert Zip(g.samples, g.std, g.baseline, g.totalReward)[..n] == Zip(h.samples, h.std, h.baseline, h.totalReward);
      assert IndicesWhere(g.std, s => s != 0.0)
          == IndicesWhere(h.std, s => s != 0.0) + (if g.std[n] != 0.0 then [n] else []);
    }
  }

  // ---- The monitor ----

  /** The mean of the loss multipliers is above one half. Without the column it is one; of no entries it is not a number. */
  predicate MostlyUnmasked(lossMultiplier: Option<seq<real>>) {
    lossMultiplier.Some? ==>
      lossMultiplier.value != [] && 2.0 * SumReals(lossMultiplier.value) > |lossMultiplier.value| as real
  }

  /** The whole groups of `size` rewards, from the front. */
  function WholeGroups(rewards: seq<real>, size: nat): seq<seq<real>>
    requires 0 < size
  {
    if |rewards| < size then [] else [rewards[..size]] + WholeGroups(rewards[size..], size)
  }

  /** The groups that the monitor looks at: with too few rewards for a whole group, one short group. */
  function MonitorGroups(rewards: seq<real>, size: nat): (r: seq<seq<real>>)
    ensures r != []
  {
    if size == 0 then [[]] else if |rewards| < size then [rewards] else WholeGroups(rewards, size)
  }

  /** The whole groups are the runs of `size` rewards, and less than one group is left over. */
  lemma {:induction false} WholeGroupsAreRuns(rewards: seq<real>, size: nat)
    requires 0 < size
    ensures var groups := WholeGroups(rewards, size);
      && |groups| * size <= |rewards| < |groups| * size + size
      && forall k :: 0 <= k < |groups| ==> IsRun(groups[k], rewards, k, size)
  {
    var groups := WholeGroups(rewards, size);
    if |rewards| >= size {
      var rest := WholeGroups(rewards[size..], size);
      WholeGroupsAreRuns(rewards[size..], size);
      assert |groups| * size == |rest| * size + size;
      forall k | 0 <= k < |groups| ensures IsRun(groups[k], rewards, k, size) {
        if k > 0 {
          assert IsRun(rest[k - 1], rewards[size..], k - 1, size);
          NextRun(rest[k - 1], rewards, k, size);
        }
      }
    }
  }

  /** Run `k` of the rewards. */
  ghost predicate IsRun(group: seq<real>, rewards: seq<real>, k: nat, size: nat) {
    0 <= k * size && k * size + size <= |rewards| && group == rewards[k * size..k * size + size]
  }

  lemma NextRun(group: seq<real>, rewards: seq<real>, k: nat, size: nat)
    requires 0 < k && size <= |rewards| && IsRun(group, rewards[size..], k - 1, size)
    ensures IsRun(group, rewards, k, size)
  {
    assert k * size == (k - 1) * size + size;
  }

  /** With at least one whole group the monitor looks at all runs of `size` rewards, otherwise at all rewards together. */
  lemma MonitorLooksAtRuns(rewards: seq<real>, size: nat)
    requires 0 < size
    ensures var groups := MonitorGroups(rewards, size);
      if |rewards| < size then groups == [rewards]
      else
        && |groups| * size <= |rewards| < |groups| * size + size
        && forall k :: 0 <= k < |groups| ==> IsRun(groups[k], rewards, k, size)
  {
    WholeGroupsAreRuns(rewards, size);
  }

  predicate AllZero(rewards: seq<real>) { forall i :: 0 <= i < |rewards| ==> rewards[i] == 0.0 }

  /** At least 95% of the prompt groups have no reward at all. */
  predicate Collapsed(rewards: seq<real>, size: nat) {
    var groups := MonitorGroups(rewards, size);
    20 * |Filter(groups, AllZero)| >= 19 * |groups|
  }

  /** The monitor's assertions fail on this batch. */
  predicate Stops<P>(g: Generated<P>, size: nat) { !MostlyUnmasked(g.lossMultiplier) || Collapsed(g.totalReward, size) }

  /** Which batches a run accepts: all of them when the monitor is switched off. */
  function Monitor<P>(monitored: bool, size: nat): Generated<P> -> bool {
    (g: Generated<P>) => monitored ==> !Stops(g, size)
  }

  /** How many of the groups have no reward but zero. */
  function ZeroGroups(groups: seq<seq<real>>): nat {
    if groups == [] then 0
    else
      var n := |groups| - 1;
      ZeroGroups(groups[..n]) + (if forall i :: 0 <= i < |groups[n]| ==> groups[n][i] == 0.0 then 1 else 0)
  }

  lemma {:induction false} ZeroGroupsAreCounted(groups: seq<seq<real>>)
    ensures |Filter(groups, AllZero)| == ZeroGroups(groups)
  {
    if groups != [] {
      ZeroGroupsAreCounted(groups[..|groups| - 1]);
    }
  }

  /**
   * The monitor stops a run exactly on a batch whose loss multipliers have a mean of at most one half, or of which at
   * least 95% of the groups have no reward but zero; switched off, never.
   */
  lemma MonitorStopsIff<P>(g: Generated<P>, size: nat, monitored: bool)
    ensures var groups, multipliers := MonitorGroups(g.totalReward, size), g.lossMultiplier;
      !Monitor(monitored, size)(g) <==>
        monitored &&
        ((multipliers.Some? && (multipliers.value == [] || GroupStatistics.Mean(multipliers.value) <= 0.5))
         || GroupStatistics.Ratio(ZeroGroups(groups) as real, |groups|) >= 0.95)
  {
    var groups := MonitorGroups(g.totalReward, size);
    ZeroGroupsAreCounted(groups);
    MonitorComparesMeans(if g.lossMultiplier.Some? then g.lossMultiplier.value else [], g.totalReward, size);
  }

  /** The two tests as the program writes them, on a mean and on a fraction. */
  lemma MonitorComparesMeans(multipliers: seq<real>, rewards: seq<real>, size: nat)
    ensures MostlyUnmasked(Some(multipliers)) <==> multipliers != [] && GroupStatistics.Mean(multipliers) > 0.5
    ensures var groups := MonitorGroups(rewards, size);
      Collapsed(rewards, size) <==> !(GroupStatistics.Ratio(|Filter(groups, AllZero)| as real, |groups|) < 0.95)
  {
    var groups := MonitorGroups(rewards, size);
    RatioBelow(|Filter(groups, AllZero)| as real, |groups|, 0.95);
    if multipliers != [] {
      RatioBelow(SumReals(multipliers), |multipliers|, 0.5);
    }
  }

  lemma RatioBelow(x: real, n: nat, bound: real)
    requires 0 < n
    ensures GroupStatistics.Ratio(x, n) < bound <==> x < bound * n as real
    ensures GroupStatistics.Ratio(x, n) > bound <==> x > bound * n as real
  {
    var r := GroupStatistics.Ratio(x, n);
    assert r * n as real == x;
    if r < bound {
      assert (bound - r) * n as real > 0.0;
    } else if r > bound {
      assert (r - bound) * n as real > 0.0;
    }
  }

  lemma {:induction false} WholeGroupsOfZero(rewards: seq<real>, size: nat)
    requires 0 < size && AllZero(rewards)
    ensures forall k :: 0 <= k < |WholeGroups(rewards, size)| ==> AllZero(WholeGroups(rewards, size)[k])
  {
    if |rewards| >= size {
      WholeGroupsOfZero(rewards[size..], size);
    }
  }

  /** Below twenty groups, 95% of them are all of them: then the monitor finds a collapse only if every reward is zero. */
  lemma FewGroupsCollapseIff(rewards: seq<real>, size: nat)
    ensures (forall i :: 0 <= i < |rewards| ==> rewards[i] == 0.0) ==> Collapsed(rewards, size)
    ensures var groups := MonitorGroups(rewards, size);
      |groups| < 20 ==>
        (Collapsed(rewards, size) <==> forall k, i :: 0 <= k < |groups| && 0 <= i < |groups[k]| ==> groups[k][i] == 0.0)
  {
    var groups := MonitorGroups(rewards, size);
    FilterAllIff(groups, AllZero);
    if 0 < size && AllZero(rewards) {
      WholeGroupsOfZero(rewards, size);
    }
    assert (forall k :: 0 <= k < |groups| ==> AllZero(groups[k]))
      <==> forall k, i :: 0 <= k < |groups| && 0 <= i < |groups[k]| ==> groups[k][i] == 0.0;
  }

  /**
   * A batch whose rewards are all zero stops a monitored run, although it has no spread and dynamic sampling would
   * have dropped it as a whole.
   */
  lemma ZeroRewardsStop<P>(g: Generated<P>, size: nat)
    requires forall i :: 0 <= i < |g.totalReward| ==> g.totalReward[i] == 0.0
    ensures Stops(g, size) && !Monitor(true, size)(g)
  {
    FewGroupsCollapseIff(g.totalReward, size);
  }

  // ---- One call ----

  ghost function CachedRows<P>(cache: Option<Batch<P>>): seq<Row<P>>
    requires cache.Some? ==> Aligned(cache.value)
  {
    if cache.Some? then RowsOf(cache.value) else []
  }

  ghost function CachedRewards<P>(cache: Option<Batch<P>>): seq<real> {
    if cache.Some? then cache.value.totalReward else []
  }

  /** `from_batches` for two batches: column by column. */
  function Concat<P>(a: Batch<P>, b: Batch<P>): Batch<P> {
    Batch(a.samples + b.samples, a.std + b.std, a.baseline + b.baseline, a.filteredReward + b.filteredReward,
          a.totalReward + b.totalReward)
  }

  /** The first `n` of every column. */
  function Slice<P>(b: Batch<P>, n: nat): Batch<P> {
    Batch(b.samples[..Min(n, |b.samples|)], b.std[..Min(n, |b.std|)], b.baseline[..Min(n, |b.baseline|)],
          b.filteredReward[..Min(n, |b.filteredReward|)], b.totalReward[..Min(n, |b.totalReward|)])
  }

  /** `select_indices` with the non-zero positions; the unfiltered rewards are put back as `total_reward`. */
  method FilterBatch<P>(g: Generated<P>) returns (filtered: Batch<P>)
    requires IsGenerated(g)
    ensures Aligned(filtered) && RowsOf(filtered) == Kept(g) && filtered.totalReward == g.totalReward
  {
    var keep := IndicesWhere(g.std, s => s != 0.0);
    filtered := Batch(Select(g.samples, keep), Select(g.std, keep), Select(g.baseline, keep), Select(g.totalReward, keep),
                      g.totalReward);
    SelectKeepsRows(g);
  }

  /** The rows that the call counts: a batch without spread is not merged with the cache. */
  ghost function Collected<P>(cache: Option<Batch<P>>, g: Generated<P>): seq<Row<P>>
    requires IsGenerated(g) && (cache.Some? ==> Aligned(cache.value))
  {
    if Kept(g) == [] then [] else CachedRows(cache) + Kept(g)
  }

  ghost function CollectedRewards<P>(cache: Option<Batch<P>>, g: Generated<P>): seq<real>
    requires IsGenerated(g)
  {
    if Kept(g) == [] then g.totalReward else CachedRewards(cache) + g.totalReward
  }

  /** A complete result holds the first `required` rows, and the first `required` unfiltered rewards beside them. */
  ghost predicate IsComplete<P>(s: Sampled<P>, cache: Option<Batch<P>>, g: Generated<P>, required: nat)
    requires IsGenerated(g) && (cache.Some? ==> Aligned(cache.value))
  {
    var rows, rewards := Collected(cache, g), CollectedRewards(cache, g);
    && required <= |rows| && s.discarded == |rows| - required
    && Aligned(s.batch) && RowsOf(s.batch) == rows[..required]
    && s.batch.totalReward == rewards[..Min(required, |rewards|)]
  }

  /** The cache gains what the batch kept. */
  ghost predicate CacheGrows<P>(newCache: Option<Batch<P>>, cache: Option<Batch<P>>, g: Generated<P>)
    requires IsGenerated(g) && (cache.Some? ==> Aligned(cache.value))
  {
    && (newCache.Some? ==> Aligned(newCache.value))
    && CachedRows(newCache) == CachedRows(cache) + Kept(g)
    && CachedRewards(newCache) == CachedRewards(cache) + (if Kept(g) == [] then [] else g.totalReward)
  }

  lemma ConcatRows<P>(a: Batch<P>, b: Batch<P>)
    requires Aligned(a) && Aligned(b)
    ensures Aligned(Concat(a, b)) && RowsOf(Concat(a, b)) == RowsOf(a) + RowsOf(b)
  {
  }

  lemma SliceRows<P>(b: Batch<P>, n: nat)
    requires Aligned(b) && n <= |b.samples|
    ensures Aligned(Slice(b, n)) && RowsOf(Slice(b, n)) == RowsOf(b)[..n]
  {
  }

  /** The filtered batch joins what is cached, unless nothing is left of it. */
  method MergeWithCache<P>(filtered: Batch<P>, cache: Option<Batch<P>>, ghost g: Generated<P>)
    returns (merged: Batch<P>, newCache: Option<Batch<P>>)
    requires IsGenerated(g) && (cache.Some? ==> Aligned(cache.value))
    requires Aligned(filtered) && RowsOf(filtered) == Kept(g) && filtered.totalReward == g.totalReward
    ensures CacheGrows(newCache, cache, g)
    ensures Aligned(merged) && RowsOf(merged) == Collected(cache, g) && merged.totalReward == CollectedRewards(cache, g)
  {
    if |filtered.samples| == 0 {
      assert CachedRows(cache) + Kept(g) == CachedRows(cache);
      assert CachedRewards(cache) + [] == CachedRewards(cache);
      return filtered, cache;
    }
    if cache.Some? {
      ConcatRows(cache.value, filtered);
      merged := Concat(cache.value, filtered);
    } else {
      assert [] + RowsOf(filtered) == RowsOf(filtered);
      assert [] + filtered.totalReward == filtered.totalReward;
      merged := filtered;
    }
    newCache := Some(merged);
  }

  /** The outcome of a call: complete exactly when the collected samples reach `required`, else bounded by the limit. */
  ghost predicate SamplesAs<P>(r: Result<Sampled<P>, SamplingError>, g: Generated<P>, numGenBatches: nat, required: nat,
                               maxGenBatches: int, cache: Option<Batch<P>>)
    requires IsGenerated(g) && (cache.Some? ==> Aligned(cache.value))
  {
    && (r.Ok? ==> CacheGrows(r.value.cache, cache, g))
    && (r.Ok? && r.value.complete <==> required <= |Collected(cache, g)|)
    && (r.Ok? && r.value.complete ==> IsComplete(r.value, cache, g, required))
    && (r.Ok? && !r.value.complete ==> 0 < maxGenBatches && numGenBatches <= maxGenBatches)
    && (r.Err? ==> r.error == NonPositiveLimit || r.error == TooManyBatches(maxGenBatches))
    && (r == Err(NonPositiveLimit) <==> |Collected(cache, g)| < required && maxGenBatches <= 0)
    && (r == Err(TooManyBatches(maxGenBatches)) <==> |Collected(cache, g)| < required && 0 < maxGenBatches < numGenBatches)
  }

  /**
   * `dynamic_sampling`, with dynamic sampling in use: filters, merges with the cache, and either completes the step or
   * asks for another batch while the limit allows.
   */
  method Sample<P>(g: Generated<P>, numGenBatches: nat, required: nat, maxGenBatches: int, cache: Option<Batch<P>>)
    returns (r: Result<Sampled<P>, SamplingError>)
    requires IsGenerated(g) && (cache.Some? ==> Aligned(cache.value))
    ensures SamplesAs(r, g, numGenBatches, required, maxGenBatches, cache)
  {
    var filtered := FilterBatch(g);
    var merged, newCache := MergeWithCache(filtered, cache, g);
    if |merged.samples| < required {
      if maxGenBatches <= 0 {
        return Err(NonPositiveLimit);
      }
      if numGenBatches <= maxGenBatches {
        r := Ok(Sampled(merged, false, newCache, 0));
      } else {
        r := Err(TooManyBatches(maxGenBatches));
      }
    } else {
      SliceRows(merged, required);
      r := Ok(Sampled(Slice(merged, required), true, newCache, |merged.samples| - required));
    }
  }

  // ---- The training loop ----

  lemma KeptAllSnoc<P>(gs: seq<Generated<P>>, g: Generated<P>)
    requires AreGenerated(gs) && IsGenerated(g)
    ensures KeptAll(gs + [g]) == KeptAll(gs) + Kept(g)
    ensures RewardsAll(gs + [g]) == RewardsAll(gs) + (if Kept(g) == [] then [] else g.totalReward)
  {
    assert (gs + [g])[..|gs|] == gs;
  }

  /** The cache holds what the batches of the unfinished step kept. */
  ghost predicate Caches<P>(cache: Option<Batch<P>>, pending: seq<Generated<P>>) {
    && (cache.Some? ==> Aligned(cache.value))
    && AreGenerated(pending)
    && CachedRows(cache) == KeptAll(pending)
    && CachedRewards(cache) == RewardsAll(pending)
  }

  /** `pending` is not enough for a step, and its last batch was still within the limit. */
  ghost predicate Unfinished<P>(pending: seq<Generated<P>>, required: nat, maxGenBatches: int)
    requires AreGenerated(pending)
  {
    pending != [] ==> |KeptAll(pending)| < required && |pending| <= maxGenBatches
  }

  /** A step trained on the first `required` kept samples of these batches, beside their first unfiltered rewards. */
  ghost predicate TrainedOn<P>(b: Batch<P>, gs: seq<Generated<P>>, required: nat)
    requires AreGenerated(gs)
  {
    && required <= |KeptAll(gs)| && required <= |RewardsAll(gs)|
    && Aligned(b) && RowsOf(b) == KeptAll(gs)[..required]
    && b.totalReward == RewardsAll(gs)[..required]
  }

  datatype StepResult<P> = Collecting | Trained(batch: Batch<P>) | Failed(error: SamplingError) | Stopped

  /**
   * What comes of one more batch. The monitor decides first, on the batch alone. If it lets the batch pass, the step
   * trains exactly when the batches since the last step have kept enough samples, then on the first of them in order;
   * it fails exactly when they have not and the limit is used up.
   */
  ghost predicate Outcome<P>(r: StepResult<P>, pending: seq<Generated<P>>, g: Generated<P>, required: nat,
                             maxGenBatches: int, passes: bool)
    requires AreGenerated(pending) && IsGenerated(g)
  {
    assert AreGenerated(pending + [g]);
    var enough := required <= |KeptAll(pending + [g])|;
    && (r.Stopped? <==> !passes)
    && (r.Trained? <==> passes && enough)
    && (r.Trained? ==> TrainedOn(r.batch, pending + [g], required))
    && (r.Failed? <==> passes && !enough && |pending| >= Max(maxGenBatches, 0))
  }

  /** The part of the trainer that dynamic sampling and the monitor before it touch. */
  class GrpoTrainer<P> {
    const required: nat
    const maxGenBatches: int
    /** Which batches the monitor lets pass. */
    const passes: Generated<P> -> bool
    var batchCache: Option<Batch<P>>
    var numGenBatches: nat
    var totalSteps: nat
    /** The batches generated since the last training step. */
    ghost var pending: seq<Generated<P>>

    ghost predicate Valid()
      reads this`batchCache, this`numGenBatches, this`pending
    {
      && Caches(batchCache, pending)
      && |pending| == numGenBatches
      && Unfinished(pending, required, maxGenBatches)
    }

    constructor (numPromptsPerStep: nat, numGenerationsPerPrompt: nat, maxGenBatches: int, monitored: bool)
      ensures Valid() && pending == [] && totalSteps == 0
      ensures required == numPromptsPerStep * numGenerationsPerPrompt && this.maxGenBatches == maxGenBatches
      ensures passes == Monitor(monitored, numGenerationsPerPrompt)
    {
      required := numPromptsPerStep * numGenerationsPerPrompt;
      this.maxGenBatches := maxGenBatches;
      passes := Monitor(monitored, numGenerationsPerPrompt);
      batchCache := None;
      numGenBatches := 0;
      totalSteps := 0;
      pending := [];
    }

    /** At the start of an epoch and after a training step whatever was cached is dropped. */
    method ResetSampling()
      modifies this`batchCache, this`numGenBatches, this`pending
      ensures Valid() && pending == [] && batchCache == None && numGenBatches == 0
    {
      batchCache := None;
      numGenBatches := 0;
      pending := [];
    }

    /** The loop body for one generated batch. */
    method ProcessBatch(g: Generated<P>) returns (r: StepResult<P>)
      requires Valid() && IsGenerated(g)
      modifies this
      ensures Outcome(r, old(pending), g, required, maxGenBatches, passes(g))
      ensures r.Trained? ==> Valid() && pending == []
      ensures r.Collecting? ==> Valid() && pending == old(pending) + [g]
      ensures r.Stopped? || r.Failed? ==> unchanged(`batchCache) && numGenBatches == old(numGenBatches) + 1
      ensures totalSteps == old(totalSteps) + (if r.Trained? then 1 else 0)
    {
      numGenBatches := numGenBatches + 1;
      if !passes(g) {
        return Stopped;
      }
      r := CollectBatch(g);
    }

    /** The loop body after the monitor: dynamic sampling, and the training step if it is complete. */
    method CollectBatch(g: Generated<P>) returns (r: StepResult<P>)
      requires Caches(batchCache, pending) && |pending| + 1 == numGenBatches
      requires Unfinished(pending, required, maxGenBatches) && IsGenerated(g)
      modifies this
      ensures Outcome(r, old(pending), g, required, maxGenBatches, true)
      ensures r.Trained? ==> Valid() && pending == []
      ensures r.Collecting? ==> Valid() && pending == old(pending) + [g]
      ensures r.Failed? ==> unchanged(`batchCache) && unchanged(`numGenBatches)
      ensures totalSteps == old(totalSteps) + (if r.Trained? then 1 else 0)
    {
      var newCache: Option<Batch<P>>;
      r, newCache := SampleForStep(batchCache, pending, g, numGenBatches, required, maxGenBatches);
      if r.Collecting? {
        batchCache := newCache;
        pending := pending + [g];
      } else if r.Trained? {
        ResetSampling();
        totalSteps := totalSteps + 1;
      }
    }
  }

  /** Not merging a batch without spread makes no difference: what was cached is not enough on its own. */
  lemma NothingYet<P>(cache: Option<Batch<P>>, pending: seq<Generated<P>>, g: Generated<P>, required: nat, maxGenBatches: int)
    requires Caches(cache, pending) && IsGenerated(g) && Unfinished(pending, required, maxGenBatches)
    ensures AreGenerated(pending + [g])
    ensures required <= |Collected(cache, g)| <==> required <= |KeptAll(pending + [g])|
    ensures required <= |Collected(cache, g)| ==> Collected(cache, g) == KeptAll(pending + [g])
    ensures required <= |Collected(cache, g)| && 0 < required ==> CollectedRewards(cache, g) == RewardsAll(pending + [g])
  {
    KeptAllSnoc(pending, g);
    if Kept(g) == [] {
      assert KeptAll(pending + [g]) == KeptAll(pending);
      assert pending == [] ==> KeptAll(pending) == [];
    } else {
      assert Collected(cache, g) == KeptAll(pending + [g]);
    }
  }

  /** A complete step has the first kept samples of all pending batches. */
  lemma CompleteMeans<P>(s: Sampled<P>, cache: Option<Batch<P>>, pending: seq<Generated<P>>, g: Generated<P>, required: nat,
                         maxGenBatches: int)
    requires Caches(cache, pending) && IsGenerated(g) && Unfinished(pending, required, maxGenBatches)
    requires IsComplete(s, cache, g, required)
    ensures AreGenerated(pending + [g]) && TrainedOn(s.batch, pending + [g], required)
  {
    NothingYet(cache, pending, g, required, maxGenBatches);
    TotalRewardAlignedIff(pending + [g]);
  }

  lemma CacheStaysRight<P>(newCache: Option<Batch<P>>, cache: Option<Batch<P>>, pending: seq<Generated<P>>, g: Generated<P>)
    requires Caches(cache, pending) && IsGenerated(g) && CacheGrows(newCache, cache, g)
    ensures Caches(newCache, pending + [g])
  {
    KeptAllSnoc(pending, g);
  }

  /** What a call that asks for more, completes or fails means for the batches of the unfinished step. */
  lemma CallCollects<P>(s: Sampled<P>, cache: Option<Batch<P>>, pending: seq<Generated<P>>, g: Generated<P>, required: nat,
                        maxGenBatches: int)
    requires Caches(cache, pending) && IsGenerated(g) && Unfinished(pending, required, maxGenBatches) && !s.complete
    requires SamplesAs(Ok(s), g, |pending| + 1, required, maxGenBatches, cache)
    ensures Outcome(Collecting, pending, g, required, maxGenBatches, true)
    ensures Caches(s.cache, pending + [g]) && Unfinished(pending + [g], required, maxGenBatches)
  {
    NothingYet(cache, pending, g, required, maxGenBatches);
    CacheStaysRight(s.cache, cache, pending, g);
  }

  lemma CallCompletes<P>(s: Sampled<P>, cache: Option<Batch<P>>, pending: seq<Generated<P>>, g: Generated<P>, required: nat,
                         maxGenBatches: int)
    requires Caches(cache, pending) && IsGenerated(g) && Unfinished(pending, required, maxGenBatches) && s.complete
    requires SamplesAs(Ok(s), g, |pending| + 1, required, maxGenBatches, cache)
    ensures Outcome(Trained(s.batch), pending, g, required, maxGenBatches, true)
  {
    NothingYet(cache, pending, g, required, maxGenBatches);
    CompleteMeans(s, cache, pending, g, required, maxGenBatches);
  }

  lemma CallFails<P>(error: SamplingError, cache: Option<Batch<P>>, pending: seq<Generated<P>>, g: Generated<P>,
                     required: nat, maxGenBatches: int)
    requires Caches(cache, pending) && IsGenerated(g) && Unfinished(pending, required, maxGenBatches)
    requires SamplesAs<P>(Err(error), g, |pending| + 1, required, maxGenBatches, cache)
    ensures Outcome(Failed(error), pending, g, required, maxGenBatches, true)
  {
    NothingYet(cache, pending, g, required, maxGenBatches);
  }

  /** The call on one more batch. */
  method SampleForStep<P>(cache: Option<Batch<P>>, ghost pending: seq<Generated<P>>, g: Generated<P>, numGenBatches: nat,
                          required: nat, maxGenBatches: int)
    returns (r: StepResult<P>, newCache: Option<Batch<P>>)
    requires Caches(cache, pending) && IsGenerated(g) && Unfinished(pending, required, maxGenBatches)
    requires numGenBatches == |pending| + 1
    ensures Outcome(r, pending, g, required, maxGenBatches, true)
    ensures r.Collecting? ==> Caches(newCache, pending + [g]) && Unfinished(pending + [g], required, maxGenBatches)
  {
    newCache := None;
    var s := Sample(g, numGenBatches, required, maxGenBatches, cache);
    if s.Err? {
      CallFails(s.error, cache, pending, g, required, maxGenBatches);
      r := Failed(s.error);
    } else if s.value.complete {
      CallCompletes(s.value, cache, pending, g, required, maxGenBatches);
      r := Trained(s.value.batch);
    } else {
      CallCollects(s.value, cache, pending, g, required, maxGenBatches);
      r, newCache := Collecting, s.value.cache;
    }
  }

  // ---- Whole epochs ----

  /**
   * A training step took the batches `low..high`: no shorter run of them would have been enough, they are at most one
   * more than the limit, and it trained on the first `required` samples that they kept.
   */
  ghost predicate StepTook<P>(batches: seq<Generated<P>>, low: nat, high: nat, required: nat, maxGenBatches: int, b: Batch<P>)
    requires AreGenerated(batches)
  {
    && low < high <= |batches| && high - low <= Max(maxGenBatches, 0) + 1
    && (forall m :: low < m < high ==> |KeptAll(batches[low..m])| < required)
    && TrainedOn(b, batches[low..high], required)
  }

  /** The steps of an epoch took adjacent runs of batches; `cuts` are their borders. */
  ghost predicate StepsTook<P>(batches: seq<Generated<P>>, cuts: seq<nat>, required: nat, maxGenBatches: int,
                               steps: seq<Batch<P>>)
    requires AreGenerated(batches)
  {
    && |cuts| == |steps| + 1 && cuts[0] == 0 && cuts[|steps|] <= |batches|
    && (forall k :: 0 <= k < |steps| ==> StepTook(batches, cuts[k], cuts[k + 1], required, maxGenBatches, steps[k]))
  }

  /** The batches from `low` on are not enough for another step, however many of them are taken. */
  ghost predicate NotEnough<P>(batches: seq<Generated<P>>, low: nat, high: nat, required: nat)
    requires AreGenerated(batches) && low <= high <= |batches|
  {
    forall m :: low < m <= high ==> |KeptAll(batches[low..m])| < required
  }

  /** One more step, taken by the batches from the last cut on. */
  lemma StepFinishes<P>(batches: seq<Generated<P>>, cuts: seq<nat>, required: nat, maxGenBatches: int,
                        steps: seq<Batch<P>>, i: nat, b: Batch<P>)
    requires AreGenerated(batches) && StepsTook(batches, cuts, required, maxGenBatches, steps) && i < |batches|
    requires cuts[|steps|] <= i && NotEnough(batches, cuts[|steps|], i, required)
    requires i - cuts[|steps|] <= Max(maxGenBatches, 0)
    requires TrainedOn(b, batches[cuts[|steps|]..i + 1], required)
    ensures StepsTook(batches, cuts + [i + 1], required, maxGenBatches, steps + [b])
  {
    assert StepTook(batches, cuts[|steps|], i + 1, required, maxGenBatches, b);
    forall k | 0 <= k < |steps|
      ensures StepTook(batches, (cuts + [i + 1])[k], (cuts + [i + 1])[k + 1], required, maxGenBatches, (steps + [b])[k])
    {
      assert StepTook(batches, cuts[k], cuts[k + 1], required, maxGenBatches, steps[k]);
    }
  }

  /** What the loop knows: all batches from the last cut on are pending. */
  ghost predicate LoopHolds<P>(batches: seq<Generated<P>>, cuts: seq<nat>, required: nat, maxGenBatches: int,
                               steps: seq<Batch<P>>, i: nat, pending: seq<Generated<P>>)
    requires AreGenerated(batches) && i <= |batches|
  {
    && StepsTook(batches, cuts, required, maxGenBatches, steps)
    && cuts[|steps|] <= i && pending == batches[cuts[|steps|]..i]
    && NotEnough(batches, cuts[|steps|], i, required)
    && |pending| <= Max(maxGenBatches, 0)
  }

  lemma LoopCollects<P>(batches: seq<Generated<P>>, cuts: seq<nat>, required: nat, maxGenBatches: int,
                        steps: seq<Batch<P>>, i: nat, pending: seq<Generated<P>>)
    requires AreGenerated(batches) && i < |batches| && LoopHolds(batches, cuts, required, maxGenBatches, steps, i, pending)
    requires |KeptAll(pending + [batches[i]])| < required
    ensures EpochTook(batches, cuts, required, maxGenBatches, steps, i + 1)
    ensures |pending| < Max(maxGenBatches, 0) ==>
              LoopHolds(batches, cuts, required, maxGenBatches, steps, i + 1, pending + [batches[i]])
  {
    assert pending + [batches[i]] == batches[cuts[|steps|]..i + 1];
  }

  lemma LoopTrains<P>(batches: seq<Generated<P>>, cuts: seq<nat>, required: nat, maxGenBatches: int,
                      steps: seq<Batch<P>>, i: nat, pending: seq<Generated<P>>, b: Batch<P>)
    requires AreGenerated(batches) && i < |batches| && LoopHolds(batches, cuts, required, maxGenBatches, steps, i, pending)
    requires AreGenerated(pending) && TrainedOn(b, pending + [batches[i]], required)
    ensures LoopHolds(batches, cuts + [i + 1], required, maxGenBatches, steps + [b], i + 1, [])
  {
    assert pending + [batches[i]] == batches[cuts[|steps|]..i + 1];
    StepFinishes(batches, cuts, required, maxGenBatches, steps, i, b);
  }

  /** The outcome of an epoch that processed `processed` batches. */
  ghost predicate EpochTook<P>(batches: seq<Generated<P>>, cuts: seq<nat>, required: nat, maxGenBatches: int,
                               steps: seq<Batch<P>>, processed: nat)
    requires AreGenerated(batches)
  {
    && StepsTook(batches, cuts, required, maxGenBatches, steps)
    && cuts[|steps|] <= processed <= |batches|
    && NotEnough(batches, cuts[|steps|], processed, required)
  }

  datatype EpochEnd = DataloaderEnd | MaxSteps | LimitRaised | MonitorRaised

  /**
   * How an epoch ends that processed `processed` batches. All of them pass the monitor. Dynamic sampling raises exactly
   * when one batch more than the limit was not enough for a step; the monitor raises exactly on the first batch that
   * does not pass, if the epoch gets there.
   */
  ghost predicate EndsAs<P>(end: EpochEnd, batches: seq<Generated<P>>, processed: nat, cuts: seq<nat>, maxGenBatches: int,
                            totalSteps: nat, maxSteps: nat, passes: Generated<P> -> bool)
    requires processed <= |batches|
  {
    var left, limit := processed - LastCut(cuts), Max(maxGenBatches, 0);
    && totalSteps <= maxSteps
    && FirstPass(batches, processed, passes)
    && left <= limit + 1
    && (end == DataloaderEnd ==> processed == |batches|)
    && (end == MaxSteps <==> totalSteps == maxSteps)
    && (end == MaxSteps ==> left == 0)
    && (end == LimitRaised <==> left == limit + 1)
    && (end == MonitorRaised <==>
          totalSteps < maxSteps && left <= limit && processed < |batches| && !passes(batches[processed]))
  }

  /** Where the last step ended. */
  function LastCut(cuts: seq<nat>): nat { if cuts == [] then 0 else cuts[|cuts| - 1] }

  ghost predicate FirstPass<P>(batches: seq<Generated<P>>, n: nat, passes: Generated<P> -> bool)
    requires n <= |batches|
  {
    forall k :: 0 <= k < n ==> passes(batches[k])
  }

  lemma LoopStarts<P>(batches: seq<Generated<P>>, required: nat, maxGenBatches: int, passes: Generated<P> -> bool)
    requires AreGenerated(batches)
    ensures LoopHolds(batches, [0], required, maxGenBatches, [], 0, []) && FirstPass(batches, 0, passes)
  {
  }

  /** One iteration: either it ends the epoch, or the loop goes on. */
  lemma LoopStep<P>(batches: seq<Generated<P>>, cuts: seq<nat>, required: nat, maxGenBatches: int, steps: seq<Batch<P>>,
                    i: nat, pending: seq<Generated<P>>, r: StepResult<P>, totalSteps: nat, maxSteps: nat,
                    passes: Generated<P> -> bool)
    requires AreGenerated(batches) && i < |batches| && LoopHolds(batches, cuts, required, maxGenBatches, steps, i, pending)
    requires AreGenerated(pending) && Outcome(r, pending, batches[i], required, maxGenBatches, passes(batches[i]))
    requires FirstPass(batches, i, passes) && totalSteps < maxSteps
    ensures r.Collecting? || r.Trained? ==> FirstPass(batches, i + 1, passes)
    ensures r.Collecting? ==> LoopHolds(batches, cuts, required, maxGenBatches, steps, i + 1, pending + [batches[i]])
    ensures r.Trained? ==> LoopHolds(batches, cuts + [i + 1], required, maxGenBatches, steps + [r.batch], i + 1, [])
    ensures r.Failed? ==>
      && EpochTook(batches, cuts, required, maxGenBatches, steps, i + 1)
      && EndsAs(LimitRaised, batches, i + 1, cuts, maxGenBatches, totalSteps, maxSteps, passes)
    ensures r.Stopped? ==>
      && EpochTook(batches, cuts, required, maxGenBatches, steps, i)
      && EndsAs(MonitorRaised, batches, i, cuts, maxGenBatches, totalSteps, maxSteps, passes)
  {
    if r.Trained? {
      LoopTrains(batches, cuts, required, maxGenBatches, steps, i, pending, r.batch);
    } else if r.Collecting? || r.Failed? {
      LoopCollects(batches, cuts, required, maxGenBatches, steps, i, pending);
    }
  }

  /** The two ends between iterations. */
  lemma LoopEnds<P>(batches: seq<Generated<P>>, cuts: seq<nat>, required: nat, maxGenBatches: int, steps: seq<Batch<P>>,
                    i: nat, pending: seq<Generated<P>>, end: EpochEnd, totalSteps: nat, maxSteps: nat,
                    passes: Generated<P> -> bool)
    requires AreGenerated(batches) && i <= |batches| && LoopHolds(batches, cuts, required, maxGenBatches, steps, i, pending)
    requires FirstPass(batches, i, passes) && totalSteps <= maxSteps
    requires if totalSteps == maxSteps then end == MaxSteps && pending == [] else end == DataloaderEnd && i == |batches|
    ensures EpochTook(batches, cuts, required, maxGenBatches, steps, i)
    ensures EndsAs(end, batches, i, cuts, maxGenBatches, totalSteps, maxSteps, passes)
  {
  }

  /** The loop body on batch `i`, with what it means for the epoch. */
  method ProcessNext<P>(trainer: GrpoTrainer<P>, batches: seq<Generated<P>>, ghost cuts: seq<nat>,
                        ghost steps: seq<Batch<P>>, i: nat, ghost maxSteps: nat)
    returns (r: StepResult<P>)
    requires AreGenerated(batches) && i < |batches| && trainer.Valid() && FirstPass(batches, i, trainer.passes)
    requires LoopHolds(batches, cuts, trainer.required, trainer.maxGenBatches, steps, i, trainer.pending)
    requires trainer.totalSteps < maxSteps
    modifies trainer
    ensures r.Collecting? || r.Trained? ==> trainer.Valid() && FirstPass(batches, i + 1, trainer.passes)
    ensures r.Collecting? ==> LoopHolds(batches, cuts, trainer.required, trainer.maxGenBatches, steps, i + 1, trainer.pending)
    ensures r.Trained? ==>
      && trainer.pending == []
      && LoopHolds(batches, cuts + [i + 1], trainer.required, trainer.maxGenBatches, steps + [r.batch], i + 1, [])
    ensures r.Failed? ==>
      && EpochTook(batches, cuts, trainer.required, trainer.maxGenBatches, steps, i + 1)
      && EndsAs(LimitRaised, batches, i + 1, cuts, trainer.maxGenBatches, trainer.totalSteps, maxSteps, trainer.passes)
    ensures r.Stopped? ==>
      && EpochTook(batches, cuts, trainer.required, trainer.maxGenBatches, steps, i)
      && EndsAs(MonitorRaised, batches, i, cuts, trainer.maxGenBatches, trainer.totalSteps, maxSteps, trainer.passes)
    ensures trainer.totalSteps == old(trainer.totalSteps) + (if r.Trained? then 1 else 0)
  {
    ghost var pending, total := trainer.pending, trainer.totalSteps;
    r := trainer.ProcessBatch(batches[i]);
    LoopStep(batches, cuts, trainer.required, trainer.maxGenBatches, steps, i, pending, r, total, maxSteps, trainer.passes);
  }

  /**
   * One epoch of the training loop. The steps take adjacent runs of the generated batches, and what is left at the end
   * is not enough for a step.
   */
  method RunEpoch<P>(trainer: GrpoTrainer<P>, batches: seq<Generated<P>>, maxSteps: nat)
    returns (steps: seq<Batch<P>>, ghost cuts: seq<nat>, end: EpochEnd, processed: nat)
    requires AreGenerated(batches) && trainer.totalSteps < maxSteps
    modifies trainer
    ensures EpochTook(batches, cuts, trainer.required, trainer.maxGenBatches, steps, processed)
    ensures trainer.totalSteps == old(trainer.totalSteps) + |steps|
    ensures EndsAs(end, batches, processed, cuts, trainer.maxGenBatches, trainer.totalSteps, maxSteps, trainer.passes)
  {
    trainer.ResetSampling();
    steps, cuts, end, processed := [], [0], DataloaderEnd, 0;
    LoopStarts(batches, trainer.required, trainer.maxGenBatches, trainer.passes);
    while processed < |batches|
      invariant processed <= |batches| && end == DataloaderEnd
      invariant trainer.Valid() && trainer.totalSteps == old(trainer.totalSteps) + |steps| < maxSteps
      invariant LoopHolds(batches, cuts, trainer.required, trainer.maxGenBatches, steps, processed, trainer.pending)
      invariant FirstPass(batches, processed, trainer.passes)
    {
      var r := ProcessNext(trainer, batches, cuts, steps, processed, maxSteps);
      if r.Stopped? {
        end := MonitorRaised;
        return;
      }
      processed := processed + 1;
      if r.Failed? {
        end := LimitRaised;
        return;
      }
      if r.Trained? {
        steps, cuts := steps + [r.batch], cuts + [processed];
        if trainer.totalSteps >= maxSteps {
          end := MaxSteps;
          break;
        }
      }
    }
    LoopEnds(batches, cuts, trainer.required, trainer.maxGenBatches, steps, processed, trainer.pending, end,
             trainer.totalSteps, maxSteps, trainer.passes);
  }

  // ---- Whole prompt groups ----

  /** A prompt group of which filtering keeps all samples or none. */
  ghost predicate IsGroup<P>(group: seq<Row<P>>, size: nat) {
    |group| == size && forall k :: 0 <= k < size ==> (group[k].std == 0.0 <==> group[0].std == 0.0)
  }

  function GroupHasSpread<P>(): seq<Row<P>> -> bool { (group: seq<Row<P>>) => group != [] && group[0].std != 0.0 }

  lemma {:induction false} AllOrNothing<P>(group: seq<Row<P>>, spread: bool)
    requires forall k :: 0 <= k < |group| ==> (group[k].std != 0.0 <==> spread)
    ensures Filter(group, HasSpread()) == if spread then group else []
  {
    if group != [] {
      AllOrNothing(group[..|group| - 1], spread);
      assert group == group[..|group| - 1] + [group[|group| - 1]];
    }
  }

  /** Filtering samples is filtering groups. */
  lemma {:induction false} FilterByGroups<P>(groups: seq<seq<Row<P>>>, size: nat)
    requires 0 < size && forall k :: 0 <= k < |groups| ==> IsGroup(groups[k], size)
    ensures Filter(Flatten(groups), HasSpread()) == Flatten(Filter(groups, GroupHasSpread()))
  {
    if groups != [] {
      var n := |groups| - 1;
      FilterByGroups(groups[..n], size);
      FilterConcat(Flatten(groups[..n]), groups[n], HasSpread());
      AllOrNothing(groups[n], groups[n][0].std != 0.0);
      FlattenSnoc(Filter(groups[..n], GroupHasSpread()), groups[n]);
    }
  }

  /** Batches that consist of prompt groups of one size. */
  ghost predicate Grouped<P>(gs: seq<Generated<P>>, groups: seq<seq<seq<Row<P>>>>, size: nat) {
    && 0 < size && |gs| == |groups| && AreGenerated(gs)
    && (forall i :: 0 <= i < |gs| ==> Zip(gs[i].samples, gs[i].std, gs[i].baseline, gs[i].totalReward) == Flatten(groups[i]))
    && (forall i, k :: 0 <= i < |groups| && 0 <= k < |groups[i]| ==> IsGroup(groups[i][k], size))
  }

  /** The groups with spread, over all batches in order. */
  ghost function KeptGroups<P>(groups: seq<seq<seq<Row<P>>>>): seq<seq<Row<P>>> {
    if groups == [] then []
    else KeptGroups(groups[..|groups| - 1]) + Filter(groups[|groups| - 1], GroupHasSpread())
  }

  lemma {:induction false} KeptGroupsUniform<P>(groups: seq<seq<seq<Row<P>>>>, size: nat)
    requires forall i, k :: 0 <= i < |groups| && 0 <= k < |groups[i]| ==> IsGroup(groups[i][k], size)
    ensures forall k :: 0 <= k < |KeptGroups(groups)| ==> |KeptGroups(groups)[k]| == size
  {
    if groups != [] {
      var n := |groups| - 1;
      KeptGroupsUniform(groups[..n], size);
      FilterUniform(groups[n], GroupHasSpread(), size);
    }
  }

  lemma {:induction false} FilterUniform<T>(parts: seq<seq<T>>, p: seq<T> -> bool, size: nat)
    requires forall k :: 0 <= k < |parts| ==> |parts[k]| == size
    ensures forall k :: 0 <= k < |Filter(parts, p)| ==> |Filter(parts, p)[k]| == size
  {
    if parts != [] {
      FilterUniform(parts[..|parts| - 1], p, size);
    }
  }

  lemma {:induction false} KeptAllByGroups<P>(gs: seq<Generated<P>>, groups: seq<seq<seq<Row<P>>>>, size: nat)
    requires Grouped(gs, groups, size)
    ensures KeptAll(gs) == Flatten(KeptGroups(groups))
  {
    if gs != [] {
      var n := |gs| - 1;
      assert Grouped(gs[..n], groups[..n], size);
      KeptAllByGroups(gs[..n], groups[..n], size);
      assert Kept(gs[n]) == Flatten(Filter(groups[n], GroupHasSpread())) by {
        FilterByGroups(groups[n], size);
      }
      FlattenConcat(KeptGroups(groups[..n]), Filter(groups[n], GroupHasSpread()));
    }
  }

  lemma FewerRows(n: nat, m: nat, size: nat)
    requires 0 < size && n * size <= m * size
    ensures n <= m
  {
    if m < n {
      RowWithin(m, n, size);
    }
  }

  lemma PrefixOfUniform<T>(parts: seq<seq<T>>, size: nat, n: nat)
    requires n <= |parts| && forall k :: 0 <= k < |parts| ==> |parts[k]| == size
    ensures |Flatten(parts[..n])| == n * size && Flatten(parts[..n]) <= Flatten(parts)
  {
    UniformOffset(parts, size, n);
    FlattenConcat(parts[..n], parts[n..]);
    assert parts == parts[..n] + parts[n..];
  }

  /**
   * Where filtering keeps or drops groups as a whole, a step that needs `n` groups trains on exactly the first `n`
   * groups with spread.
   */
  lemma TrainsOnWholeGroups<P>(gs: seq<Generated<P>>, groups: seq<seq<seq<Row<P>>>>, size: nat, n: nat, required: nat)
    requires Grouped(gs, groups, size) && required == n * size && required <= |KeptAll(gs)|
    ensures n <= |KeptGroups(groups)| && KeptAll(gs)[..required] == Flatten(KeptGroups(groups)[..n])
  {
    KeptAllByGroups(gs, groups, size);
    KeptGroupsUniform(groups, size);
    var kept := KeptGroups(groups);
    PrefixOfUniform(kept, size, |kept|);
    assert kept[..|kept|] == kept;
    FewerRows(n, |kept|, size);
    PrefixOfUniform(kept, size, n);
  }

  /** A float for every standard deviation: only the root of zero is zero. */
  ghost predicate Represents(value: GroupStatistics.Std -> real) {
    forall std :: value(std) == 0.0 <==> std == GroupStatistics.Root(0.0)
  }

  /** One prompt group with the statistics of its rewards, all of its samples being valid. */
  ghost predicate HasStatistics<P>(group: seq<Row<P>>, leaveOneOut: bool, value: GroupStatistics.Std -> real) {
    forall k :: 0 <= k < |group| ==>
      group[k].std == value(GroupStatistics.StdAt(RewardColumn(group), GroupStatistics.AllValid(|group|), leaveOneOut, k))
  }

  /** Leave-one-out is on and the rewards of a group of at least three all agree but for one. */
  ghost predicate Splits<P>(group: seq<Row<P>>, leaveOneOut: bool) {
    leaveOneOut && 3 <= |group| && exists k :: GroupStatistics.OddOneOut(RewardColumn(group), k)
  }

  /** With the statistics that the trainer computes, filtering splits a group in exactly that case. */
  lemma WholeGroupIff<P>(group: seq<Row<P>>, leaveOneOut: bool, value: GroupStatistics.Std -> real)
    requires Represents(value) && HasStatistics(group, leaveOneOut, value)
    ensures IsGroup(group, |group|) <==> !Splits(group, leaveOneOut)
  {
    var rewards := RewardColumn(group);
    GroupStatistics.GroupSplitsIff(rewards, leaveOneOut);
    if GroupStatistics.SomeWithSpread(rewards, leaveOneOut) && GroupStatistics.SomeWithoutSpread(rewards, leaveOneOut) {
      var j :| 0 <= j < |rewards|
        && GroupStatistics.StdAt(rewards, GroupStatistics.AllValid(|rewards|), leaveOneOut, j) != GroupStatistics.Root(0.0);
      var k :| 0 <= k < |rewards|
        && GroupStatistics.StdAt(rewards, GroupStatistics.AllValid(|rewards|), leaveOneOut, k) == GroupStatistics.Root(0.0);
      assert group[j].std != 0.0 && group[k].std == 0.0;
    } else if GroupStatistics.SomeWithSpread(rewards, leaveOneOut) {
      assert forall k :: 0 <= k < |group| ==> group[k].std != 0.0;
    } else {
      assert forall k :: 0 <= k < |group| ==> group[k].std == 0.0;
    }
  }

  /** A group that splits loses exactly its odd one out. */
  lemma SplitGroupLosesOne<P>(group: seq<Row<P>>, k: nat, value: GroupStatistics.Std -> real)
    requires Represents(value) && HasStatistics(group, true, value)
    requires 3 <= |group| && GroupStatistics.OddOneOut(RewardColumn(group), k)
    ensures Filter(group, HasSpread()) == RemoveAt(group, k)
  {
    GroupStatistics.OddOneHasNoSpread(RewardColumn(group), k);
    FilterAllBut(group, HasSpread(), k);
  }

  lemma FilterAllBut<T>(s: seq<T>, p: T -> bool, k: nat)
    requires k < |s| && forall j :: 0 <= j < |s| ==> (p(s[j]) <==> j != k)
    ensures Filter(s, p) == RemoveAt(s, k)
  {
    var front, back := s[..k], s[k + 1..];
    assert s == front + [s[k]] + back;
    KeptAroundOne(front, s[k], back, p);
  }

  lemma KeptAroundOne<T>(front: seq<T>, x: T, back: seq<T>, p: T -> bool)
    requires (forall j :: 0 <= j < |front| ==> p(front[j])) && (forall j :: 0 <= j < |back| ==> p(back[j])) && !p(x)
    ensures Filter(front + [x] + back, p) == front + back
  {
    FilterConcat(front + [x], back, p);
    FilterSnoc(front, x, p);
    FilterAllIff(front, p);
    FilterAllIff(back, p);
  }

  // ---- The statistics that the trainer computes ----

  /** The batch has the standard deviations that were just computed for its prompts, all samples counting. */
  ghost predicate WithStatistics<P>(g: Generated<P>, prompts: seq<GroupStatistics.Prompt>, leaveOneOut: bool,
                                    value: GroupStatistics.Std -> real, baseline: seq<real>, std: seq<GroupStatistics.Std>) {
    && IsGenerated(g) && |prompts| == |std| == |g.std|
    && (forall q :: 0 <= q < |std| ==> g.std[q] == value(std[q]))
    && (forall p :: p in prompts ==>
          GroupStatistics.GroupDone(baseline, std, prompts, g.totalReward, GroupStatistics.AllValid(|prompts|), leaveOneOut, p))
  }

  function RowsGenerated<P>(g: Generated<P>): (r: seq<Row<P>>)
    requires |g.samples| == |g.std| == |g.baseline| == |g.totalReward|
    ensures |r| == |g.std|
  {
    Zip(g.samples, g.std, g.baseline, g.totalReward)
  }

  /**
   * The rows of any prompt, wherever they stand in the batch, have the statistics of their rewards; equal prompts are
   * one group.
   */
  lemma PromptHasStatistics<P>(g: Generated<P>, prompts: seq<GroupStatistics.Prompt>, leaveOneOut: bool,
                               value: GroupStatistics.Std -> real, baseline: seq<real>, std: seq<GroupStatistics.Std>,
                               prompt: GroupStatistics.Prompt)
    requires WithStatistics(g, prompts, leaveOneOut, value, baseline, std) && prompt in prompts
    ensures HasStatistics(Select(RowsGenerated(g), GroupStatistics.GroupOf(prompts, prompt)), leaveOneOut, value)
  {
    var places := GroupStatistics.GroupOf(prompts, prompt);
    var group, valid := Select(RowsGenerated(g), places), GroupStatistics.AllValid(|prompts|);
    assert RewardColumn(group) == Select(g.totalReward, places);
    assert GroupStatistics.AllValid(|group|) == Select(valid, places);
    forall k | 0 <= k < |group|
      ensures group[k].std
           == value(GroupStatistics.StdAt(RewardColumn(group), GroupStatistics.AllValid(|group|), leaveOneOut, k))
    {
      assert group[k] == RowsGenerated(g)[places[k]];
    }
  }

  /** In every batch with its statistics: filtering keeps or drops a prompt's rows as a whole unless they split. */
  lemma PromptWholeIff<P>(g: Generated<P>, prompts: seq<GroupStatistics.Prompt>, leaveOneOut: bool,
                          value: GroupStatistics.Std -> real, baseline: seq<real>, std: seq<GroupStatistics.Std>,
                          prompt: GroupStatistics.Prompt)
    requires WithStatistics(g, prompts, leaveOneOut, value, baseline, std) && Represents(value) && prompt in prompts
    ensures var group := Select(RowsGenerated(g), GroupStatistics.GroupOf(prompts, prompt));
      IsGroup(group, |group|) <==> !Splits(group, leaveOneOut)
  {
    PromptHasStatistics(g, prompts, leaveOneOut, value, baseline, std, prompt);
    WholeGroupIff(Select(RowsGenerated(g), GroupStatistics.GroupOf(prompts, prompt)), leaveOneOut, value);
  }

  /** Pairwise different prompts, each repeated `size` times in a row. */
  ghost predicate Repeated(prompts: seq<GroupStatistics.Prompt>, names: seq<GroupStatistics.Prompt>, size: nat) {
    && |prompts| == |names| * size
    && (forall i, j :: 0 <= i < j < |names| ==> names[i] != names[j])
    && (forall i, q {:trigger names[i], prompts[q]} :: 0 <= i < |names| && 0 <= q < |prompts| ==>
          (prompts[q] == names[i] <==> i * size <= q < i * size + size))
  }

  /** Then every run of `size` rows is one prompt's group and has the statistics of its rewards. */
  lemma RunHasStatistics<P>(g: Generated<P>, prompts: seq<GroupStatistics.Prompt>, names: seq<GroupStatistics.Prompt>,
                            groups: seq<seq<Row<P>>>, size: nat, leaveOneOut: bool, value: GroupStatistics.Std -> real,
                            baseline: seq<real>, std: seq<GroupStatistics.Std>, i: nat)
    requires WithStatistics(g, prompts, leaveOneOut, value, baseline, std) && Repeated(prompts, names, size) && 0 < size
    requires RowsGenerated(g) == Flatten(groups) && i < |groups| && forall k :: 0 <= k < |groups| ==> |groups[k]| == size
    ensures HasStatistics(groups[i], leaveOneOut, value)
  {
    UniformSlice(groups, size, i);
    var first, rows := i * size, RowsGenerated(g);
    assert i < |names| by {
      FewerRows(|groups|, |names|, size);
    }
    assert prompts[first] == names[i];
    GroupStatistics.AdjacentGroup(prompts, names[i], first, size);
    PromptHasStatistics(g, prompts, leaveOneOut, value, baseline, std, names[i]);
    assert Select(rows, Range(first, size)) == rows[first..first + size];
  }

  /**
   * With the statistics that the trainer computes, for batches of pairwise different prompts that are each repeated
   * `size` times: without leave-one-out, or where no group splits, a step that needs `n` groups trains on exactly the
   * first `n` groups with spread.
   */
  lemma TrainsOnWholeGroupsUnlessSplit<P>(gs: seq<Generated<P>>, prompts: seq<seq<GroupStatistics.Prompt>>,
                                          names: seq<seq<GroupStatistics.Prompt>>, baselines: seq<seq<real>>,
                                          stds: seq<seq<GroupStatistics.Std>>, groups: seq<seq<seq<Row<P>>>>, size: nat,
                                          n: nat, required: nat, leaveOneOut: bool, value: GroupStatistics.Std -> real)
    requires 0 < size && |gs| == |groups| == |prompts| == |names| == |baselines| == |stds|
    requires AreGenerated(gs) && Represents(value)
    requires forall i :: 0 <= i < |gs| ==>
                           && WithStatistics(gs[i], prompts[i], leaveOneOut, value, baselines[i], stds[i])
                           && Repeated(prompts[i], names[i], size)
                           && RowsGenerated(gs[i]) == Flatten(groups[i])
    requires forall i, k :: 0 <= i < |groups| && 0 <= k < |groups[i]| ==>
                              |groups[i][k]| == size && !Splits(groups[i][k], leaveOneOut)
    requires required == n * size && required <= |KeptAll(gs)|
    ensures n <= |KeptGroups(groups)| && KeptAll(gs)[..required] == Flatten(KeptGroups(groups)[..n])
  {
    forall i, k | 0 <= i < |groups| && 0 <= k < |groups[i]| ensures IsGroup(groups[i][k], size) {
      RunHasStatistics(gs[i], prompts[i], names[i], groups[i], size, leaveOneOut, value, baselines[i], stds[i], k);
      WholeGroupIff(groups[i][k], leaveOneOut, value);
    }
    TrainsOnWholeGroups(gs, groups, size, n, required);
  }

  // ---- The unfiltered reward column ----

  function RewardColumn<P>(rows: seq<Row<P>>): seq<real> {
    seq(|rows|, i requires 0 <= i < |rows| => rows[i].reward)
  }

  /** The batch was dropped as a whole or kept as a whole. */
  ghost predicate AllOrNone<P>(g: Generated<P>)
    requires IsGenerated(g)
  {
    Kept(g) == [] || forall i :: 0 <= i < |g.std| ==> g.std[i] != 0.0
  }

  lemma {:induction false} FilterAllIff<T>(s: seq<T>, p: T -> bool)
    ensures |Filter(s, p)| == |s| <==> forall i :: 0 <= i < |s| ==> p(s[i])
    ensures |Filter(s, p)| <= |s| && (|Filter(s, p)| == |s| ==> Filter(s, p) == s)
  {
    if s != [] {
      FilterAllIff(s[..|s| - 1], p);
      assert s == s[..|s| - 1] + [s[|s| - 1]];
    }
  }

  lemma KeptWhole<P>(g: Generated<P>)
    requires IsGenerated(g)
    ensures |Kept(g)| <= |g.totalReward|
    ensures |Kept(g)| == |g.totalReward| <==> forall i :: 0 <= i < |g.std| ==> g.std[i] != 0.0
    ensures |Kept(g)| == |g.totalReward| ==> RewardColumn(Kept(g)) == g.totalReward
  {
    var rows := Zip(g.samples, g.std, g.baseline, g.totalReward);
    FilterAllIff(rows, HasSpread());
    assert forall i :: 0 <= i < |g.std| ==> rows[i].std == g.std[i];
  }

  /**
   * `total_reward` is not filtered: beside the collected samples it holds the rewards of their whole batches, so it
   * belongs to the samples exactly when every batch was kept or dropped as a whole.
   */
  lemma {:induction false} TotalRewardAlignedIff<P>(gs: seq<Generated<P>>)
    requires AreGenerated(gs)
    ensures |KeptAll(gs)| <= |RewardsAll(gs)|
    ensures |KeptAll(gs)| == |RewardsAll(gs)| <==> forall i :: 0 <= i < |gs| ==> AllOrNone(gs[i])
    ensures |KeptAll(gs)| == |RewardsAll(gs)| ==> RewardColumn(KeptAll(gs)) == RewardsAll(gs)
  {
    if gs != [] {
      var n := |gs| - 1;
      TotalRewardAlignedIff(gs[..n]);
      KeptWhole(gs[n]);
      assert forall i :: 0 <= i < n ==> gs[..n][i] == gs[i];
      assert RewardColumn(KeptAll(gs[..n]) + Kept(gs[n])) == RewardColumn(KeptAll(gs[..n])) + RewardColumn(Kept(gs[n]));
    }
  }

  /** The unfiltered rows of the batches that contributed: what `total_reward` belongs to. */
  ghost function RowsAll<P>(gs: seq<Generated<P>>): seq<Row<P>>
    requires AreGenerated(gs)
  {
    if gs == [] then []
    else
      var g := gs[|gs| - 1];
      RowsAll(gs[..|gs| - 1]) + (if Kept(g) == [] then [] else Zip(g.samples, g.std, g.baseline, g.totalReward))
  }

  lemma {:induction false} RowsAllMeans<P>(gs: seq<Generated<P>>)
    requires AreGenerated(gs)
    ensures RewardColumn(RowsAll(gs)) == RewardsAll(gs)
    ensures KeptAll(gs) == Filter(RowsAll(gs), HasSpread())
  {
    if gs != [] {
      var g, before := gs[|gs| - 1], gs[..|gs| - 1];
      RowsAllMeans(before);
      var rows := if Kept(g) == [] then [] else Zip(g.samples, g.std, g.baseline, g.totalReward);
      assert RewardColumn(RowsAll(before) + rows) == RewardColumn(RowsAll(before)) + RewardColumn(rows);
      assert Kept(g) != [] ==> RewardColumn(rows) == g.totalReward;
      FilterConcat(RowsAll(before), rows, HasSpread());
    }
  }

  lemma {:induction false} FilterElementsHold<T>(s: seq<T>, p: T -> bool)
    ensures forall i :: 0 <= i < |Filter(s, p)| ==> p(Filter(s, p)[i])
  {
    if s != [] {
      FilterElementsHold(s[..|s| - 1], p);
    }
  }

  /** The first `n` kept elements are the first `n` of all exactly when all of those are kept. */
  lemma FilterPrefixIff<T>(s: seq<T>, p: T -> bool, n: nat)
    requires n <= |Filter(s, p)|
    ensures n <= |s|
    ensures Filter(s, p)[..n] == s[..n] <==> forall i :: 0 <= i < n ==> p(s[i])
  {
    FilterAllIff(s, p);
    FilterConcat(s[..n], s[n..], p);
    FilterAllIff(s[..n], p);
    assert s == s[..n] + s[n..];
    if Filter(s, p)[..n] == s[..n] {
      FilterElementsHold(s, p);
      assert forall i :: 0 <= i < n ==> s[..n][i] == Filter(s, p)[..n][i];
    }
    if forall i :: 0 <= i < n ==> p(s[i]) {
      assert Filter(s[..n], p) == s[..n];
    }
  }

  /**
   * In the slice that a step trains on, the unfiltered rewards belong to the samples beside them exactly when the first
   * `required` rows of the contributing batches all had spread.
   */
  lemma SliceAlignedIff<P>(b: Batch<P>, gs: seq<Generated<P>>, required: nat)
    requires AreGenerated(gs) && TrainedOn(b, gs, required)
    ensures required <= |RowsAll(gs)| && b.totalReward == RewardColumn(RowsAll(gs)[..required])
    ensures RowsOf(b) == RowsAll(gs)[..required] <==> forall i :: 0 <= i < required ==> RowsAll(gs)[i].std != 0.0
  {
    RowsAllMeans(gs);
    FilterPrefixIff(RowsAll(gs), HasSpread(), required);
    assert RewardColumn(RowsAll(gs))[..required] == RewardColumn(RowsAll(gs)[..required]);
  }
}
