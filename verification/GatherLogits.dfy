/**
 * Logits gathered at global vocabulary indices, with the sequence cut across context-parallel ranks and the vocabulary
 * across tensor-parallel ranks. Clamping, masking, summing, chunking, padding and gathering amount to reading the full row.
 */
module GatherLogits {
  import opened Seqs
  import opened Lists
  import opened ContextParallel
  import opened PackedLogprobs
  import opened ScatterGradients
  import opened VocabParallel

  /** The entry of the full row; indices outside the vocabulary read as zero. */
  function EntryOr0(row: seq<real>, t: int): real { if 0 <= t < |row| then row[t] else 0.0 }

  function EntriesOf(position: Logits, indices: seq<int>): seq<real>
  {
    seq(|indices|, k requires 0 <= k < |indices| => EntryOr0(Flatten(position), indices[k]))
  }

  function EntriesFn(): (Logits, seq<int>) -> seq<real> { (position, indices) => EntriesOf(position, indices) }

  /** What rank `r` contributes: its entry at the clamped local index, times one if the index is its own, else zero. */
  function ClampedEntry(local: seq<real>, start: nat, t: int): real
    requires local != []
  {
    Times(local[Clamp(t - start, |local|)], if start <= t < start + |local| then 1.0 else 0.0)
  }

  function ClampedEntries(position: Logits, size: nat, t: int): seq<real>
    requires EvenVocab(position, size)
  {
    seq(|position|, r requires 0 <= r < |position| && EvenVocab(position, size) => ClampedEntry(position[r], r * size, t))
  }

  /** Summed over the ranks, the clamped and masked entries are the entry of the full row. */
  lemma ClampedSumIsEntry(position: Logits, size: nat, t: int)
    requires EvenVocab(position, size)
    ensures SumReals(ClampedEntries(position, size, t)) == EntryOr0(Flatten(position), t)
  {
    forall r | 0 <= r < |position|
      ensures ClampedEntries(position, size, t)[r] == MaskedEntries(position, size, t, |position|)[r]
    {
    }
    assert ClampedEntries(position, size, t) == MaskedEntries(position, size, t, |position|);
    MaskedSumIsEntry(position, size, t);
  }

  /** One position: for each of its indices the all-reduced entry. */
  method GatherAtPosition(position: Logits, indices: seq<int>, size: nat) returns (entries: seq<real>)
    requires EvenVocab(position, size)
    ensures entries == EntriesOf(position, indices)
  {
    entries := [];
    for k := 0 to |indices|
      invariant |entries| == k && forall j :: 0 <= j < k ==> entries[j] == EntryOr0(Flatten(position), indices[j])
    {
      ClampedSumIsEntry(position, size, indices[k]);
      entries := entries + [SumReals(ClampedEntries(position, size, indices[k]))];
    }
  }

  /** One context-parallel rank: chunk after chunk of its positions, as far as there are indices. */
  method GatherOnRank(positions: seq<Logits>, indices: seq<seq<int>>, size: nat, chunkSize: Option<nat>)
    returns (entries: seq<seq<real>>)
    requires positions != [] && EvenPositions(positions, size) && chunkSize != Some(0)
    ensures var n := Min(|positions|, |indices|); entries == Pointwise(EntriesFn(), positions[..n], indices[..n])
  {
    var step := if chunkSize.Some? then chunkSize.value else |positions|;
    entries := [];
    var start := 0;
    while start < |positions|
      invariant |entries| == Min(Min(start, |positions|), |indices|)
      invariant forall p :: 0 <= p < |entries| ==> entries[p] == EntriesOf(positions[p], indices[p])
    {
      var end := Min(|positions|, start + step);
      for p := Min(start, |indices|) to Min(end, |indices|)
        invariant |entries| == p
        invariant forall q :: 0 <= q < p ==> entries[q] == EntriesOf(positions[q], indices[q])
      {
        var row := GatherAtPosition(positions[p], indices[p], size);
        entries := entries + [row];
      }
      start := start + step;
    }
  }

  /**
   * `gather_logits_at_global_indices` over all ranks, for one sequence of the batch: whatever the ranks and the chunk
   * size, every position gets the entries of its full row at its own indices. With several ranks there are at most as
   * many index rows as positions; with one rank the surplus of either is left out.
   */
  method GatherAtGlobalIndices(locals: seq<seq<Logits>>, indices: seq<seq<int>>, k: nat, size: nat, chunkSize: Option<nat>,
                               ghost full: seq<Logits>)
    returns (gathered: seq<seq<real>>)
    requires 0 < |locals| && full != [] && chunkSize != Some(0) && Divisible(|full|, |locals|)
    requires locals == Sharded(full, |locals|) && (|locals| > 1 ==> |indices| <= |full|)
    requires forall r :: 0 <= r < |locals| ==> EvenPositions(locals[r], size)
    requires forall j :: 0 <= j < |indices| ==> |indices[j]| == k
    ensures |gathered| == Min(|indices|, |full|)
    ensures forall j :: 0 <= j < |gathered| ==> gathered[j] == EntriesOf(full[j], indices[j])
  {
    var cp := |locals|;
    if cp == 1 {
      gathered := GatherOnRank(locals[0], indices, size, chunkSize);
      return;
    }
    gathered := GatherOverRanks(locals, indices, k, size, chunkSize, full);
  }

  /** The same with several ranks: the indices are padded, cut for the ranks, and the padding is dropped at the end. */
  method GatherOverRanks(locals: seq<seq<Logits>>, indices: seq<seq<int>>, k: nat, size: nat, chunkSize: Option<nat>,
                         ghost full: seq<Logits>)
    returns (gathered: seq<seq<real>>)
    requires 1 < |locals| && full != [] && chunkSize != Some(0) && Divisible(|full|, |locals|)
    requires locals == Sharded(full, |locals|) && |indices| <= |full|
    requires forall r :: 0 <= r < |locals| ==> EvenPositions(locals[r], size)
    requires forall j :: 0 <= j < |indices| ==> |indices[j]| == k
    ensures |gathered| == |indices|
    ensures forall j :: 0 <= j < |indices| ==> gathered[j] == EntriesOf(full[j], indices[j])
  {
    var cp := |locals|;
    ShardedLength(full, cp);
    var padLen: nat := |locals[0]| * cp - |indices|;
    var padded := indices + seq(padLen, _ => seq(k, _ => 0));
    ghost var whole := Pointwise(EntriesFn(), full, padded);
    var shards: seq<seq<seq<real>>> := [];
    for r := 0 to cp
      invariant |shards| == r && forall k :: 0 <= k < r ==> shards[k] == Sharded(whole, cp)[k]
    {
      PointwiseOnRank(EntriesFn(), full, padded, r, cp);
      RankHasTokens(full, r, cp);
      SameShardLengths(full, padded, r, cp);
      var tokens := TokensOnRank(padded, r, cp);
      var entries := GatherOnRank(locals[r], tokens, size, chunkSize);
      assert locals[r][..|tokens|] == locals[r] && tokens[..|tokens|] == tokens;
      shards := shards + [entries];
    }
    var all := GatherShards(shards, whole);
    gathered := all[..|all| - padLen];
  }

  lemma SameShardLengths<S, T>(x: seq<S>, y: seq<T>, r: nat, cp: nat)
    requires 1 < cp && r < cp && |x| == |y| && Divisible(|x|, cp)
    ensures |TokensOnRank(x, r, cp)| == |TokensOnRank(y, r, cp)|
  {
    var half := DivisibleOffset(|x|, cp);
    ShardHalves(x, cp, half, r);
    ShardHalves(y, cp, half, r);
  }

  lemma RankHasTokens<T>(x: seq<T>, r: nat, cp: nat)
    requires r < cp && x != [] && Divisible(|x|, cp)
    ensures TokensOnRank(x, r, cp) != []
  {
    if cp > 1 {
      var half := DivisibleOffset(|x|, cp);
      ShardHalves(x, cp, half, r);
    }
  }
}
