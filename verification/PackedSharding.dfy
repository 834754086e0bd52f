/**
 * Sharding for sequence packing: the sequences of each chunk are packed into bins, the bins are dealt to the shards in
 * turn, and every bin becomes one microbatch of its shard.
 */
module PackedSharding {
  import opened Seqs
  import opened Lists
  import opened Packing
  import opened ModifiedFirstFit
  import opened BatchedDataDicts
  import opened DynamicBatching

  /** The microbatch table of consecutive bins. */
  function IntervalsOf(bins: seq<seq<nat>>): (r: seq<(nat, nat)>)
    ensures |r| == |bins|
    ensures bins != [] ==> r[|r| - 1].1 == |Flatten(bins)|
  {
    if bins == [] then []
    else
      var n := |bins| - 1;
      var before := IntervalsOf(bins[..n]);
      var end := if n == 0 then 0 else before[n - 1].1;
      before + [(end, end + |bins[n]|)]
  }

  lemma {:induction false} IntervalIsOffset(bins: seq<seq<nat>>, i: nat)
    requires i < |bins|
    ensures IntervalsOf(bins)[i] == (Offset(bins, i), Offset(bins, i + 1))
  {
    var n := |bins| - 1;
    if i < n {
      IntervalIsOffset(bins[..n], i);
      assert bins[..n][..i] == bins[..i] && bins[..n][..i + 1] == bins[..i + 1];
    } else {
      assert bins[..i + 1] == bins;
    }
  }

  /** The padded tokens of each bin. */
  function TokensOf(padded: seq<nat>, bins: seq<seq<nat>>): (r: seq<nat>)
    ensures |r| == |bins|
  {
    seq(|bins|, i requires 0 <= i < |bins| => BinSum(padded, bins[i]))
  }

  /** What each shard's list of bins means: flattened indices, table and token counts. */
  function EachFlattened(shares: seq<seq<seq<nat>>>): (r: seq<seq<nat>>)
    ensures |r| == |shares|
  {
    seq(|shares|, s requires 0 <= s < |shares| => Flatten(shares[s]))
  }

  function EachIntervals(shares: seq<seq<seq<nat>>>): (r: seq<seq<(nat, nat)>>)
    ensures |r| == |shares|
  {
    seq(|shares|, s requires 0 <= s < |shares| => IntervalsOf(shares[s]))
  }

  function EachTokens(padded: seq<nat>, shares: seq<seq<seq<nat>>>): (r: seq<seq<nat>>)
    ensures |r| == |shares|
  {
    seq(|shares|, s requires 0 <= s < |shares| => TokensOf(padded, shares[s]))
  }

  lemma DealIndices(shares: seq<seq<seq<nat>>>, s: nat, bin: seq<nat>)
    requires s < |shares|
    ensures EachFlattened(shares[s := shares[s] + [bin]]) == EachFlattened(shares)[s := Flatten(shares[s]) + bin]
  {
    FlattenSnoc(shares[s], bin);
  }

  lemma DealInterval(shares: seq<seq<seq<nat>>>, s: nat, bin: seq<nat>, end: nat)
    requires s < |shares| && end == |Flatten(shares[s])|
    ensures EachIntervals(shares[s := shares[s] + [bin]])
         == EachIntervals(shares)[s := IntervalsOf(shares[s]) + [(end, end + |bin|)]]
  {
    assert (shares[s] + [bin])[..|shares[s]|] == shares[s];
  }

  lemma DealTokens(shares: seq<seq<seq<nat>>>, padded: seq<nat>, s: nat, bin: seq<nat>)
    requires s < |shares|
    ensures EachTokens(padded, shares[s := shares[s] + [bin]])
         == EachTokens(padded, shares)[s := TokensOf(padded, shares[s]) + [BinSum(padded, bin)]]
  {
    assert TokensOf(padded, shares[s] + [bin]) == TokensOf(padded, shares[s]) + [BinSum(padded, bin)];
  }

  /** `sum` of the padded lengths of one bin. */
  method PaddedBinLength(padded: seq<nat>, bin: seq<nat>) returns (total: nat)
    ensures total == BinSum(padded, bin)
  {
    total := 0;
    for i := 0 to |bin|
      invariant total == BinSum(padded, bin[..i])
    {
      assert bin[..i + 1] == bin[..i] + [bin[i]];
      BinSumSnoc(padded, bin[..i], bin[i]);
      total := total + Len(padded, bin[i]);
    }
    assert bin[..|bin|] == bin;
  }

  /** One bin for shard `s`: its positions, its interval after the last one of the table, and its token count. */
  method DealBin(ghost dealt: seq<seq<seq<nat>>>, bin: seq<nat>, s: nat, padded: seq<nat>, indices: seq<seq<nat>>,
                 intervals: seq<seq<(nat, nat)>>, tokens: seq<seq<nat>>)
    returns (indices': seq<seq<nat>>, intervals': seq<seq<(nat, nat)>>, tokens': seq<seq<nat>>)
    requires s < |dealt| && indices == EachFlattened(dealt) && intervals == EachIntervals(dealt)
    requires tokens == EachTokens(padded, dealt)
    ensures var after := dealt[s := dealt[s] + [bin]];
      indices' == EachFlattened(after) && intervals' == EachIntervals(after) && tokens' == EachTokens(padded, after)
  {
    DealIndices(dealt, s, bin);
    DealInterval(dealt, s, bin, |Flatten(dealt[s])|);
    DealTokens(dealt, padded, s, bin);
    indices' := indices[s := indices[s] + bin];
    var length := PaddedBinLength(padded, bin);
    if intervals[s] == [] {
      intervals' := intervals[s := [(0, |bin|)]];
      assert [] + [(0, 0 + |bin|)] == [(0, |bin|)];
    } else {
      var previousEnd := intervals[s][|intervals[s]| - 1].1;
      intervals' := intervals[s := intervals[s] + [(previousEnd, previousEnd + |bin|)]];
    }
    tokens' := tokens[s := tokens[s] + [length]];
  }

  /** Deals the bins of one chunk to the shards in turn, keeping each shard's indices and table. */
  method DealBins(bins: seq<seq<nat>>, padded: seq<nat>, shards: nat)
    returns (indices: seq<seq<nat>>, intervals: seq<seq<(nat, nat)>>, tokens: seq<seq<nat>>)
    requires 0 < shards
    ensures indices == EachFlattened(Strides(bins, shards))
    ensures intervals == EachIntervals(Strides(bins, shards))
    ensures tokens == EachTokens(padded, Strides(bins, shards))
  {
    indices, intervals, tokens := seq(shards, _ => []), seq(shards, _ => []), seq(shards, _ => []);
    assert bins[..0] == [];
    for j := 0 to |bins|
      invariant indices == EachFlattened(Strides(bins[..j], shards))
      invariant intervals == EachIntervals(Strides(bins[..j], shards))
      invariant tokens == EachTokens(padded, Strides(bins[..j], shards))
    {
      var s := j % shards;
      assert bins[..j + 1] == bins[..j] + [bins[j]];
      StridesSnoc(bins[..j], bins[j], shards, s);
      ghost var dealt := Strides(bins[..j], shards);
      indices, intervals, tokens := DealBin(dealt, bins[j], s, padded, indices, intervals, tokens);
    }
    assert bins[..|bins|] == bins;
  }

  // ---- All chunks ----

  /** The bins of every chunk as positions in the whole batch. */
  function GlobalBins(bins: seq<seq<nat>>, start: nat): seq<seq<nat>> {
    seq(|bins|, j requires 0 <= j < |bins| => Shifted(bins[j], start))
  }

  /** What the shards get of chunk `c`: shard `s` the bins `s`, `s + shards`, and so on. */
  function ChunkShares(assignments: seq<seq<seq<nat>>>, l: Layout, c: nat): (r: seq<seq<seq<nat>>>)
    requires c < |assignments| && 0 < l.shards
    ensures |r| == l.shards
  {
    Strides(GlobalBins(assignments[c], ChunkStart(l, c)), l.shards)
  }

  function AppendEach<T>(a: seq<seq<T>>, b: seq<seq<T>>): seq<seq<T>>
    requires |a| == |b|
  {
    seq(|a|, s requires 0 <= s < |a| => a[s] + b[s])
  }

  /** Every shard's positions in the batch, after the first `n` chunks. */
  function ShardIndices(assignments: seq<seq<seq<nat>>>, l: Layout, n: nat): (r: seq<seq<nat>>)
    requires n <= |assignments| && 0 < l.shards
    ensures |r| == l.shards
  {
    if n == 0 then seq(l.shards, _ => [])
    else AppendEach(ShardIndices(assignments, l, n - 1), EachFlattened(ChunkShares(assignments, l, n - 1)))
  }

  /** The chunks' bins are packings of the chunks' padded lengths, as many for each shard. */
  ghost predicate ArePackings(assignments: seq<seq<seq<nat>>>, padded: seq<nat>, l: Layout, capacity: int) {
    && Covers(padded, l)
    && |assignments| == l.chunks
    && (forall c :: 0 <= c < l.chunks ==> IsChunkPacking(assignments[c], padded, l, c, capacity))
  }

  ghost predicate IsChunkPacking(bins: seq<seq<nat>>, padded: seq<nat>, l: Layout, c: nat, capacity: int)
    requires 0 < l.shards
  {
    && IsPacking(bins, Cut(padded, ChunkStart(l, c), ChunkStart(l, c) + l.batchSize), capacity)
    && |bins| % l.shards == 0
    && |bins| >= l.shards
  }

  // ---- The returned indices are a permutation ----

  lemma {:induction false} FlattenGlobalBins(bins: seq<seq<nat>>, start: nat)
    ensures Flatten(GlobalBins(bins, start)) == Shifted(Flatten(bins), start)
  {
    if bins != [] {
      var n := |bins| - 1;
      FlattenGlobalBins(bins[..n], start);
      assert GlobalBins(bins, start)[..n] == GlobalBins(bins[..n], start);
    }
  }

  lemma {:induction false} FlattenWithout<T>(parts: seq<seq<T>>, i: nat)
    requires i < |parts|
    ensures multiset(Flatten(parts)) == multiset(Flatten(RemoveAt(parts, i))) + multiset(parts[i])
  {
    var n := |parts| - 1;
    if i == n {
      assert RemoveAt(parts, i) == parts[..n];
    } else {
      FlattenWithout(parts[..n], i);
      assert RemoveAt(parts, i) == RemoveAt(parts[..n], i) + [parts[n]];
      FlattenSnoc(RemoveAt(parts[..n], i), parts[n]);
    }
  }

  /** Reordering the parts reorders what they hold. */
  lemma {:induction false} SamePartsSameElements<T>(a: seq<seq<T>>, b: seq<seq<T>>)
    requires multiset(a) == multiset(b)
    ensures multiset(Flatten(a)) == multiset(Flatten(b))
    decreases |a|
  {
    if a == [] {
      assert |b| == |multiset(b)|;
    } else {
      assert a[0] in multiset(b);
      var i :| 0 <= i < |b| && b[i] == a[0];
      RemoveSame(a, 0, b, i);
      SamePartsSameElements(RemoveAt(a, 0), RemoveAt(b, i));
      FlattenWithout(a, 0);
      FlattenWithout(b, i);
    }
  }

  lemma RemoveSame<T>(a: seq<T>, i: nat, b: seq<T>, j: nat)
    requires i < |a| && j < |b| && a[i] == b[j] && multiset(a) == multiset(b)
    ensures multiset(RemoveAt(a, i)) == multiset(RemoveAt(b, j))
  {
    assert a == a[..i] + [a[i]] + a[i + 1..];
    assert b == b[..j] + [b[j]] + b[j + 1..];
    assert multiset(RemoveAt(a, i)) == multiset(a) - multiset{a[i]};
    assert multiset(RemoveAt(b, j)) == multiset(b) - multiset{b[j]};
  }

  lemma {:induction false} FlattenNested<T>(shares: seq<seq<seq<T>>>)
    ensures Flatten(seq(|shares|, s requires 0 <= s < |shares| => Flatten(shares[s]))) == Flatten(Flatten(shares))
  {
    if shares != [] {
      var n := |shares| - 1;
      FlattenNested(shares[..n]);
      assert seq(|shares|, s requires 0 <= s < |shares| => Flatten(shares[s]))[..n]
          == seq(n, s requires 0 <= s < n => Flatten(shares[..n][s]));
      FlattenConcat(Flatten(shares[..n]), shares[n]);
    }
  }

  lemma {:induction false} AppendEachElements<T>(a: seq<seq<T>>, b: seq<seq<T>>)
    requires |a| == |b|
    ensures multiset(Flatten(AppendEach(a, b))) == multiset(Flatten(a)) + multiset(Flatten(b))
  {
    if a != [] {
      var n := |a| - 1;
      AppendEachElements(a[..n], b[..n]);
      assert AppendEach(a, b) == AppendEach(a[..n], b[..n]) + [a[n] + b[n]];
      FlattenSnoc(AppendEach(a[..n], b[..n]), a[n] + b[n]);
    }
  }

  lemma ChunkBinsHold(assignments: seq<seq<seq<nat>>>, padded: seq<nat>, l: Layout, capacity: int, c: nat)
    requires ArePackings(assignments, padded, l, capacity) && c < l.chunks
    ensures Holds(assignments[c], multiset(Range(0, l.batchSize)))
  {
    ChunkInRange(padded, l, c);
    assert IsChunkPacking(assignments[c], padded, l, c, capacity);
  }

  lemma DealingConserves(bins: seq<seq<nat>>, shards: nat)
    requires 0 < shards
    ensures multiset(Flatten(EachFlattened(Strides(bins, shards)))) == multiset(Flatten(bins))
  {
    StridesConserve(bins, shards);
    SamePartsSameElements(Flatten(Strides(bins, shards)), bins);
    FlattenNested(Strides(bins, shards));
  }

  /** Over all shards, chunk `c` contributes each of its positions exactly once. */
  lemma ChunkSharedOnce(assignments: seq<seq<seq<nat>>>, padded: seq<nat>, l: Layout, capacity: int, c: nat)
    requires ArePackings(assignments, padded, l, capacity) && c < l.chunks
    ensures 0 <= ChunkStart(l, c)
    ensures multiset(Flatten(EachFlattened(ChunkShares(assignments, l, c)))) == multiset(Range(ChunkStart(l, c), l.batchSize))
  {
    var start: nat := ChunkStart(l, c);
    ChunkBinsHold(assignments, padded, l, capacity, c);
    DealingConserves(GlobalBins(assignments[c], start), l.shards);
    FlattenGlobalBins(assignments[c], start);
    ShiftedElements(Flatten(assignments[c]), l.batchSize, start);
  }

  lemma ShardIndicesStep(assignments: seq<seq<seq<nat>>>, l: Layout, n: nat)
    requires n < |assignments| && 0 < l.shards
    ensures multiset(Flatten(ShardIndices(assignments, l, n + 1)))
         == multiset(Flatten(ShardIndices(assignments, l, n)))
          + multiset(Flatten(EachFlattened(ChunkShares(assignments, l, n))))
  {
    AppendEachElements(ShardIndices(assignments, l, n), EachFlattened(ChunkShares(assignments, l, n)));
  }

  /** One more chunk of positions. */
  lemma PositionsGrow(before: seq<nat>, chunk: seq<nat>, after: seq<nat>, start: nat, end: nat)
    requires PermutesRange(before, 0, start) && PermutesRange(chunk, start, end)
    requires multiset(after) == multiset(before) + multiset(chunk)
    ensures PermutesRange(after, 0, end)
  {
    RangesJoin(before, chunk, 0, start, end);
    assert multiset(before + chunk) == multiset(before) + multiset(chunk);
  }

  lemma ChunkFillsRange(assignments: seq<seq<seq<nat>>>, padded: seq<nat>, l: Layout, capacity: int, c: nat, start: nat,
                        end: nat)
    requires ArePackings(assignments, padded, l, capacity) && c < l.chunks
    requires start == ChunkStart(l, c) && end == start + l.batchSize
    ensures PermutesRange(Flatten(EachFlattened(ChunkShares(assignments, l, c))), start, end)
  {
    ChunkSharedOnce(assignments, padded, l, capacity, c);
    assert end - start == l.batchSize;
  }

  /** Adding lists that permute adjacent ranges one after the other fills the whole range. */
  lemma {:induction false} RangesFill(filled: seq<seq<nat>>, chunks: seq<seq<nat>>, borders: seq<nat>, n: nat)
    requires |filled| == |borders| == |chunks| + 1 && n <= |chunks| && filled[0] == [] && borders[0] == 0
    requires forall c :: 0 <= c < |chunks| ==> PermutesRange(chunks[c], borders[c], borders[c + 1])
    requires forall c :: 0 <= c < |chunks| ==> multiset(filled[c + 1]) == multiset(filled[c]) + multiset(chunks[c])
    ensures PermutesRange(filled[n], 0, borders[n])
  {
    if n > 0 {
      RangesFill(filled, chunks, borders, n - 1);
      PositionsGrow(filled[n - 1], chunks[n - 1], filled[n], borders[n - 1], borders[n]);
    }
  }

  /** All shards' positions after each number of chunks. */
  function FilledPositions(assignments: seq<seq<seq<nat>>>, l: Layout): (r: seq<seq<nat>>)
    requires 0 < l.shards
    ensures |r| == |assignments| + 1
  {
    seq(|assignments| + 1, c requires 0 <= c <= |assignments| && 0 < l.shards => Flatten(ShardIndices(assignments, l, c)))
  }

  /** All shards' positions in each chunk. */
  function ChunkPositions(assignments: seq<seq<seq<nat>>>, l: Layout): (r: seq<seq<nat>>)
    requires 0 < l.shards
    ensures |r| == |assignments|
  {
    seq(|assignments|, c requires 0 <= c < |assignments| && 0 < l.shards =>
      Flatten(EachFlattened(ChunkShares(assignments, l, c))))
  }

  lemma PositionsFill(assignments: seq<seq<seq<nat>>>, l: Layout, borders: seq<nat>)
    requires 0 < l.shards && |borders| == |assignments| + 1 && borders[0] == 0
    requires forall c :: 0 <= c < |assignments| ==>
                           PermutesRange(ChunkPositions(assignments, l)[c], borders[c], borders[c + 1])
    ensures PermutesRange(Flatten(ShardIndices(assignments, l, |assignments|)), 0, borders[|assignments|])
  {
    var filled, chunks := FilledPositions(assignments, l), ChunkPositions(assignments, l);
    forall c | 0 <= c < |chunks| ensures multiset(filled[c + 1]) == multiset(filled[c]) + multiset(chunks[c]) {
      PositionsStep(assignments, l, c);
    }
    NoPositions(assignments, l);
    RangesFill(filled, chunks, borders, |chunks|);
  }

  lemma NoPositions(assignments: seq<seq<seq<nat>>>, l: Layout)
    requires 0 < l.shards
    ensures FilledPositions(assignments, l)[0] == []
  {
    AllEmpty(ShardIndices(assignments, l, 0));
  }

  lemma PositionsStep(assignments: seq<seq<seq<nat>>>, l: Layout, c: nat)
    requires 0 < l.shards && c < |assignments|
    ensures multiset(FilledPositions(assignments, l)[c + 1])
         == multiset(FilledPositions(assignments, l)[c]) + multiset(ChunkPositions(assignments, l)[c])
  {
    FilledAt(assignments, l, c);
    FilledAt(assignments, l, c + 1);
    ShardIndicesStep(assignments, l, c);
  }

  lemma FilledAt(assignments: seq<seq<seq<nat>>>, l: Layout, c: nat)
    requires 0 < l.shards && c <= |assignments|
    ensures FilledPositions(assignments, l)[c] == Flatten(ShardIndices(assignments, l, c))
  {
  }

  lemma ShardIndicesPermute(assignments: seq<seq<seq<nat>>>, padded: seq<nat>, l: Layout, capacity: int)
    requires ArePackings(assignments, padded, l, capacity)
    ensures PermutesRange(Flatten(ShardIndices(assignments, l, l.chunks)), 0, |padded|)
  {
    var borders := Borders(0, l.batchSize, l.chunks);
    BordersAscend(0, l.batchSize, l.chunks);
    forall c | 0 <= c < |assignments| ensures PermutesRange(ChunkPositions(assignments, l)[c], borders[c], borders[c + 1]) {
      assert borders[c] == ChunkStart(l, c);
      ChunkFillsRange(assignments, padded, l, capacity, c, borders[c], borders[c + 1]);
    }
    PositionsFill(assignments, l, borders);
  }

  /** The returned indices: all shards' positions, shard after shard. */
  function PackedIndices(assignments: seq<seq<seq<nat>>>, l: Layout): seq<nat>
    requires 0 < l.shards
  {
    Flatten(ShardIndices(assignments, l, |assignments|))
  }

  lemma PackedIndicesPermute(assignments: seq<seq<seq<nat>>>, padded: seq<nat>, l: Layout, capacity: int)
    requires ArePackings(assignments, padded, l, capacity)
    ensures IsPermutation(PackedIndices(assignments, l), |padded|)
    ensures forall k :: 0 <= k < |PackedIndices(assignments, l)| ==> PackedIndices(assignments, l)[k] < |padded|
  {
    ShardIndicesPermute(assignments, padded, l, capacity);
    PermutationMeans(PackedIndices(assignments, l), |padded|);
  }

  // ---- Rows, batches and microbatches ----

  /** All positions are in the batch. */
  ghost predicate InBatch(indices: seq<nat>, n: nat) { forall k :: 0 <= k < |indices| ==> indices[k] < n }

  lemma {:induction false} SelectFlatten<T>(rows: seq<T>, parts: seq<seq<nat>>)
    requires InBatch(Flatten(parts), |rows|)
    ensures forall s :: 0 <= s < |parts| ==> InBatch(parts[s], |rows|)
    ensures Flatten(seq(|parts|, s requires 0 <= s < |parts| && InBatch(parts[s], |rows|) => Select(rows, parts[s])))
         == Select(rows, Flatten(parts))
  {
    if parts != [] {
      var n := |parts| - 1;
      assert Flatten(parts[..n]) == Flatten(parts)[..|Flatten(parts[..n])|];
      assert parts[n] == Flatten(parts)[|Flatten(parts[..n])|..];
      SelectFlatten(rows, parts[..n]);
      forall s | 0 <= s < |parts| ensures InBatch(parts[s], |rows|) {
        assert s < n ==> parts[s] == parts[..n][s];
      }
      var all := seq(|parts|, s requires 0 <= s < |parts| && InBatch(parts[s], |rows|) => Select(rows, parts[s]));
      assert all[..n] == seq(n, s requires 0 <= s < n && InBatch(parts[..n][s], |rows|) => Select(rows, parts[..n][s]));
      SelectConcat(rows, Flatten(parts[..n]), parts[n]);
    }
  }

  lemma PartsInBatch(assignments: seq<seq<seq<nat>>>, padded: seq<nat>, l: Layout, capacity: int)
    requires ArePackings(assignments, padded, l, capacity)
    ensures forall s :: 0 <= s < l.shards ==> InBatch(ShardIndices(assignments, l, l.chunks)[s], |padded|)
  {
    PackedIndicesPermute(assignments, padded, l, capacity);
    SelectFlatten(padded, ShardIndices(assignments, l, l.chunks));
  }

  /** The rows of every shard. */
  function PackedShards<T>(rows: seq<T>, parts: seq<seq<nat>>): seq<seq<T>>
    requires forall s :: 0 <= s < |parts| ==> InBatch(parts[s], |rows|)
  {
    seq(|parts|, s requires 0 <= s < |parts| && InBatch(parts[s], |rows|) => Select(rows, parts[s]))
  }

  /**
   * For any number of chunks and shards: the shards in order are the rows selected by the returned indices, these are
   * a permutation, and reordering by them restores the batch.
   */
  lemma PackedRoundTrip<T>(rows: seq<T>, assignments: seq<seq<seq<nat>>>, padded: seq<nat>, l: Layout, capacity: int)
    requires ArePackings(assignments, padded, l, capacity) && |rows| == |padded|
    ensures forall s :: 0 <= s < l.shards ==> InBatch(ShardIndices(assignments, l, l.chunks)[s], |rows|)
    ensures IsPermutation(PackedIndices(assignments, l), |rows|)
    ensures Reordered(Flatten(PackedShards(rows, ShardIndices(assignments, l, l.chunks))), PackedIndices(assignments, l)) == rows
  {
    PackedIndicesPermute(assignments, padded, l, capacity);
    SelectFlatten(rows, ShardIndices(assignments, l, l.chunks));
    ReorderUndoesSelect(rows, PackedIndices(assignments, l));
  }

  /** The recorded element counts of shard `s`. */
  function Counts(assignments: seq<seq<seq<nat>>>, l: Layout, s: nat): seq<nat>
    requires s < l.shards
  {
    seq(|assignments|, c requires 0 <= c < |assignments| && s < l.shards => |Flatten(ChunkShares(assignments, l, c)[s])|)
  }

  /** The counts locate every chunk in the shard. */
  lemma {:induction false} CountsLocate(assignments: seq<seq<seq<nat>>>, l: Layout, s: nat, c: nat)
    requires s < l.shards && c <= |assignments|
    ensures BatchStart(Counts(assignments, l, s), c) == |ShardIndices(assignments, l, c)[s]|
  {
    if c > 0 {
      CountsLocate(assignments, l, s, c - 1);
      BatchStartStep(Counts(assignments, l, s), c - 1);
    }
  }

  lemma {:induction false} EarlierIsPrefix(assignments: seq<seq<seq<nat>>>, l: Layout, s: nat, c: nat, n: nat)
    requires s < l.shards && c <= n <= |assignments|
    ensures ShardIndices(assignments, l, c)[s] <= ShardIndices(assignments, l, n)[s]
  {
    if c < n {
      EarlierIsPrefix(assignments, l, s, c, n - 1);
    }
  }

  /** Where the counts cut out chunk `c` of shard `s`, the shard has that chunk's bins and nothing else. */
  lemma ChunkOfShard(assignments: seq<seq<seq<nat>>>, l: Layout, s: nat, c: nat)
    requires s < l.shards && c < |assignments|
    ensures var counts := Counts(assignments, l, s);
      Cut(ShardIndices(assignments, l, |assignments|)[s], BatchStart(counts, c), BatchStart(counts, c + 1))
      == Flatten(ChunkShares(assignments, l, c)[s])
  {
    CountsLocate(assignments, l, s, c);
    CountsLocate(assignments, l, s, c + 1);
    EarlierIsPrefix(assignments, l, s, c + 1, |assignments|);
    CutOfPrefix(ShardIndices(assignments, l, |assignments|)[s], ShardIndices(assignments, l, c)[s],
                Flatten(ChunkShares(assignments, l, c)[s]));
  }

  lemma CutOfPrefix<T>(whole: seq<T>, before: seq<T>, part: seq<T>)
    requires before + part <= whole
    ensures Cut(whole, |before|, |before| + |part|) == part
  {
    assert whole[..|before| + |part|] == before + part;
  }

  lemma CutOfSelect<T>(rows: seq<T>, indices: seq<nat>, low: nat, high: nat)
    requires InBatch(indices, |rows|)
    ensures InBatch(Cut(indices, low, high), |rows|)
    ensures Cut(Select(rows, indices), low, high) == Select(rows, Cut(indices, low, high))
  {
  }

  /** `get_batch(c)` on shard `s`: the rows of the bins of chunk `c` that were dealt to `s`. */
  lemma GetBatchIsChunk<T>(rows: seq<T>, assignments: seq<seq<seq<nat>>>, l: Layout, s: nat, c: nat)
    requires s < l.shards && c < |assignments| && InBatch(ShardIndices(assignments, l, |assignments|)[s], |rows|)
    ensures InBatch(Flatten(ChunkShares(assignments, l, c)[s]), |rows|)
    ensures var counts := Counts(assignments, l, s);
      Cut(Select(rows, ShardIndices(assignments, l, |assignments|)[s]), BatchStart(counts, c), BatchStart(counts, c + 1))
      == Select(rows, Flatten(ChunkShares(assignments, l, c)[s]))
  {
    var counts := Counts(assignments, l, s);
    ChunkOfShard(assignments, l, s, c);
    CutOfSelect(rows, ShardIndices(assignments, l, |assignments|)[s], BatchStart(counts, c), BatchStart(counts, c + 1));
  }

  /** Cutting a batch by its table gives one microbatch for each bin, with exactly the bin's rows. */
  lemma MicrobatchIsBin<T>(rows: seq<T>, bins: seq<seq<nat>>, padded: seq<nat>, i: nat)
    requires InBatch(Flatten(bins), |rows|) && i < |bins|
    ensures InBatch(bins[i], |rows|)
    ensures |Microbatches(Select(rows, Flatten(bins)), IntervalsOf(bins), TokensOf(padded, bins))| == |bins|
    ensures Microbatches(Select(rows, Flatten(bins)), IntervalsOf(bins), TokensOf(padded, bins))[i] == Select(rows, bins[i])
  {
    IntervalIsOffset(bins, i);
    FlattenSlice(bins, i);
    CutOfSelect(rows, Flatten(bins), Offset(bins, i), Offset(bins, i + 1));
  }

  /** Every shard has the same number of microbatches in a chunk, at least one, and the `i`-th is the chunk's bin `s + i * shards`. */
  lemma SharesAreEven(assignments: seq<seq<seq<nat>>>, padded: seq<nat>, l: Layout, capacity: int, c: nat, s: nat)
    requires ArePackings(assignments, padded, l, capacity) && c < l.chunks && s < l.shards
    ensures 0 < |assignments[c]| / l.shards == |ChunkShares(assignments, l, c)[s]|
  {
    assert IsChunkPacking(assignments[c], padded, l, c, capacity);
    var n, q := |assignments[c]|, |assignments[c]| / l.shards;
    assert n == q * l.shards;
    assert q == 0 ==> n == 0;
    EveryNthAt(GlobalBins(assignments[c], ChunkStart(l, c)), s, l.shards, q);
  }

  lemma {:induction false} ShiftedBinSum(lengths: seq<nat>, chunk: seq<nat>, start: nat, bin: seq<nat>)
    requires start + |chunk| <= |lengths| && chunk == lengths[start..start + |chunk|] && InBatch(bin, |chunk|)
    ensures BinSum(lengths, Shifted(bin, start)) == BinSum(chunk, bin)
  {
    if bin != [] {
      var n := |bin| - 1;
      ShiftedBinSum(lengths, chunk, start, bin[..n]);
      assert Shifted(bin, start)[..n] == Shifted(bin[..n], start);
    }
  }

  lemma BinsInBatch(bins: seq<seq<nat>>, n: nat, j: nat)
    requires Holds(bins, multiset(Range(0, n))) && j < |bins|
    ensures InBatch(bins[j], n)
  {
    PermutationMeans(Flatten(bins), n);
    FlattenSlice(bins, j);
    var low, high := Offset(bins, j), Offset(bins, j + 1);
    assert Flatten(bins)[low..high] == bins[j];
  }

  /** The `i`-th microbatch of shard `s` in chunk `c` is the chunk's bin `s + i * shards`. */
  lemma MicrobatchAt(assignments: seq<seq<seq<nat>>>, padded: seq<nat>, l: Layout, capacity: int, c: nat, s: nat, i: nat)
    requires ArePackings(assignments, padded, l, capacity) && c < l.chunks && s < l.shards
    requires i < |ChunkShares(assignments, l, c)[s]|
    ensures 0 <= ChunkStart(l, c) && 0 <= s + i * l.shards < |assignments[c]|
    ensures ChunkShares(assignments, l, c)[s][i] == Shifted(assignments[c][s + i * l.shards], ChunkStart(l, c))
  {
    SharesAreEven(assignments, padded, l, capacity, c, s);
    assert IsChunkPacking(assignments[c], padded, l, c, capacity);
    assert |assignments[c]| == |assignments[c]| / l.shards * l.shards;
    EveryNthIndex(GlobalBins(assignments[c], ChunkStart(l, c)), s, l.shards, |assignments[c]| / l.shards, i);
  }

  lemma BinFits(bins: seq<seq<nat>>, padded: seq<nat>, start: nat, size: nat, capacity: int, j: nat)
    requires start + size <= |padded| && IsPacking(bins, padded[start..start + size], capacity) && j < |bins|
    ensures bins[j] != [] && BinSum(padded, Shifted(bins[j], start)) <= capacity
  {
    BinsInBatch(bins, size, j);
    ShiftedBinSum(padded, padded[start..start + size], start, bins[j]);
  }

  /** Every microbatch of every shard holds at least one row and at most `capacity` padded tokens. */
  lemma MicrobatchFits(assignments: seq<seq<seq<nat>>>, padded: seq<nat>, l: Layout, capacity: int, c: nat, s: nat, i: nat)
    requires ArePackings(assignments, padded, l, capacity) && c < l.chunks && s < l.shards
    requires i < |ChunkShares(assignments, l, c)[s]|
    ensures ChunkShares(assignments, l, c)[s][i] != []
    ensures TokensOf(padded, ChunkShares(assignments, l, c)[s])[i] <= capacity
  {
    MicrobatchAt(assignments, padded, l, capacity, c, s, i);
    ChunkInRange(padded, l, c);
    assert IsChunkPacking(assignments[c], padded, l, c, capacity);
    BinFits(assignments[c], padded, ChunkStart(l, c), l.batchSize, capacity, s + i * l.shards);
  }

  // ---- All microbatches of a chunk ----

  /** The microbatches that shard `s` is given for `get_batch(c)`. */
  function ShardMicrobatches<T>(shardRows: seq<T>, assignments: seq<seq<seq<nat>>>, padded: seq<nat>, l: Layout, s: nat,
                                c: nat): seq<seq<T>>
    requires s < l.shards && c < |assignments|
  {
    var counts, share := Counts(assignments, l, s), ChunkShares(assignments, l, c)[s];
    Microbatches(Cut(shardRows, BatchStart(counts, c), BatchStart(counts, c + 1)), IntervalsOf(share), TokensOf(padded, share))
  }

  /** They are the rows of the bins dealt to it. */
  lemma ShardMicrobatchesAreBins<T>(rows: seq<T>, assignments: seq<seq<seq<nat>>>, padded: seq<nat>, l: Layout, s: nat, c: nat)
    requires s < l.shards && c < |assignments| && InBatch(ShardIndices(assignments, l, |assignments|)[s], |rows|)
    ensures var share := ChunkShares(assignments, l, c)[s];
      && (forall i :: 0 <= i < |share| ==> InBatch(share[i], |rows|))
      && ShardMicrobatches(Select(rows, ShardIndices(assignments, l, |assignments|)[s]), assignments, padded, l, s, c)
         == PackedShards(rows, share)
  {
    var share := ChunkShares(assignments, l, c)[s];
    GetBatchIsChunk(rows, assignments, l, s, c);
    forall i | 0 <= i < |share|
      ensures InBatch(share[i], |rows|)
      ensures Microbatches(Select(rows, Flatten(share)), IntervalsOf(share), TokensOf(padded, share))[i] == Select(rows, share[i])
    {
      MicrobatchIsBin(rows, share, padded, i);
    }
  }

  /** All shards' microbatches of chunk `c`, shard after shard. */
  function ChunkMicrobatches<T>(rows: seq<T>, assignments: seq<seq<seq<nat>>>, padded: seq<nat>, l: Layout, c: nat)
    : seq<seq<seq<T>>>
    requires 0 < l.shards && c < |assignments|
    requires forall s :: 0 <= s < l.shards ==> InBatch(ShardIndices(assignments, l, |assignments|)[s], |rows|)
  {
    seq(l.shards, s requires 0 <= s < l.shards =>
      ShardMicrobatches(PackedShards(rows, ShardIndices(assignments, l, |assignments|))[s], assignments, padded, l, s, c))
  }

  lemma RowsOfRange<T>(rows: seq<T>, indices: seq<nat>, low: nat, high: nat)
    requires high <= |rows| && PermutesRange(indices, low, high)
    ensures InBatch(indices, |rows|)
    ensures multiset(Select(rows, indices)) == multiset(rows[low..high])
  {
    forall k | 0 <= k < |indices| ensures indices[k] < |rows| {
      assert indices[k] in multiset(indices);
      RangeCount(low, high - low, indices[k]);
    }
    SameIndicesSameRows(rows, indices, Range(low, high - low));
    assert Select(rows, Range(low, high - low)) == rows[low..high];
  }

  /** Selecting list by list and flattening is selecting by the flattened positions. */
  lemma {:induction false} SelectNested<T>(rows: seq<T>, shares: seq<seq<seq<nat>>>, all: seq<seq<seq<T>>>)
    requires |all| == |shares| && InBatch(Flatten(EachFlattened(shares)), |rows|)
    requires forall s, i :: 0 <= s < |shares| && 0 <= i < |shares[s]| ==> InBatch(shares[s][i], |rows|)
    requires forall s :: 0 <= s < |shares| ==> all[s] == PackedShards(rows, shares[s])
    ensures Flatten(Flatten(all)) == Select(rows, Flatten(EachFlattened(shares)))
  {
    if shares != [] {
      var n := |shares| - 1;
      var before, last := Flatten(EachFlattened(shares[..n])), Flatten(shares[n]);
      assert EachFlattened(shares)[..n] == EachFlattened(shares[..n]);
      assert Flatten(EachFlattened(shares)) == before + last;
      SplitInBatch(before, last, |rows|);
      SelectNested(rows, shares[..n], all[..n]);
      FlattenConcat(Flatten(all[..n]), all[n]);
      SelectFlatten(rows, shares[n]);
      SelectConcat(rows, before, last);
    }
  }

  lemma SplitInBatch(a: seq<nat>, b: seq<nat>, n: nat)
    requires InBatch(a + b, n)
    ensures InBatch(a, n) && InBatch(b, n)
  {
    assert forall k :: 0 <= k < |a| ==> a[k] == (a + b)[k];
    assert forall k :: 0 <= k < |b| ==> b[k] == (a + b)[|a| + k];
  }

  /** Microbatches of one shard: as many as every shard has, none empty and none above the cap. */
  ghost predicate AreFittingMicrobatches<T>(batches: seq<seq<T>>, assignments: seq<seq<seq<nat>>>, padded: seq<nat>,
                                            l: Layout, capacity: int, c: nat, s: nat)
    requires c < |assignments| && s < l.shards
  {
    && 0 < |assignments[c]| / l.shards == |batches| == |ChunkShares(assignments, l, c)[s]|
    && (forall i :: 0 <= i < |batches| ==>
          batches[i] != [] && TokensOf(padded, ChunkShares(assignments, l, c)[s])[i] <= capacity)
  }

  lemma ShardMicrobatchesFit<T>(rows: seq<T>, assignments: seq<seq<seq<nat>>>, padded: seq<nat>, l: Layout, capacity: int,
                                c: nat, s: nat)
    requires ArePackings(assignments, padded, l, capacity) && |rows| == |padded| && c < l.chunks && s < l.shards
    requires InBatch(ShardIndices(assignments, l, |assignments|)[s], |rows|)
    ensures AreFittingMicrobatches(
              ShardMicrobatches(Select(rows, ShardIndices(assignments, l, |assignments|)[s]), assignments, padded, l, s, c),
              assignments, padded, l, capacity, c, s)
  {
    var share := ChunkShares(assignments, l, c)[s];
    ShardMicrobatchesAreBins(rows, assignments, padded, l, s, c);
    SharesAreEven(assignments, padded, l, capacity, c, s);
    forall i | 0 <= i < |share| ensures share[i] != [] && TokensOf(padded, share)[i] <= capacity {
      MicrobatchFits(assignments, padded, l, capacity, c, s, i);
    }
  }

  ghost predicate AllFitting<T>(all: seq<seq<seq<T>>>, assignments: seq<seq<seq<nat>>>, padded: seq<nat>, l: Layout,
                                capacity: int, c: nat)
    requires c < |assignments|
  {
    |all| == l.shards && forall s :: 0 <= s < l.shards ==> AreFittingMicrobatches(all[s], assignments, padded, l, capacity, c, s)
  }

  lemma ChunkMicrobatchesFit<T>(rows: seq<T>, assignments: seq<seq<seq<nat>>>, padded: seq<nat>, l: Layout, capacity: int,
                                c: nat)
    requires ArePackings(assignments, padded, l, capacity) && |rows| == |padded| && c < l.chunks
    requires forall s :: 0 <= s < l.shards ==> InBatch(ShardIndices(assignments, l, |assignments|)[s], |rows|)
    ensures AllFitting(ChunkMicrobatches(rows, assignments, padded, l, c), assignments, padded, l, capacity, c)
  {
    forall s | 0 <= s < l.shards
      ensures AreFittingMicrobatches(ChunkMicrobatches(rows, assignments, padded, l, c)[s], assignments, padded, l, capacity, c, s)
    {
      ShardMicrobatchesFit(rows, assignments, padded, l, capacity, c, s);
    }
  }

  lemma MicrobatchesSelect<T>(rows: seq<T>, assignments: seq<seq<seq<nat>>>, padded: seq<nat>, l: Layout, c: nat)
    requires 0 < l.shards && c < |assignments|
    requires forall s :: 0 <= s < l.shards ==> InBatch(ShardIndices(assignments, l, |assignments|)[s], |rows|)
    requires InBatch(Flatten(EachFlattened(ChunkShares(assignments, l, c))), |rows|)
    ensures Flatten(Flatten(ChunkMicrobatches(rows, assignments, padded, l, c)))
         == Select(rows, Flatten(EachFlattened(ChunkShares(assignments, l, c))))
  {
    var shares := ChunkShares(assignments, l, c);
    forall s, i | 0 <= s < |shares| && 0 <= i < |shares[s]| ensures InBatch(shares[s][i], |rows|) {
      ShardMicrobatchesAreBins(rows, assignments, padded, l, s, c);
    }
    forall s | 0 <= s < |shares|
      ensures ChunkMicrobatches(rows, assignments, padded, l, c)[s] == PackedShards(rows, shares[s])
    {
      ShardMicrobatchesAreBins(rows, assignments, padded, l, s, c);
    }
    SelectNested(rows, shares, ChunkMicrobatches(rows, assignments, padded, l, c));
  }

  lemma MicrobatchesHoldRange<T>(rows: seq<T>, assignments: seq<seq<seq<nat>>>, padded: seq<nat>, l: Layout, c: nat,
                                 low: nat, high: nat)
    requires 0 < l.shards && c < |assignments| && high <= |rows|
    requires PermutesRange(Flatten(EachFlattened(ChunkShares(assignments, l, c))), low, high)
    requires forall s :: 0 <= s < l.shards ==> InBatch(ShardIndices(assignments, l, |assignments|)[s], |rows|)
    ensures multiset(Flatten(Flatten(ChunkMicrobatches(rows, assignments, padded, l, c)))) == multiset(Cut(rows, low, high))
  {
    RowsOfRange(rows, Flatten(EachFlattened(ChunkShares(assignments, l, c))), low, high);
    MicrobatchesSelect(rows, assignments, padded, l, c);
  }

  /** The rows of chunk `c`. */
  function ChunkRows<T>(rows: seq<T>, l: Layout, c: nat): seq<T> {
    Cut(rows, ChunkStart(l, c), ChunkStart(l, c) + l.batchSize)
  }

  lemma ChunkRowsHeld<T>(rows: seq<T>, assignments: seq<seq<seq<nat>>>, padded: seq<nat>, l: Layout, capacity: int, c: nat,
                         low: nat, high: nat)
    requires ArePackings(assignments, padded, l, capacity) && c < l.chunks && high <= |rows|
    requires low == ChunkStart(l, c) && high == low + l.batchSize
    requires forall s :: 0 <= s < l.shards ==> InBatch(ShardIndices(assignments, l, |assignments|)[s], |rows|)
    ensures multiset(Flatten(Flatten(ChunkMicrobatches(rows, assignments, padded, l, c)))) == multiset(ChunkRows(rows, l, c))
  {
    ChunkFillsRange(assignments, padded, l, capacity, c, low, high);
    MicrobatchesHoldRange(rows, assignments, padded, l, c, low, high);
    ChunkRowsCut(rows, l, c, low, high);
  }

  lemma ChunkRowsCut<T>(rows: seq<T>, l: Layout, c: nat, low: nat, high: nat)
    requires low == ChunkStart(l, c) && high == low + l.batchSize
    ensures ChunkRows(rows, l, c) == Cut(rows, low, high)
  {
  }

  /**
   * End to end: over all shards, the microbatches of `get_batch(c)` hold the rows of chunk `c`, each exactly as often as
   * the batch has it there. Every shard has the same number of them, none is empty and none exceeds the cap.
   */
  lemma MicrobatchesHoldChunk<T>(rows: seq<T>, assignments: seq<seq<seq<nat>>>, padded: seq<nat>, l: Layout, capacity: int,
                                 c: nat)
    requires ArePackings(assignments, padded, l, capacity) && |rows| == |padded| && c < l.chunks
    ensures forall s :: 0 <= s < l.shards ==> InBatch(ShardIndices(assignments, l, |assignments|)[s], |rows|)
    ensures multiset(Flatten(Flatten(ChunkMicrobatches(rows, assignments, padded, l, c)))) == multiset(ChunkRows(rows, l, c))
    ensures AllFitting(ChunkMicrobatches(rows, assignments, padded, l, c), assignments, padded, l, capacity, c)
  {
    PartsInBatch(assignments, padded, l, capacity);
    ChunkInRange(padded, l, c);
    var low: nat := ChunkStart(l, c);
    ChunkRowsHeld(rows, assignments, padded, l, capacity, c, low, low + l.batchSize);
    ChunkMicrobatchesFit(rows, assignments, padded, l, capacity, c);
  }

  // ---- The whole of packed sharding ----

  /** Lengths padded up to a multiple. */
  function PaddedLengths(lengths: seq<nat>, multiple: nat): seq<nat>
    requires 0 < multiple
  {
    seq(|lengths|, i requires 0 <= i < |lengths| => (lengths[i] + multiple - 1) / multiple * multiple)
  }

  /** Every length padded to the least multiple that holds it. */
  ghost predicate AreLeastMultiples(padded: seq<nat>, lengths: seq<nat>, multiple: nat)
    requires 0 < multiple
  {
    |padded| == |lengths| && forall i :: 0 <= i < |lengths| ==> IsLeastMultiple(padded[i], lengths[i], multiple)
  }

  lemma PaddedLengthsAreLeast(lengths: seq<nat>, multiple: nat)
    requires 0 < multiple
    ensures AreLeastMultiples(PaddedLengths(lengths, multiple), lengths, multiple)
  {
    forall i | 0 <= i < |lengths| ensures IsLeastMultiple(PaddedLengths(lengths, multiple)[i], lengths[i], multiple) {
      RoundedUpIsLeast(lengths[i], multiple);
    }
  }

  /** The length recorded for every microbatch is the sum of its rows' padded lengths, and within the cap. */
  ghost predicate RecordsLengths<T>(objects: seq<BatchedDataDict<T>>, assignments: seq<seq<seq<nat>>>, padded: seq<nat>,
                                    l: Layout, capacity: int)
    reads objects
  {
    && |objects| == l.shards
    && (forall s :: 0 <= s < l.shards ==> objects[s].microBatchLengths.Some?)
    && (forall s, c :: 0 <= s < l.shards && 0 <= c < l.chunks && c < |assignments| ==>
          && c < |objects[s].microBatchLengths.value|
          && AreLengthsOf(objects[s].microBatchLengths.value[c], ChunkShares(assignments, l, c)[s], padded, capacity))
  }

  ghost predicate AreLengthsOf(tokens: seq<nat>, bins: seq<seq<nat>>, padded: seq<nat>, capacity: int) {
    |tokens| == |bins| && forall i :: 0 <= i < |bins| ==> tokens[i] == SumOf(padded, bins[i]) <= capacity
  }

  /** The sum of the entries at the given positions. */
  function SumOf(padded: seq<nat>, positions: seq<nat>): nat {
    if positions == [] then 0
    else
      var p := positions[|positions| - 1];
      SumOf(padded, positions[..|positions| - 1]) + (if p < |padded| then padded[p] else 0)
  }

  lemma {:induction false} SumOfIsBinSum(padded: seq<nat>, bin: seq<nat>)
    ensures SumOf(padded, bin) == BinSum(padded, bin)
  {
    if bin != [] {
      var n := |bin| - 1;
      SumOfIsBinSum(padded, bin[..n]);
      assert bin == bin[..n] + [bin[n]];
      BinSumSnoc(padded, bin[..n], bin[n]);
    }
  }

  lemma ShardsRecordLengths<T>(objects: seq<BatchedDataDict<T>>, indices: seq<nat>, rows: seq<T>,
                               assignments: seq<seq<seq<nat>>>, padded: seq<nat>, l: Layout, capacity: int)
    requires ArePackedShards(objects, indices, rows, assignments, padded, l, capacity)
    ensures RecordsLengths(objects, assignments, padded, l, capacity)
  {
    forall s, c | 0 <= s < l.shards && 0 <= c < l.chunks
      ensures AreLengthsOf(TokensOf(padded, ChunkShares(assignments, l, c)[s]), ChunkShares(assignments, l, c)[s], padded,
                           capacity)
    {
      var bins := ChunkShares(assignments, l, c)[s];
      SharesAreEven(assignments, padded, l, capacity, c, s);
      forall i | 0 <= i < |bins| ensures TokensOf(padded, bins)[i] == SumOf(padded, bins[i]) <= capacity {
        SumOfIsBinSum(padded, bins[i]);
        MicrobatchFits(assignments, padded, l, capacity, c, s, i);
      }
    }
    forall s | 0 <= s < l.shards ensures IsPackedShard(objects[s], rows, assignments, padded, l, s) {
    }
  }

  /** One algorithm for each chunk; a shuffle orders the chunk's own positions. */
  ghost predicate ForEachChunk(algorithms: seq<Algorithm>, l: Layout) {
    && |algorithms| == l.chunks
    && forall c :: 0 <= c < l.chunks && algorithms[c].FirstFitShuffle? ==> IsPermutation(algorithms[c].order, l.batchSize)
  }

  /** The padded lengths of chunk `c`. */
  function ChunkLengths(padded: seq<nat>, l: Layout, c: nat): seq<nat> {
    Cut(padded, ChunkStart(l, c), ChunkStart(l, c) + l.batchSize)
  }

  /** Every chunk's algorithm accepts the chunk. */
  ghost predicate AllPackable(padded: seq<nat>, l: Layout, capacity: int, algorithms: seq<Algorithm>) {
    forall c :: 0 <= c < l.chunks && c < |algorithms| ==> Packable(algorithms[c], ChunkLengths(padded, l, c), capacity)
  }

  /** A chunk can be shared out evenly, so there are at least as many sequences as shards. */
  lemma ChunkSharesOut(padded: seq<nat>, l: Layout, c: nat)
    requires Covers(padded, l) && c < l.chunks
    ensures |ChunkLengths(padded, l, c)| == l.batchSize >= l.shards > 0 && l.batchSize % l.shards == 0
  {
    ChunkInRange(padded, l, c);
    ModUnique(l.batchSize, l.shardSize, 0, l.shards);
    RowWithin(l.shardSize - 1, l.shardSize, l.shards);
  }

  /** Packs one chunk's padded lengths. */
  method PackChunk(padded: seq<nat>, l: Layout, c: nat, capacity: int, algorithm: Algorithm)
    returns (r: Result<seq<seq<nat>>, PackError>)
    requires Covers(padded, l) && c < l.chunks
    requires algorithm.FirstFitShuffle? ==> IsPermutation(algorithm.order, l.batchSize)
    ensures r.Ok? <==> Packable(algorithm, ChunkLengths(padded, l, c), capacity)
    ensures r.Ok? ==> IsChunkPacking(r.value, padded, l, c, capacity)
    ensures r.Ok? ==> PackedBy(algorithm, r.value, ChunkLengths(padded, l, c), capacity, l.shards)
  {
    ChunkInRange(padded, l, c);
    ChunkSharesOut(padded, l, c);
    r := Pack(algorithm, ChunkLengths(padded, l, c), capacity, l.shards);
  }

  /** Chunk `c` is packable, and packed as its algorithm does it, with as many bins as the shards need. */
  ghost predicate ChunkPackedBy(algorithm: Algorithm, bins: seq<seq<nat>>, padded: seq<nat>, l: Layout, c: nat, capacity: int)
    requires 0 < l.shards
  {
    && Packable(algorithm, ChunkLengths(padded, l, c), capacity)
    && IsChunkPacking(bins, padded, l, c, capacity)
    && PackedBy(algorithm, bins, ChunkLengths(padded, l, c), capacity, l.shards)
  }

  /** The chunks so far, from the first: each is packed as its algorithm does it. */
  ghost predicate PackedByAlgorithms(assignments: seq<seq<seq<nat>>>, padded: seq<nat>, l: Layout, capacity: int,
                                     algorithms: seq<Algorithm>)
    requires 0 < l.shards && |assignments| <= |algorithms|
  {
    assignments == [] ||
    var n := |assignments| - 1;
    PackedByAlgorithms(assignments[..n], padded, l, capacity, algorithms)
    && ChunkPackedBy(algorithms[n], assignments[n], padded, l, n, capacity)
  }

  lemma PackedNext(assignments: seq<seq<seq<nat>>>, padded: seq<nat>, l: Layout, capacity: int, algorithms: seq<Algorithm>,
                   bins: seq<seq<nat>>)
    requires 0 < l.shards && |assignments| < |algorithms|
    requires PackedByAlgorithms(assignments, padded, l, capacity, algorithms)
    requires ChunkPackedBy(algorithms[|assignments|], bins, padded, l, |assignments|, capacity)
    ensures PackedByAlgorithms(assignments + [bins], padded, l, capacity, algorithms)
  {
    assert (assignments + [bins])[..|assignments|] == assignments;
  }

  lemma {:induction false} ChunkIsPackedBy(assignments: seq<seq<seq<nat>>>, padded: seq<nat>, l: Layout, capacity: int,
                                           algorithms: seq<Algorithm>, c: nat)
    requires 0 < l.shards && c < |assignments| <= |algorithms|
    requires PackedByAlgorithms(assignments, padded, l, capacity, algorithms)
    ensures ChunkPackedBy(algorithms[c], assignments[c], padded, l, c, capacity)
  {
    if c < |assignments| - 1 {
      ChunkIsPackedBy(assignments[..|assignments| - 1], padded, l, capacity, algorithms, c);
    }
  }

  lemma AllPacked(assignments: seq<seq<seq<nat>>>, padded: seq<nat>, l: Layout, capacity: int, algorithms: seq<Algorithm>)
    requires Covers(padded, l) && |assignments| == l.chunks <= |algorithms|
    requires PackedByAlgorithms(assignments, padded, l, capacity, algorithms)
    ensures AllPackable(padded, l, capacity, algorithms) && ArePackings(assignments, padded, l, capacity)
  {
    forall c | 0 <= c < l.chunks
      ensures Packable(algorithms[c], ChunkLengths(padded, l, c), capacity)
      ensures IsChunkPacking(assignments[c], padded, l, c, capacity)
    {
      ChunkIsPackedBy(assignments, padded, l, capacity, algorithms, c);
    }
  }

  /** Packs every chunk's padded lengths; `algorithms` says how, chunk by chunk, since a shuffle is drawn anew each time. */
  method PackChunks(padded: seq<nat>, l: Layout, capacity: int, algorithms: seq<Algorithm>)
    returns (r: Result<seq<seq<seq<nat>>>, ShardError>)
    requires Covers(padded, l) && ForEachChunk(algorithms, l)
    ensures r.Ok? <==> AllPackable(padded, l, capacity, algorithms)
    ensures r.Ok? ==> ArePackings(r.value, padded, l, capacity)
    ensures r.Ok? ==>
      |r.value| == l.chunks == |algorithms| && PackedByAlgorithms(r.value, padded, l, capacity, algorithms)
  {
    var assignments: seq<seq<seq<nat>>> := [];
    for c := 0 to l.chunks
      invariant |assignments| == c && PackedByAlgorithms(assignments, padded, l, capacity, algorithms)
    {
      var bins := PackChunk(padded, l, c, capacity, algorithms[c]);
      if bins.Err? {
        return Err(CannotPack);
      }
      PackedNext(assignments, padded, l, capacity, algorithms, bins.value);
      assignments := assignments + [bins.value];
    }
    AllPacked(assignments, padded, l, capacity, algorithms);
    return Ok(assignments);
  }

  /** What dealing one chunk's bins left behind: for each shard its positions, intervals and token counts. */
  datatype Dealt = Dealt(indices: seq<seq<nat>>, intervals: seq<seq<(nat, nat)>>, tokens: seq<seq<nat>>)

  ghost predicate IsDealt(d: Dealt, assignments: seq<seq<seq<nat>>>, padded: seq<nat>, l: Layout, c: nat)
    requires c < |assignments| && 0 < l.shards
  {
    var shares := ChunkShares(assignments, l, c);
    d.indices == EachFlattened(shares) && d.intervals == EachIntervals(shares) && d.tokens == EachTokens(padded, shares)
  }

  lemma ShardIndicesSnoc(assignments: seq<seq<seq<nat>>>, l: Layout, n: nat)
    requires n < |assignments| && 0 < l.shards
    ensures ShardIndices(assignments, l, n + 1)
         == AppendEach(ShardIndices(assignments, l, n), EachFlattened(ChunkShares(assignments, l, n)))
  {
  }

  /** Deals every chunk's bins and gathers each shard's positions. */
  method DealChunks(assignments: seq<seq<seq<nat>>>, padded: seq<nat>, l: Layout)
    returns (indices: seq<seq<nat>>, dealt: seq<Dealt>)
    requires 0 < l.shards
    ensures indices == ShardIndices(assignments, l, |assignments|)
    ensures |dealt| == |assignments| && forall c :: 0 <= c < |dealt| ==> IsDealt(dealt[c], assignments, padded, l, c)
  {
    indices, dealt := ShardIndices(assignments, l, 0), [];
    for c := 0 to |assignments|
      invariant indices == ShardIndices(assignments, l, c)
      invariant |dealt| == c && forall k :: 0 <= k < c ==> IsDealt(dealt[k], assignments, padded, l, k)
    {
      NonNegative(c, l.batchSize);
      var chunk, intervals, tokens := DealBins(GlobalBins(assignments[c], ChunkStart(l, c)), padded, l.shards);
      assert IsDealt(Dealt(chunk, intervals, tokens), assignments, padded, l, c);
      ShardIndicesSnoc(assignments, l, c);
      indices := AppendEach(indices, chunk);
      dealt := dealt + [Dealt(chunk, intervals, tokens)];
    }
  }

  /** The tables and counts that shard `s` is owed. */
  ghost predicate AreTablesOf(intervals: seq<seq<(nat, nat)>>, tokens: seq<seq<nat>>, assignments: seq<seq<seq<nat>>>,
                              padded: seq<nat>, l: Layout, s: nat)
    requires s < l.shards
  {
    && |intervals| == |tokens| <= |assignments|
    && (forall c :: 0 <= c < |intervals| ==> intervals[c] == IntervalsOf(ChunkShares(assignments, l, c)[s]))
    && (forall c :: 0 <= c < |tokens| ==> tokens[c] == TokensOf(padded, ChunkShares(assignments, l, c)[s]))
  }

  /** A shard with the rows, tables and counts that the dealt bins give it. */
  ghost predicate IsPackedShard<T>(shard: BatchedDataDict<T>, rows: seq<T>, assignments: seq<seq<seq<nat>>>, padded: seq<nat>,
                                   l: Layout, s: nat)
    requires s < l.shards && InBatch(ShardIndices(assignments, l, |assignments|)[s], |rows|)
    reads shard
  {
    && shard.rows == Select(rows, ShardIndices(assignments, l, |assignments|)[s])
    && shard.elemCountsPerGb == Some(Counts(assignments, l, s))
    && shard.microBatchIndices.Some? && shard.microBatchLengths.Some?
    && |shard.microBatchIndices.value| == |assignments|
    && AreTablesOf(shard.microBatchIndices.value, shard.microBatchLengths.value, assignments, padded, l, s)
  }

  /** What shard `s` was dealt of one chunk. */
  lemma DealtTables(d: Dealt, assignments: seq<seq<seq<nat>>>, padded: seq<nat>, l: Layout, c: nat, s: nat)
    requires c < |assignments| && s < l.shards && IsDealt(d, assignments, padded, l, c)
    ensures s < |d.intervals| && s < |d.tokens| && s < |d.indices|
    ensures d.intervals[s] == IntervalsOf(ChunkShares(assignments, l, c)[s])
    ensures d.tokens[s] == TokensOf(padded, ChunkShares(assignments, l, c)[s])
    ensures |d.indices[s]| == |Flatten(ChunkShares(assignments, l, c)[s])|
  {
  }

  /** What shard `s` is owed, chunk by chunk. */
  function IntervalTable(assignments: seq<seq<seq<nat>>>, l: Layout, s: nat): (r: seq<seq<(nat, nat)>>)
    requires s < l.shards
    ensures |r| == |assignments|
  {
    seq(|assignments|, c requires 0 <= c < |assignments| && s < l.shards => IntervalsOf(ChunkShares(assignments, l, c)[s]))
  }

  function TokenTable(padded: seq<nat>, assignments: seq<seq<seq<nat>>>, l: Layout, s: nat): (r: seq<seq<nat>>)
    requires s < l.shards
    ensures |r| == |assignments|
  {
    seq(|assignments|, c requires 0 <= c < |assignments| && s < l.shards => TokensOf(padded, ChunkShares(assignments, l, c)[s]))
  }

  lemma PrefixNext<T>(s: seq<T>, c: nat, x: T)
    requires c < |s| && x == s[c]
    ensures s[..c] + [x] == s[..c + 1]
  {
  }

  /** Shard `s`'s tables, chunk by chunk. */
  method AssembleTables(dealt: seq<Dealt>, assignments: seq<seq<seq<nat>>>, padded: seq<nat>, l: Layout, s: nat)
    returns (intervals: seq<seq<(nat, nat)>>, tokens: seq<seq<nat>>, counts: seq<nat>)
    requires s < l.shards && |dealt| == |assignments|
    requires forall c :: 0 <= c < |dealt| ==> IsDealt(dealt[c], assignments, padded, l, c)
    ensures |intervals| == |assignments| && AreTablesOf(intervals, tokens, assignments, padded, l, s)
    ensures counts == Counts(assignments, l, s)
  {
    intervals, tokens, counts := [], [], [];
    for c := 0 to |dealt|
      invariant intervals == IntervalTable(assignments, l, s)[..c] && tokens == TokenTable(padded, assignments, l, s)[..c]
      invariant counts == Counts(assignments, l, s)[..c]
    {
      DealtTables(dealt[c], assignments, padded, l, c, s);
      PrefixNext(IntervalTable(assignments, l, s), c, dealt[c].intervals[s]);
      PrefixNext(TokenTable(padded, assignments, l, s), c, dealt[c].tokens[s]);
      PrefixNext(Counts(assignments, l, s), c, |dealt[c].indices[s]|);
      intervals, tokens := intervals + [dealt[c].intervals[s]], tokens + [dealt[c].tokens[s]];
      counts := counts + [|dealt[c].indices[s]|];
    }
    TablesDone(assignments, padded, l, s);
  }

  lemma TablesDone(assignments: seq<seq<seq<nat>>>, padded: seq<nat>, l: Layout, s: nat)
    requires s < l.shards
    ensures var intervals, tokens := IntervalTable(assignments, l, s), TokenTable(padded, assignments, l, s);
      && AreTablesOf(intervals, tokens, assignments, padded, l, s)
      && intervals[..|assignments|] == intervals && tokens[..|assignments|] == tokens
  {
  }

  method AssembleShards<T>(rows: seq<T>, indices: seq<seq<nat>>, dealt: seq<Dealt>, assignments: seq<seq<seq<nat>>>,
                           padded: seq<nat>, l: Layout)
    returns (objects: seq<BatchedDataDict<T>>)
    requires 0 < l.shards && |dealt| == |assignments|
    requires indices == ShardIndices(assignments, l, |assignments|)
    requires forall s :: 0 <= s < l.shards ==> InBatch(indices[s], |rows|)
    requires forall c :: 0 <= c < |dealt| ==> IsDealt(dealt[c], assignments, padded, l, c)
    ensures |objects| == l.shards
    ensures forall s :: 0 <= s < l.shards ==> fresh(objects[s]) && IsPackedShard(objects[s], rows, assignments, padded, l, s)
  {
    objects := [];
    for s := 0 to l.shards
      invariant |objects| == s
      invariant forall k :: 0 <= k < s ==> fresh(objects[k]) && IsPackedShard(objects[k], rows, assignments, padded, l, k)
    {
      var intervals, tokens, counts := AssembleTables(dealt, assignments, padded, l, s);
      var shard := new BatchedDataDict<T>(Select(rows, indices[s]));
      shard.microBatchIndices, shard.microBatchLengths := Some(intervals), Some(tokens);
      shard.elemCountsPerGb := Some(counts);
      objects := objects + [shard];
    }
  }

  /** What the caller gets: one fresh shard for each rank, and the indices to undo the packing with. */
  ghost predicate ArePackedShards<T>(objects: seq<BatchedDataDict<T>>, indices: seq<nat>, rows: seq<T>,
                                     assignments: seq<seq<seq<nat>>>, padded: seq<nat>, l: Layout, capacity: int)
    reads objects
  {
    && ArePackings(assignments, padded, l, capacity)
    && |rows| == |padded|
    && |objects| == l.shards
    && indices == PackedIndices(assignments, l)
    && (forall s :: 0 <= s < l.shards ==> InBatch(ShardIndices(assignments, l, |assignments|)[s], |rows|))
    && (forall s :: 0 <= s < l.shards ==> IsPackedShard(objects[s], rows, assignments, padded, l, s))
  }

  /** The batch is not empty and divides as it must, and every chunk can be packed. */
  ghost predicate CanShardPacked(lengths: seq<nat>, shards: nat, batchSize: Option<nat>, multiple: nat, capacity: int,
                                 algorithms: seq<Algorithm>)
  {
    var layout := MakeLayout(|lengths|, shards, batchSize, false);
    && layout.Ok? && 0 < layout.value.chunks && 0 < multiple
    && AllPackable(PaddedLengths(lengths, multiple), layout.value, capacity, algorithms)
  }

  /** `shard_by_batch_size` with sequence packing. */
  method ShardForSequencePacking<T>(batch: BatchedDataDict<T>, lengths: seq<nat>, shards: nat, batchSize: Option<nat>,
                                    multiple: nat, capacity: int, algorithms: seq<Algorithm>)
    returns (r: Result<(seq<BatchedDataDict<T>>, seq<nat>), ShardError>, ghost assignments: seq<seq<seq<nat>>>)
    requires |lengths| == |batch.rows|
    requires var l := MakeLayout(|batch.rows|, shards, batchSize, false); l.Ok? ==> ForEachChunk(algorithms, l.value)
    ensures r.Ok? <==> CanShardPacked(lengths, shards, batchSize, multiple, capacity, algorithms)
    ensures r.Ok? ==> fresh(r.value.0)
    ensures r.Ok? ==>
      ArePackedShards(r.value.0, r.value.1, batch.rows, assignments, PaddedLengths(lengths, multiple),
                      MakeLayout(|batch.rows|, shards, batchSize, false).value, capacity)
    ensures r.Ok? ==>
      && AreLeastMultiples(PaddedLengths(lengths, multiple), lengths, multiple)
      && RecordsLengths(r.value.0, assignments, PaddedLengths(lengths, multiple),
                        MakeLayout(|batch.rows|, shards, batchSize, false).value, capacity)
    ensures r.Ok? ==>
      |assignments| <= |algorithms| &&
      PackedByAlgorithms(assignments, PaddedLengths(lengths, multiple),
                         MakeLayout(|batch.rows|, shards, batchSize, false).value, capacity, algorithms)
  {
    assignments := [];
    var layout := MakeLayout(|batch.rows|, shards, batchSize, false);
    if layout.Err? {
      return Err(layout.error), [];
    }
    if layout.value.chunks == 0 {
      return Err(EmptyBatch), [];
    }
    if multiple == 0 {
      return Err(DivisionByZero), [];
    }
    var l, padded := layout.value, PaddedLengths(lengths, multiple);
    var packed := PackChunks(padded, l, capacity, algorithms);
    if packed.Err? {
      return Err(packed.error), [];
    }
    assignments := packed.value;
    PartsInBatch(assignments, padded, l, capacity);
    var indices, dealt := DealChunks(packed.value, padded, l);
    var objects := AssembleShards(batch.rows, indices, dealt, packed.value, padded, l);
    PaddedLengthsAreLeast(lengths, multiple);
    ShardsRecordLengths(objects, Flatten(indices), batch.rows, assignments, padded, l, capacity);
    return Ok((objects, Flatten(indices))), assignments;
  }
}
