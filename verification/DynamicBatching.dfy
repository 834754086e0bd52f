/**
 * Dynamic batching: within each chunk the rows are sorted by length and dealt to the shards in strides, and then each
 * shard's share of a chunk is split greedily into microbatches under a token budget.
 */
module DynamicBatching {
  import opened Seqs
  import opened Lists
  import opened BatchedDataDicts

  // ---- Sorting and dealing ----

  /** The positions of chunk `c`, shortest row first. */
  function SortedChunk(lengths: seq<nat>, l: Layout, c: nat): (r: seq<nat>)
    requires ChunkStart(l, c) + l.batchSize <= |lengths|
    ensures |r| == l.batchSize
  {
    Shifted(ArgSort(lengths[ChunkStart(l, c)..ChunkStart(l, c) + l.batchSize]), ChunkStart(l, c))
  }

  function Shifted(s: seq<nat>, offset: nat): seq<nat> {
    seq(|s|, i requires 0 <= i < |s| => s[i] + offset)
  }

  /** The positions of chunk `c` in shard order: every shard's stride of the sorted chunk, one after the other. */
  function DealtChunk(lengths: seq<nat>, l: Layout, c: nat): seq<nat>
    requires ChunkStart(l, c) + l.batchSize <= |lengths| && 0 < l.shards
  {
    Flatten(Strides(SortedChunk(lengths, l, c), l.shards))
  }

  ghost predicate Covers(lengths: seq<nat>, l: Layout) { l.Even() && l.chunks * l.batchSize == |lengths| }

  lemma ChunkInRange(lengths: seq<nat>, l: Layout, c: nat)
    requires Covers(lengths, l) && c < l.chunks
    ensures 0 <= ChunkStart(l, c) && ChunkStart(l, c) + l.batchSize <= |lengths|
  {
    RowWithin(c, l.chunks, l.batchSize);
  }

  /** The dealt positions of the first `n` chunks. */
  function DealtChunks(lengths: seq<nat>, l: Layout, n: nat): (r: seq<seq<nat>>)
    requires Covers(lengths, l) && n <= l.chunks
    ensures |r| == n
  {
    if n == 0 then []
    else
      ChunkInRange(lengths, l, n - 1);
      DealtChunks(lengths, l, n - 1) + [DealtChunk(lengths, l, n - 1)]
  }

  /** The returned `batch_sorted_indices`. */
  function SortedIndices(lengths: seq<nat>, l: Layout): seq<nat>
    requires Covers(lengths, l)
  {
    Flatten(DealtChunks(lengths, l, l.chunks))
  }

  lemma {:induction false} ShiftedElements(s: seq<nat>, n: nat, offset: nat)
    requires multiset(s) == multiset(Range(0, n))
    ensures multiset(Shifted(s, offset)) == multiset(Range(offset, n))
  {
    PermutationMeans(s, n);
    SameIndicesSameRows(Range(offset, n), s, Range(0, n));
    assert Shifted(s, offset) == Select(Range(offset, n), s);
    assert Select(Range(offset, n), Range(0, n)) == Range(offset, n);
  }

  lemma SortedAndDealtPermutes(chunk: seq<nat>, n: nat, offset: nat, shards: nat)
    requires 0 < shards && |chunk| == n
    ensures multiset(Flatten(Strides(Shifted(ArgSort(chunk), offset), shards))) == multiset(Range(offset, n))
  {
    ArgSortPermutes(chunk);
    ShiftedElements(ArgSort(chunk), n, offset);
    StridesConserve(Shifted(ArgSort(chunk), offset), shards);
  }

  lemma DealtChunkPermutes(lengths: seq<nat>, l: Layout, c: nat, start: nat)
    requires start == ChunkStart(l, c) && start + l.batchSize <= |lengths| && 0 < l.shards
    ensures multiset(DealtChunk(lengths, l, c)) == multiset(Range(start, l.batchSize))
  {
    SortedChunkIs(lengths, l, c, start);
    SortedAndDealtPermutes(lengths[start..start + l.batchSize], l.batchSize, start, l.shards);
  }

  lemma SortedChunkIs(lengths: seq<nat>, l: Layout, c: nat, start: nat)
    requires start == ChunkStart(l, c) && start + l.batchSize <= |lengths|
    ensures SortedChunk(lengths, l, c) == Shifted(ArgSort(lengths[start..start + l.batchSize]), start)
  {
  }

  /** Sorting and dealing permutes the positions inside each chunk. */
  lemma ChunkIsPermuted(lengths: seq<nat>, l: Layout, c: nat)
    requires Covers(lengths, l) && c < l.chunks
    ensures 0 <= ChunkStart(l, c) && ChunkStart(l, c) + l.batchSize <= |lengths|
    ensures multiset(DealtChunk(lengths, l, c)) == multiset(Range(ChunkStart(l, c), l.batchSize))
  {
    ChunkInRange(lengths, l, c);
    DealtChunkPermutes(lengths, l, c, ChunkStart(l, c));
  }

  /** The positions from `low` up to `high`, each once. */
  ghost predicate PermutesRange(p: seq<nat>, low: nat, high: nat) {
    low <= high && multiset(p) == multiset(Range(low, high - low))
  }

  lemma RangesJoin(p: seq<nat>, q: seq<nat>, low: nat, middle: nat, high: nat)
    requires PermutesRange(p, low, middle) && PermutesRange(q, middle, high)
    ensures PermutesRange(p + q, low, high)
  {
    assert Range(low, middle - low) + Range(middle, high - middle) == Range(low, high - low);
  }

  /** Lists that permute adjacent ranges together permute the whole range. */
  lemma {:induction false} AdjacentRangesJoin(parts: seq<seq<nat>>, borders: seq<nat>)
    requires |borders| == |parts| + 1
    requires forall k :: 0 <= k < |parts| ==> PermutesRange(parts[k], borders[k], borders[k + 1])
    ensures PermutesRange(Flatten(parts), borders[0], borders[|parts|])
  {
    if parts != [] {
      var n := |parts| - 1;
      AdjacentRangesJoin(parts[..n], borders[..n + 1]);
      RangesJoin(Flatten(parts[..n]), parts[n], borders[0], borders[n], borders[n + 1]);
    }
  }

  lemma DealtPermutesRange(lengths: seq<nat>, l: Layout, c: nat, start: nat, end: nat)
    requires Covers(lengths, l) && c < l.chunks && start == ChunkStart(l, c) && end == start + l.batchSize
    ensures ChunkStart(l, c) + l.batchSize <= |lengths| && PermutesRange(DealtChunk(lengths, l, c), start, end)
  {
    ChunkIsPermuted(lengths, l, c);
    assert end - start == l.batchSize;
  }

  lemma DealtChunksPermute(lengths: seq<nat>, l: Layout)
    requires Covers(lengths, l)
    ensures multiset(Flatten(DealtChunks(lengths, l, l.chunks))) == multiset(Range(0, |lengths|))
  {
    var parts, borders := DealtChunks(lengths, l, l.chunks), Borders(0, l.batchSize, l.chunks);
    BordersAscend(0, l.batchSize, l.chunks);
    forall k | 0 <= k < l.chunks ensures PermutesRange(parts[k], borders[k], borders[k + 1]) {
      DealtChunksAt(lengths, l, l.chunks, k);
      assert borders[k] == ChunkStart(l, k);
      DealtPermutesRange(lengths, l, k, borders[k], borders[k + 1]);
    }
    AdjacentRangesJoin(parts, borders);
  }

  /** The returned indices are a permutation of the batch. */
  lemma SortedIndicesPermute(lengths: seq<nat>, l: Layout)
    requires Covers(lengths, l)
    ensures IsPermutation(SortedIndices(lengths, l), |lengths|)
    ensures forall k :: 0 <= k < |SortedIndices(lengths, l)| ==> SortedIndices(lengths, l)[k] < |lengths|
  {
    DealtChunksPermute(lengths, l);
    PermutationMeans(SortedIndices(lengths, l), |lengths|);
  }

  /** Position `i` of shard `s` in chunk `c`: rank `s + i * shards` of the sorted chunk. */
  lemma DealtAt(lengths: seq<nat>, l: Layout, c: nat, s: nat, i: nat)
    requires Covers(lengths, l) && c < l.chunks && s < l.shards && i < l.shardSize
    ensures 0 <= ChunkStart(l, c) && ChunkStart(l, c) + l.batchSize <= |lengths|
    ensures |DealtChunk(lengths, l, c)| == l.batchSize
    ensures 0 <= s * l.shardSize + i < l.batchSize && 0 <= s + i * l.shards < l.batchSize
    ensures DealtChunk(lengths, l, c)[s * l.shardSize + i] == SortedChunk(lengths, l, c)[s + i * l.shards]
  {
    ChunkInRange(lengths, l, c);
    StridesAt(SortedChunk(lengths, l, c), l.shards, l.shardSize, s, i);
  }

  lemma {:induction false} DealtChunksAt(lengths: seq<nat>, l: Layout, n: nat, c: nat)
    requires Covers(lengths, l) && c < n <= l.chunks
    ensures 0 <= ChunkStart(l, c) && ChunkStart(l, c) + l.batchSize <= |lengths|
    ensures DealtChunks(lengths, l, n)[c] == DealtChunk(lengths, l, c)
    ensures |DealtChunks(lengths, l, n)[c]| == l.batchSize
  {
    ChunkIsPermuted(lengths, l, c);
    assert |DealtChunk(lengths, l, c)| == |multiset(DealtChunk(lengths, l, c))|;
    assert |Range(ChunkStart(l, c), l.batchSize)| == |multiset(Range(ChunkStart(l, c), l.batchSize))|;
    if c < n - 1 {
      DealtChunksAt(lengths, l, n - 1, c);
    }
  }

  /** The sorted indices of chunk `c` are a slice of the returned indices. */
  lemma SortedIndicesAt(lengths: seq<nat>, l: Layout, c: nat, j: nat)
    requires Covers(lengths, l) && c < l.chunks && j < l.batchSize
    ensures 0 <= ChunkStart(l, c) && ChunkStart(l, c) + l.batchSize <= |lengths|
    ensures ChunkStart(l, c) + j < |SortedIndices(lengths, l)| && j < |DealtChunk(lengths, l, c)|
    ensures SortedIndices(lengths, l)[ChunkStart(l, c) + j] == DealtChunk(lengths, l, c)[j]
  {
    var parts := DealtChunks(lengths, l, l.chunks);
    forall k | 0 <= k < l.chunks ensures |parts[k]| == l.batchSize {
      DealtChunksAt(lengths, l, l.chunks, k);
    }
    DealtChunksAt(lengths, l, l.chunks, c);
    UniformSlice(parts, l.batchSize, c);
    SliceAt(SortedIndices(lengths, l), ChunkStart(l, c), l.batchSize, j);
  }

  /** The batch in the order of the sorted indices, as it is cut into shards. */
  function SortedRows<T>(rows: seq<T>, lengths: seq<nat>, l: Layout): (r: seq<T>)
    requires Covers(lengths, l) && |rows| == |lengths|
    ensures |r| == |rows|
  {
    SortedIndicesPermute(lengths, l);
    PermutationMeans(SortedIndices(lengths, l), |lengths|);
    Select(rows, SortedIndices(lengths, l))
  }

  /** Row `i` of shard `s` in chunk `c` is the one of rank `s + i * shards` by length. */
  lemma ShardHoldsStride<T>(rows: seq<T>, lengths: seq<nat>, l: Layout, s: nat, c: nat, i: nat)
    requires Covers(lengths, l) && |rows| == |lengths| && s < l.shards && c < l.chunks && i < l.shardSize
    ensures 0 <= ChunkStart(l, c) && ChunkStart(l, c) + l.batchSize <= |lengths|
    ensures 0 <= s + i * l.shards < l.batchSize && SortedChunk(lengths, l, c)[s + i * l.shards] < |rows|
    ensures 0 <= ShareStart(l, c) + i < |PlainShard(SortedRows(rows, lengths, l), l, s)|
    ensures PlainShard(SortedRows(rows, lengths, l), l, s)[ShareStart(l, c) + i]
         == rows[SortedChunk(lengths, l, c)[s + i * l.shards]]
  {
    PlainShardAt(SortedRows(rows, lengths, l), l, s, c, i);
    SortedRowsAt(rows, lengths, l, s, c, i);
  }

  lemma SortedRowsAt<T>(rows: seq<T>, lengths: seq<nat>, l: Layout, s: nat, c: nat, i: nat)
    requires Covers(lengths, l) && |rows| == |lengths| && s < l.shards && c < l.chunks && i < l.shardSize
    ensures 0 <= ChunkStart(l, c) && ChunkStart(l, c) + l.batchSize <= |lengths|
    ensures 0 <= s + i * l.shards < l.batchSize && SortedChunk(lengths, l, c)[s + i * l.shards] < |rows|
    ensures PartStart(l, s, c) + i < |rows|
    ensures SortedRows(rows, lengths, l)[PartStart(l, s, c) + i] == rows[SortedChunk(lengths, l, c)[s + i * l.shards]]
  {
    DealtAt(lengths, l, c, s, i);
    SortedIndicesAt(lengths, l, c, s * l.shardSize + i);
    SortedIndicesPermute(lengths, l);
  }

  /** Within a chunk, no row is longer than any row one position later, whichever shards the two are on. */
  lemma LengthsAscendAcrossShards(lengths: seq<nat>, l: Layout, c: nat, s: nat, t: nat, i: nat)
    requires Covers(lengths, l) && c < l.chunks && s < l.shards && t < l.shards && i + 1 < l.shardSize
    ensures var here := PlainShard(SortedRows(lengths, lengths, l), l, s);
      var there := PlainShard(SortedRows(lengths, lengths, l), l, t);
      && 0 <= ShareStart(l, c) + i < |here| && 0 <= ShareStart(l, c) + i + 1 < |there|
      && here[ShareStart(l, c) + i] <= there[ShareStart(l, c) + i + 1]
  {
    ShardHoldsStride(lengths, lengths, l, s, c, i);
    ShardHoldsStride(lengths, lengths, l, t, c, i + 1);
    RanksAscend(s, t, i, l.shards);
    SortedChunkAscends(lengths, l, c, s + i * l.shards, t + (i + 1) * l.shards);
  }

  lemma RanksAscend(s: nat, t: nat, i: nat, shards: nat)
    requires s < shards
    ensures s + i * shards < t + (i + 1) * shards
  {
    assert (i + 1) * shards == i * shards + shards;
  }

  lemma SortedChunkAscends(lengths: seq<nat>, l: Layout, c: nat, i: nat, j: nat)
    requires Covers(lengths, l) && c < l.chunks && i < j < l.batchSize
    ensures 0 <= ChunkStart(l, c) && ChunkStart(l, c) + l.batchSize <= |lengths|
    ensures var order := SortedChunk(lengths, l, c);
      && order[i] < |lengths| && order[j] < |lengths|
      && (lengths[order[i]] < lengths[order[j]] || (lengths[order[i]] == lengths[order[j]] && order[i] < order[j]))
  {
    ChunkInRange(lengths, l, c);
    ArgSortSorts(lengths[ChunkStart(l, c)..ChunkStart(l, c) + l.batchSize]);
  }

  // ---- Undoing the sort ----

  /** The shards in order, as they come back from the workers. */
  function Rejoined<T>(rows: seq<T>, lengths: seq<nat>, l: Layout): seq<T>
    requires Covers(lengths, l) && |rows| == |lengths|
  {
    Flatten(AllShards(SortedRows(rows, lengths, l), l))
  }

  /** With one shard, the shard is the whole batch. */
  lemma OneShardIsAll<T>(rows: seq<T>, l: Layout)
    requires l.shards == 1 && l.shardSize == l.batchSize && l.chunks * l.batchSize == |rows|
    ensures PlainShard(rows, l, 0) == rows
  {
    var parts, borders := ShardParts(rows, l, 0, l.chunks), Borders(0, l.batchSize, l.chunks);
    BordersAscend(0, l.batchSize, l.chunks);
    forall k | 0 <= k < l.chunks ensures parts[k] == Cut(rows, borders[k], borders[k] + l.batchSize) {
      assert PartStart(l, 0, k) == borders[k];
    }
    CutsAtBorders(rows, parts, borders, l.batchSize);
    AdjacentCutsJoin(rows, parts, borders);
    CutAll(rows, borders[l.chunks]);
  }

  lemma OneShardRejoins<T>(rows: seq<T>, l: Layout)
    requires l.Even() && l.shards == 1 && l.chunks * l.batchSize == |rows|
    ensures Flatten(AllShards(rows, l)) == rows
  {
    OneShardIsAll(rows, l);
    assert AllShards(rows, l) == [] + [rows];
    FlattenSnoc([], rows);
  }

  /** With one chunk, or with one shard, reordering the rejoined shards by the returned indices restores the batch. */
  lemma ReorderRestores<T>(rows: seq<T>, lengths: seq<nat>, l: Layout)
    requires Covers(lengths, l) && |rows| == |lengths| && (l.chunks == 1 || l.shards == 1)
    ensures Reordered(Rejoined(rows, lengths, l), SortedIndices(lengths, l)) == rows
  {
    var sorted := SortedRows(rows, lengths, l);
    if l.chunks == 1 {
      SingleChunkConserves(sorted, l);
    } else {
      OneShardRejoins(sorted, l);
    }
    SortedIndicesPermute(lengths, l);
    ReorderUndoesSelect(rows, SortedIndices(lengths, l));
  }

  /** Reordering by a permutation loses nothing, so it restores the batch only for the rows it was made from. */
  lemma ReorderIsInjective<T>(a: seq<T>, b: seq<T>, p: seq<nat>)
    requires |a| == |b| == |p| && IsPermutation(p, |p|) && Reordered(a, p) == Reordered(b, p)
    ensures a == b
  {
    assert p[..|p|] == p;
    forall k | 0 <= k < |p| ensures a[k] == b[k] {
      PermutationMeans(p, |p|);
      ArgSortInverts(p, k);
      assert Reordered(a, p)[p[k]] == a[k] && Reordered(b, p)[p[k]] == b[k];
    }
  }

  /** With several chunks and several shards, rejoining puts the second chunk's first row where the first chunk goes on. */
  lemma RejoinedMisplaces<T>(rows: seq<T>, l: Layout)
    requires l.Even() && l.chunks * l.batchSize == |rows| && 1 < l.chunks && 1 < l.shards
    ensures l.shardSize < l.batchSize < |rows| && l.shardSize < |Flatten(AllShards(rows, l))|
    ensures Flatten(AllShards(rows, l))[l.shardSize] == rows[l.batchSize]
  {
    ShareIsSmaller(l);
    PlainShardAt(rows, l, 0, 1, 0);
    assert PartStart(l, 0, 1) == l.batchSize;
    FirstPartFirst(AllShards(rows, l), l.shardSize);
  }

  lemma ShareIsSmaller(l: Layout)
    requires l.Even() && 1 < l.chunks && 1 < l.shards
    ensures l.shardSize < l.batchSize < l.chunks * l.batchSize
  {
    assert l.shardSize * l.shards >= l.shardSize * 2;
    assert l.chunks * l.batchSize >= 2 * l.batchSize;
  }

  lemma FirstPartFirst<T>(parts: seq<seq<T>>, k: nat)
    requires parts != [] && k < |parts[0]|
    ensures k < |Flatten(parts)| && Flatten(parts)[k] == parts[0][k]
  {
    FlattenSlice(parts, 0);
    assert parts[0] == Flatten(parts)[..|parts[0]|];
  }

  /**
   * For a batch of pairwise different rows, `reorder_data` restores the order after dynamic batching if and only if
   * there was a single chunk or a single shard: the returned indices are listed chunk by chunk, the rejoined rows
   * shard by shard.
   */
  lemma ReorderRestoresIff<T(!new)>(rows: seq<T>, lengths: seq<nat>, l: Layout)
    requires Covers(lengths, l) && |rows| == |lengths| && 0 < l.chunks
    requires forall i, j :: 0 <= i < j < |rows| ==> rows[i] != rows[j]
    ensures Reordered(Rejoined(rows, lengths, l), SortedIndices(lengths, l)) == rows <==> l.chunks == 1 || l.shards == 1
  {
    if l.chunks == 1 || l.shards == 1 {
      ReorderRestores(rows, lengths, l);
    } else {
      var p, sorted := SortedIndices(lengths, l), SortedRows(rows, lengths, l);
      SortedIndicesPermute(lengths, l);
      PermutationMeans(p, |rows|);
      ReorderUndoesSelect(rows, p);
      RejoinedMisplaces(sorted, l);
      assert sorted[l.shardSize] != sorted[l.batchSize];
      RejoinedLength(sorted, l);
      if Reordered(Rejoined(rows, lengths, l), p) == rows {
        ReorderIsInjective(Rejoined(rows, lengths, l), sorted, p);
      }
    }
  }

  lemma RejoinedLength<T>(rows: seq<T>, l: Layout)
    requires l.Even() && l.chunks * l.batchSize == |rows|
    ensures |Flatten(AllShards(rows, l))| == |rows|
  {
    var size := l.chunks * l.shardSize;
    forall s | 0 <= s < l.shards ensures |AllShards(rows, l)[s]| == size {
      PartsAreUniform(rows, l, s);
      UniformOffset(ShardParts(rows, l, s, l.chunks), l.shardSize, l.chunks);
      assert ShardParts(rows, l, s, l.chunks)[..l.chunks] == ShardParts(rows, l, s, l.chunks);
    }
    UniformOffset(AllShards(rows, l), size, l.shards);
    assert AllShards(rows, l)[..l.shards] == AllShards(rows, l);
    Reassociates(l.shards, l.chunks, l.shardSize);
  }

  lemma Reassociates(a: nat, b: nat, c: nat)
    ensures a * (b * c) == b * (c * a)
  {
  }
}
