/**
 * Batches of rows and their plain sharding. A batch's columns always have one entry per row, so a batch is modelled
 * by its rows; the microbatch tables are the attributes that sharding leaves on the shards.
 */
module BatchedDataDicts {
  import opened Seqs
  import opened Lists

  /** A padded token row and how many of its tokens are real. */
  datatype Row = Row(tokens: seq<int>, length: nat)

  datatype ShardError =
    | UnevenWithBatchSize
    | DivisionByZero
    | PartialChunk
    | PartialShard
    | SequenceTooLong
    | CannotPack
    | EmptyBatch

  datatype SliceError = OutOfRange | NotTabulated

  /** How a batch of `total` rows is cut: `chunks` chunks of `batchSize` rows, each cut for `shards` shards. */
  datatype Layout = Layout(chunks: nat, batchSize: nat, shards: nat, shardSize: nat) {
    /** Every chunk is shared out evenly. */
    ghost predicate Even() { shardSize * shards == batchSize && 0 < shardSize && 0 < shards }
  }

  function MakeLayout(total: nat, shards: nat, batchSize: Option<nat>, allowUneven: bool): (r: Result<Layout, ShardError>)
    ensures r.Ok? ==>
      && r.value.shards == shards > 0 && r.value.batchSize > 0 && r.value.chunks * r.value.batchSize == total
      && (if allowUneven then r.value.chunks == 1 else r.value.Even())
    ensures var size := if batchSize.Some? then batchSize.value else total;
      && (r.Ok? <==> 0 < shards && 0 < size && total % size == 0
                     && if allowUneven then batchSize == None else size % shards == 0)
      && (r.Ok? ==> r.value.batchSize == size)
    ensures r.Ok? ==> var l := r.value; l.batchSize <= l.shardSize * shards < l.batchSize + shards
  {
    if allowUneven && batchSize.Some? then Err(UnevenWithBatchSize)
    else
      var size := if batchSize.Some? then batchSize.value else total;
      if size == 0 then Err(DivisionByZero)
      else if total % size != 0 then Err(PartialChunk)
      else if shards == 0 then Err(DivisionByZero)
      else if !allowUneven && size % shards != 0 then Err(PartialShard)
      else
        assert total / size * size == total;
        assert !allowUneven ==> size / shards * shards == size;
        assert size == total ==> total / size == 1;
        Ok(Layout(total / size, size, shards, if allowUneven then (size + shards - 1) / shards else size / shards))
  }

  /** Python's `rows[low:high]`. */
  function Cut<T>(rows: seq<T>, low: nat, high: nat): seq<T> {
    if low <= high then rows[Min(low, |rows|)..Min(high, |rows|)] else []
  }

  /** Where the part of shard `s` in chunk `c` starts. */
  function PartStart(l: Layout, s: nat, c: nat): nat { ChunkStart(l, c) + s * l.shardSize }

  /** Where chunk `c` starts. */
  function ChunkStart(l: Layout, c: nat): nat { c * l.batchSize }

  /** Where chunk `c` starts on a shard. */
  function ShareStart(l: Layout, c: nat): nat { c * l.shardSize }

  /** The rows that shard `s` receives from chunk `c`. */
  function SubShard<T>(rows: seq<T>, l: Layout, s: nat, c: nat): seq<T> {
    Cut(rows, PartStart(l, s, c), PartStart(l, s, c) + l.shardSize)
  }

  /** What shard `s` gets from the first `chunks` chunks. */
  function ShardParts<T>(rows: seq<T>, l: Layout, s: nat, chunks: nat): seq<seq<T>>
  {
    seq(chunks, c requires 0 <= c => SubShard(rows, l, s, c))
  }

  function PlainShard<T>(rows: seq<T>, l: Layout, s: nat): seq<T> { Flatten(ShardParts(rows, l, s, l.chunks)) }

  class BatchedDataDict<T> {
    var rows: seq<T>
    var microBatchIndices: Option<seq<seq<(nat, nat)>>>
    var microBatchLengths: Option<seq<seq<nat>>>
    var elemCountsPerGb: Option<seq<nat>>

    constructor (rows: seq<T>)
      ensures this.rows == rows && microBatchIndices == None && microBatchLengths == None && elemCountsPerGb == None
    {
      this.rows := rows;
      microBatchIndices, microBatchLengths, elemCountsPerGb := None, None, None;
    }

    /**
     * Sorts the rows by the index paired with each, equal indices in their original order; `order` says where each row
     * comes from. When the indices are a permutation, the row at position `k` lands at position `reorderedIndices[k]`.
     */
    method ReorderData(reorderedIndices: seq<nat>) returns (ghost order: seq<nat>)
      modifies this`rows
      ensures var n := Min(|reorderedIndices|, |old(rows)|);
        && |rows| == n && IsPermutation(order, n) && SortedStably(order, reorderedIndices[..n])
        && |order| == n && forall k :: 0 <= k < n ==> order[k] < n && rows[k] == old(rows)[order[k]]
      ensures IsPermutation(reorderedIndices, |old(rows)|) ==>
        forall k :: 0 <= k < |reorderedIndices| ==>
          reorderedIndices[k] < |rows| && k < |old(rows)| && rows[reorderedIndices[k]] == old(rows)[k]
      ensures rows == Reordered(old(rows), reorderedIndices)
    {
      var paired := reorderedIndices[..Min(|reorderedIndices|, |rows|)];
      rows := Select(rows, ArgSort(paired));
      order := ArgSort(paired);
      ArgSortPermutes(paired);
      ArgSortSorts(paired);
      if IsPermutation(reorderedIndices, |old(rows)|) {
        ReorderedAt(old(rows), reorderedIndices);
      }
    }

    /** The rows from `start` to `end`, of which there are none when `start` is not before `end`. */
    method Slice(start: nat, end: nat) returns (r: Result<BatchedDataDict<T>, SliceError>)
      ensures r.Ok? <==> end <= |rows|
      ensures r.Ok? ==> fresh(r.value) && r.value.rows == if start <= end then rows[start..end] else []
      ensures r.Ok? ==> r.value.microBatchIndices == None && r.value.microBatchLengths == None && r.value.elemCountsPerGb == None
    {
      if end > |rows| {
        return Err(OutOfRange);
      }
      var sliced := new BatchedDataDict<T>(Cut(rows, start, end));
      return Ok(sliced);
    }

    /**
     * The rows of global batch `batchIdx` on this shard, with its microbatch tables: cut by the recorded element
     * counts when there are any, else at multiples of `batchSize`; with counts, its own count is recorded.
     */
    method GetBatch(batchIdx: nat, batchSize: nat) returns (r: Result<BatchedDataDict<T>, SliceError>)
      ensures r.Ok? ==> fresh(r.value)
      ensures r.Ok? && elemCountsPerGb.Some? ==>
        r.value.rows == Cut(rows, BatchStart(elemCountsPerGb.value, batchIdx), BatchStart(elemCountsPerGb.value, batchIdx + 1))
      ensures r.Ok? && elemCountsPerGb == None ==>
        r.value.rows == Cut(rows, batchSize * batchIdx, batchSize * batchIdx + batchSize)
      ensures r.Ok? && microBatchIndices.Some? ==>
        && microBatchLengths.Some?
        && batchIdx < |microBatchIndices.value|
        && batchIdx < |microBatchLengths.value|
        && r.value.microBatchIndices == Some([microBatchIndices.value[batchIdx]])
        && r.value.microBatchLengths == Some([microBatchLengths.value[batchIdx]])
      ensures r.Ok? && microBatchIndices == None ==>
        r.value.microBatchIndices == None && r.value.microBatchLengths == None
      ensures r.Ok? && elemCountsPerGb.Some? ==>
        && batchIdx < |elemCountsPerGb.value|
        && r.value.elemCountsPerGb == Some([elemCountsPerGb.value[batchIdx]])
      ensures r.Ok? && elemCountsPerGb == None ==> r.value.elemCountsPerGb == None
      ensures r.Ok? <==> CanGetBatch(batchIdx, batchSize)
    {
      if elemCountsPerGb.Some? {
        var counts := elemCountsPerGb.value;
        if microBatchIndices == None || microBatchLengths == None {
          return Err(NotTabulated);
        }
        if batchIdx >= |counts| {
          return Err(OutOfRange);
        }
        var cumulative: seq<nat> := [0];
        for i := 0 to |counts|
          invariant |cumulative| == i + 1
          invariant forall k :: 0 <= k <= i ==> cumulative[k] == BatchStart(counts, k)
        {
          BatchStartStep(counts, i);
          cumulative := cumulative + [cumulative[i] + counts[i]];
        }
        BatchStartStep(counts, batchIdx);
        r := Slice(cumulative[batchIdx], cumulative[batchIdx + 1]);
      } else {
        NonNegative(batchSize, batchIdx);
        r := Slice(batchSize * batchIdx, batchSize * batchIdx + batchSize);
      }
      if r.Ok? && microBatchIndices.Some? {
        if microBatchLengths == None {
          return Err(NotTabulated);
        }
        if batchIdx >= |microBatchIndices.value| || batchIdx >= |microBatchLengths.value| {
          return Err(OutOfRange);
        }
        r.value.microBatchIndices := Some([microBatchIndices.value[batchIdx]]);
        r.value.microBatchLengths := Some([microBatchLengths.value[batchIdx]]);
        if elemCountsPerGb.Some? {
          r.value.elemCountsPerGb := Some([elemCountsPerGb.value[batchIdx]]);
        }
      }
    }

    /** The batch lies within the rows, and the tables that exist cover it. */
    predicate CanGetBatch(batchIdx: nat, batchSize: nat)
      reads this
    {
      && (if elemCountsPerGb.Some? then
            microBatchIndices.Some? && batchIdx < |elemCountsPerGb.value|
            && BatchStart(elemCountsPerGb.value, batchIdx + 1) <= |rows|
          else batchSize * batchIdx + batchSize <= |rows|)
      && (microBatchIndices.Some? ==>
            microBatchLengths.Some? && batchIdx < |microBatchIndices.value| && batchIdx < |microBatchLengths.value|)
    }

    predicate HasOneTable()
      reads this
    {
      microBatchIndices.Some? && microBatchLengths.Some? && |microBatchIndices.value| == 1 && |microBatchLengths.value| >= 1
    }

    /** The single table's intervals lie within the rows. */
    predicate IntervalsFit()
      reads this
    {
      HasOneTable() && forall i :: 0 <= i < |microBatchIndices.value[0]| && i < |microBatchLengths.value[0]| ==>
                                     microBatchIndices.value[0][i].1 <= |rows|
    }

    /** The microbatches that the single table in this batch describes, in order. */
    method MakeMicrobatchIteratorForPackableSequences() returns (r: Result<seq<seq<T>>, SliceError>)
      ensures r.Ok? ==> HasOneTable() && r.value == Microbatches(rows, microBatchIndices.value[0], microBatchLengths.value[0])
      ensures r.Ok? <==> IntervalsFit()
    {
      if microBatchIndices == None || microBatchLengths == None || |microBatchIndices.value| != 1 {
        return Err(NotTabulated);
      }
      if |microBatchLengths.value| == 0 {
        return Err(OutOfRange);
      }
      var intervals, lengths := microBatchIndices.value[0], microBatchLengths.value[0];
      var batches: seq<seq<T>> := [];
      for i := 0 to Min(|intervals|, |lengths|)
        invariant batches == Microbatches(rows, intervals, lengths)[..i]
        invariant forall k :: 0 <= k < i ==> intervals[k].1 <= |rows|
      {
        var (start, end) := intervals[i];
        if end > |rows| {
          return Err(OutOfRange);
        }
        batches := batches + [Cut(rows, start, end)];
      }
      return Ok(batches);
    }
  }

  /** The rows of each interval, for as many intervals as there are lengths. */
  function Microbatches<T>(rows: seq<T>, intervals: seq<(nat, nat)>, lengths: seq<nat>): seq<seq<T>> {
    seq(Min(|intervals|, |lengths|), i requires 0 <= i < |intervals| =>
      Cut(rows, intervals[i].0, intervals[i].1))
  }

  /** Where global batch `i` starts when the batches have these element counts. */
  function BatchStart(counts: seq<nat>, i: nat): nat { SumOf(counts[..Min(i, |counts|)]) }

  lemma BatchStartStep(counts: seq<nat>, i: nat)
    requires i < |counts|
    ensures BatchStart(counts, i + 1) == BatchStart(counts, i) + counts[i]
  {
    assert counts[..i + 1][..i] == counts[..i];
  }

  lemma NonNegative(a: nat, b: nat)
    ensures 0 <= a * b
  {
  }

  /** The rows sorted by the index paired with each. */
  function Reordered<T>(rows: seq<T>, indices: seq<nat>): seq<T> {
    Select(rows, ArgSort(indices[..Min(|indices|, |rows|)]))
  }

  /** Reordering by a permutation moves the row at position `k` to position `p[k]`. */
  lemma ReorderedAt<T>(rows: seq<T>, p: seq<nat>)
    requires IsPermutation(p, |rows|)
    ensures |p| == |rows| == |Reordered(rows, p)|
    ensures forall k :: 0 <= k < |p| ==> p[k] < |rows| && Reordered(rows, p)[p[k]] == rows[k]
  {
    PermutationMeans(p, |rows|);
    assert p[..|p|] == p;
    forall k | 0 <= k < |p| ensures Reordered(rows, p)[p[k]] == rows[k] {
      ArgSortInverts(p, k);
    }
  }

  /** Reordering by a permutation undoes selecting by it. */
  lemma ReorderUndoesSelect<T>(rows: seq<T>, p: seq<nat>)
    requires IsPermutation(p, |rows|)
    ensures forall k :: 0 <= k < |p| ==> p[k] < |rows|
    ensures Reordered(Select(rows, p), p) == rows
  {
    PermutationMeans(p, |rows|);
    assert p[..|p|] == p;
    forall k | 0 <= k < |p| ensures p[ArgSort(p)[k]] == k {
      ArgSortInverts(p, k);
    }
  }

  /** Plain sharding: chunk by chunk, every shard appends its part. */
  method ShardByBatchSize<T>(batch: BatchedDataDict<T>, shards: nat, batchSize: Option<nat>, allowUneven: bool)
    returns (r: Result<seq<BatchedDataDict<T>>, ShardError>)
    ensures var l := MakeLayout(|batch.rows|, shards, batchSize, allowUneven);
      if l.Err? then r == Err(l.error)
      else r.Ok? && |r.value| == shards && forall s :: 0 <= s < shards ==>
        fresh(r.value[s]) && r.value[s].rows == PlainShard(batch.rows, l.value, s)
  {
    var layout := MakeLayout(|batch.rows|, shards, batchSize, allowUneven);
    if layout.Err? {
      return Err(layout.error);
    }
    var parts := AggregateShards(batch.rows, layout.value, allowUneven);
    var objects: seq<BatchedDataDict<T>> := [];
    for s := 0 to shards
      invariant |objects| == s
      invariant forall k :: 0 <= k < s ==> fresh(objects[k]) && objects[k].rows == parts[k]
    {
      var shard := new BatchedDataDict<T>(parts[s]);
      objects := objects + [shard];
    }
    return Ok(objects);
  }

  /** Groups the rows by shard position across all chunks. */
  method AggregateShards<T>(rows: seq<T>, l: Layout, allowUneven: bool) returns (parts: seq<seq<T>>)
    requires 0 < l.shards && l.chunks * l.batchSize == |rows| && (if allowUneven then l.chunks == 1 else l.Even())
    ensures |parts| == l.shards && forall s :: 0 <= s < l.shards ==> parts[s] == PlainShard(rows, l, s)
  {
    parts := [];
    for s := 0 to l.shards
      invariant |parts| == s && forall k :: 0 <= k < s ==> parts[k] == PlainShard(rows, l, k)
    {
      var shard := AggregateShard(rows, l, s, allowUneven);
      parts := parts + [shard];
    }
  }

  method AggregateShard<T>(rows: seq<T>, l: Layout, s: nat, allowUneven: bool) returns (shard: seq<T>)
    requires s < l.shards && l.chunks * l.batchSize == |rows| && (if allowUneven then l.chunks == 1 else l.Even())
    ensures shard == PlainShard(rows, l, s)
  {
    shard := [];
    for c := 0 to l.chunks
      invariant shard == Flatten(ShardParts(rows, l, s, c))
    {
      var start: nat := PartStart(l, s, c);
      var end := start + l.shardSize;
      if allowUneven {
        start, end := Min(start, |rows|), Min(end, |rows|);
      } else {
        PartInRows(rows, l, s, c);
      }
      ShardPartsSnoc(rows, l, s, c);
      shard := shard + rows[start..end];
    }
  }

  lemma PartInRows<T>(rows: seq<T>, l: Layout, s: nat, c: nat)
    requires l.Even() && l.chunks * l.batchSize == |rows| && s < l.shards && c < l.chunks
    ensures PartStart(l, s, c) + l.shardSize <= |rows|
  {
    WithinChunk(l, s, c);
  }

  lemma ShardPartsSnoc<T>(rows: seq<T>, l: Layout, s: nat, c: nat)
    ensures Flatten(ShardParts(rows, l, s, c + 1)) == Flatten(ShardParts(rows, l, s, c)) + SubShard(rows, l, s, c)
  {
    assert ShardParts(rows, l, s, c + 1) == ShardParts(rows, l, s, c) + [SubShard(rows, l, s, c)];
    FlattenSnoc(ShardParts(rows, l, s, c), SubShard(rows, l, s, c));
  }

  /** With even shards no part reaches over the end of its chunk. */
  lemma WithinChunk(l: Layout, s: nat, c: nat)
    requires l.Even() && s < l.shards && c < l.chunks
    ensures s * l.shardSize + l.shardSize <= l.batchSize
    ensures c * l.batchSize + l.batchSize <= l.chunks * l.batchSize
  {
    assert s * l.shardSize + l.shardSize == (s + 1) * l.shardSize <= l.shards * l.shardSize;
    assert c * l.batchSize + l.batchSize == (c + 1) * l.batchSize <= l.chunks * l.batchSize;
  }

  // ---- What plain sharding conserves ----

  lemma PartsAreUniform<T>(rows: seq<T>, l: Layout, s: nat)
    requires l.Even() && l.chunks * l.batchSize == |rows| && s < l.shards
    ensures forall c :: 0 <= c < l.chunks ==> |ShardParts(rows, l, s, l.chunks)[c]| == l.shardSize
  {
    forall c | 0 <= c < l.chunks ensures |SubShard(rows, l, s, c)| == l.shardSize {
      WithinChunk(l, s, c);
    }
  }

  /** The part of shard `s` that `get_batch(c, shardSize)` returns is what chunk `c` gave it. */
  lemma GetBatchIsSubShard<T>(rows: seq<T>, l: Layout, s: nat, c: nat)
    requires l.Even() && l.chunks * l.batchSize == |rows| && s < l.shards && c < l.chunks
    ensures |PlainShard(rows, l, s)| == l.chunks * l.shardSize >= ShareStart(l, c) + l.shardSize
    ensures Cut(PlainShard(rows, l, s), ShareStart(l, c), ShareStart(l, c) + l.shardSize) == SubShard(rows, l, s, c)
  {
    var parts := ShardParts(rows, l, s, l.chunks);
    PartsAreUniform(rows, l, s);
    UniformSlice(parts, l.shardSize, c);
  }

  /** The same, row by row. */
  lemma PlainShardAt<T>(rows: seq<T>, l: Layout, s: nat, c: nat, i: nat)
    requires l.Even() && l.chunks * l.batchSize == |rows| && s < l.shards && c < l.chunks && i < l.shardSize
    ensures 0 <= ShareStart(l, c) + i < |PlainShard(rows, l, s)| && PartStart(l, s, c) + i < |rows|
    ensures PlainShard(rows, l, s)[ShareStart(l, c) + i] == rows[PartStart(l, s, c) + i]
  {
    GetBatchIsSubShard(rows, l, s, c);
    PartInRows(rows, l, s, c);
    SliceAt(PlainShard(rows, l, s), ShareStart(l, c), l.shardSize, i);
    SliceAt(rows, PartStart(l, s, c), l.shardSize, i);
  }

  lemma CutsMeet<T>(rows: seq<T>, a: nat, b: nat, c: nat)
    requires a <= b <= c
    ensures Cut(rows, a, b) + Cut(rows, b, c) == Cut(rows, a, c)
  {
  }

  /** `n` consecutive cuts of equal size. */
  function Cuts<T>(rows: seq<T>, start: nat, size: nat, n: nat): seq<seq<T>> {
    seq(n, s requires 0 <= s => Cut(rows, start + s * size, start + s * size + size))
  }

  /** Cuts between ascending borders, the next starting where one ends. */
  ghost predicate CutAt<T>(rows: seq<T>, parts: seq<seq<T>>, borders: seq<nat>) {
    && |borders| == |parts| + 1
    && (forall k, m :: 0 <= k <= m < |borders| ==> borders[k] <= borders[m])
    && (forall k :: 0 <= k < |parts| ==> parts[k] == Cut(rows, borders[k], borders[k + 1]))
  }

  /** Together they are one cut. */
  lemma {:induction false} AdjacentCutsJoin<T>(rows: seq<T>, parts: seq<seq<T>>, borders: seq<nat>)
    requires CutAt(rows, parts, borders)
    ensures Flatten(parts) == Cut(rows, borders[0], borders[|parts|])
  {
    if parts != [] {
      var n := |parts| - 1;
      assert CutAt(rows, parts[..n], borders[..n + 1]);
      AdjacentCutsJoin(rows, parts[..n], borders[..n + 1]);
      CutsMeet(rows, borders[0], borders[n], borders[n + 1]);
    }
  }

  function Borders(start: nat, size: nat, n: nat): seq<nat> {
    seq(n + 1, k requires 0 <= k => start + k * size)
  }

  lemma BordersAscend(start: nat, size: nat, n: nat)
    ensures forall k, m :: 0 <= k <= m <= n ==> Borders(start, size, n)[k] <= Borders(start, size, n)[m]
    ensures forall k :: 0 <= k < n ==> Borders(start, size, n)[k + 1] == Borders(start, size, n)[k] + size
  {
    forall k, m | 0 <= k <= m <= n ensures Borders(start, size, n)[k] <= Borders(start, size, n)[m] {
      assert (m - k) * size >= 0;
    }
    forall k | 0 <= k < n ensures Borders(start, size, n)[k + 1] == Borders(start, size, n)[k] + size {
      assert (k + 1) * size == k * size + size;
    }
  }

  lemma CutsJoin<T>(rows: seq<T>, start: nat, size: nat, n: nat, end: nat)
    requires end == start + n * size
    ensures Flatten(Cuts(rows, start, size, n)) == Cut(rows, start, end)
  {
    BordersAscend(start, size, n);
    CutsAtBorders(rows, Cuts(rows, start, size, n), Borders(start, size, n), size);
    AdjacentCutsJoin(rows, Cuts(rows, start, size, n), Borders(start, size, n));
  }

  lemma CutsAtBorders<T>(rows: seq<T>, parts: seq<seq<T>>, borders: seq<nat>, size: nat)
    requires |borders| == |parts| + 1 && forall k, m :: 0 <= k <= m < |borders| ==> borders[k] <= borders[m]
    requires forall k :: 0 <= k < |parts| ==> borders[k + 1] == borders[k] + size
    requires forall k :: 0 <= k < |parts| ==> parts[k] == Cut(rows, borders[k], borders[k] + size)
    ensures CutAt(rows, parts, borders)
  {
  }

  /** What `get_batch(c, shardSize)` returns on each shard. */
  function ChunkAcrossShards<T>(rows: seq<T>, l: Layout, c: nat): seq<seq<T>> {
    seq(l.shards, s requires 0 <= s => Cut(PlainShard(rows, l, s), ShareStart(l, c), ShareStart(l, c) + l.shardSize))
  }

  lemma AcrossShardsAt<T>(rows: seq<T>, l: Layout, c: nat, s: nat)
    requires l.Even() && l.chunks * l.batchSize == |rows| && c < l.chunks && s < l.shards
    ensures ChunkAcrossShards(rows, l, c)[s] == Cuts(rows, ChunkStart(l, c), l.shardSize, l.shards)[s]
  {
    GetBatchIsSubShard(rows, l, s, c);
  }

  lemma AcrossShardsIsCuts<T>(rows: seq<T>, l: Layout, c: nat)
    requires l.Even() && l.chunks * l.batchSize == |rows| && c < l.chunks
    ensures ChunkAcrossShards(rows, l, c) == Cuts(rows, ChunkStart(l, c), l.shardSize, l.shards)
  {
    forall s | 0 <= s < l.shards
      ensures ChunkAcrossShards(rows, l, c)[s] == Cuts(rows, ChunkStart(l, c), l.shardSize, l.shards)[s]
    {
      AcrossShardsAt(rows, l, c, s);
    }
  }

  /** For every chunk, the shards' batches of it, in shard order, are exactly that chunk. */
  lemma ChunksAreConserved<T>(rows: seq<T>, l: Layout, c: nat)
    requires l.Even() && l.chunks * l.batchSize == |rows| && c < l.chunks
    ensures Flatten(ChunkAcrossShards(rows, l, c)) == Cut(rows, ChunkStart(l, c), ChunkStart(l, c) + l.batchSize)
  {
    AcrossShardsIsCuts(rows, l, c);
    CutsJoin(rows, ChunkStart(l, c), l.shardSize, l.shards, ChunkStart(l, c) + l.batchSize);
  }

  function AllShards<T>(rows: seq<T>, l: Layout): seq<seq<T>> {
    seq(l.shards, s requires 0 <= s => PlainShard(rows, l, s))
  }

  /** With a single chunk, a shard is one cut. */
  lemma SingleChunkShard<T>(rows: seq<T>, l: Layout, s: nat)
    requires l.chunks == 1
    ensures PlainShard(rows, l, s) == Cut(rows, s * l.shardSize, s * l.shardSize + l.shardSize)
  {
    ShardPartsSnoc(rows, l, s, 0);
    assert ShardParts(rows, l, s, 0) == [];
  }

  lemma CutsCoverAll<T>(rows: seq<T>, size: nat, n: nat, end: nat)
    requires end == n * size && |rows| <= end
    ensures Flatten(Cuts(rows, 0, size, n)) == rows
  {
    CutsJoin(rows, 0, size, n, end);
    CutAll(rows, end);
  }

  lemma CutAll<T>(rows: seq<T>, end: nat)
    requires |rows| <= end
    ensures Cut(rows, 0, end) == rows
  {
  }

  lemma SingleChunkConserves<T>(rows: seq<T>, l: Layout)
    requires l.chunks == 1 && |rows| <= l.shardSize * l.shards
    ensures Flatten(AllShards(rows, l)) == rows
  {
    forall s | 0 <= s < l.shards ensures AllShards(rows, l)[s] == Cuts(rows, 0, l.shardSize, l.shards)[s] {
      SingleChunkShard(rows, l, s);
    }
    assert AllShards(rows, l) == Cuts(rows, 0, l.shardSize, l.shards);
    CutsCoverAll(rows, l.shardSize, l.shards, l.shards * l.shardSize);
  }

  lemma RoundedUpShare(total: nat, shards: nat)
    requires 0 < shards
    ensures var share := (total + shards - 1) / shards; total <= share * shards < total + shards
  {
    var m := total + shards - 1;
    assert m == m / shards * shards + m % shards;
  }

  /** With uneven shards, the shards in order are the whole batch, and none has more than the rounded-up share. */
  lemma UnevenShardsConserve<T>(rows: seq<T>, shards: nat)
    requires MakeLayout(|rows|, shards, None, true).Ok?
    ensures var l := MakeLayout(|rows|, shards, None, true).value;
      && Flatten(AllShards(rows, l)) == rows
      && (forall s :: 0 <= s < shards ==> |PlainShard(rows, l, s)| <= l.shardSize)
      && |rows| <= l.shardSize * shards < |rows| + shards
  {
    var l := MakeLayout(|rows|, shards, None, true).value;
    RoundedUpShare(|rows|, shards);
    SingleChunkConserves(rows, l);
    forall s | 0 <= s < shards ensures |PlainShard(rows, l, s)| <= l.shardSize {
      SingleChunkShard(rows, l, s);
    }
  }
}
