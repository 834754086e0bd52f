/**
 * The microbatch tables of dynamic batching: every shard's share of a chunk is cut at the same positions, so that all
 * data-parallel ranks run the same number of equally shaped microbatches.
 */
module DynamicMicrobatches {
  import opened Seqs
  import opened Lists
  import opened BatchedDataDicts
  import opened DynamicBatching

  /** The padded length that the rows at one position need, over all shards. */
  function PaddedLength(column: seq<nat>, round: nat, width: nat): nat
    requires 0 < round
  {
    Min((MaxOf(column) + round - 1) / round * round, width)
  }

  /** A multiple of `round` that is not below any row. */
  predicate CoveringMultiple(m: nat, column: seq<nat>, round: nat)
    requires 0 < round
  {
    IsMultiple(m, round) && forall s :: 0 <= s < |column| ==> column[s] <= m
  }

  /** The least multiple of `round` that covers all rows, or the width where that is less. */
  ghost predicate IsNeed(need: nat, column: seq<nat>, round: nat, width: nat)
    requires 0 < round
  {
    && need <= width
    && (need < width ==> CoveringMultiple(need, column, round))
    && (forall m: nat :: CoveringMultiple(m, column, round) ==> need <= m)
  }

  lemma PaddedLengthIsNeed(column: seq<nat>, round: nat, width: nat)
    requires 0 < round
    ensures IsNeed(PaddedLength(column, round, width), column, round, width)
  {
    RoundedUpIsLeast(MaxOf(column), round);
    forall s | 0 <= s < |column| ensures column[s] <= MaxOf(column) {
      MaxOfBounds(column, s);
    }
    forall m: nat | CoveringMultiple(m, column, round) ensures MaxOf(column) <= m {
      MaxOfAtMost(column, m);
    }
  }

  lemma {:induction false} MaxOfAtMost(s: seq<nat>, bound: nat)
    requires forall k :: 0 <= k < |s| ==> s[k] <= bound
    ensures MaxOf(s) <= bound
  {
    if s != [] {
      MaxOfAtMost(s[..|s| - 1], bound);
    }
  }

  lemma PaddedLengthCovers(column: seq<nat>, round: nat, width: nat, s: nat)
    requires 0 < round && s < |column|
    ensures Min(column[s], width) <= PaddedLength(column, round, width) <= width
  {
    MaxOfBounds(column, s);
    var m := MaxOf(column) + round - 1;
    assert m == m / round * round + m % round;
  }

  /** The lengths at position `i` of every shard's share. */
  function Column(shares: seq<seq<nat>>, i: nat): seq<nat>
    requires forall s :: 0 <= s < |shares| ==> i < |shares[s]|
  {
    seq(|shares|, s requires 0 <= s < |shares| => shares[s][i])
  }

  /** What each position needs over all shards. */
  function Needs(shares: seq<seq<nat>>, size: nat, round: nat, width: nat): (r: seq<nat>)
    requires 0 < round && forall s :: 0 <= s < |shares| ==> |shares[s]| == size
    ensures |r| == size && forall i :: 0 <= i < size ==> IsNeed(r[i], Column(shares, i), round, width)
  {
    assert forall i :: 0 <= i < size ==> IsNeed(PaddedLength(Column(shares, i), round, width), Column(shares, i), round, width) by {
      forall i | 0 <= i < size {
        PaddedLengthIsNeed(Column(shares, i), round, width);
      }
    }
    seq(size, i requires 0 <= i < size => PaddedLength(Column(shares, i), round, width))
  }

  /** A table of microbatches: positions `[start, end)` and the common padded length of each. */
  datatype Table = Table(intervals: seq<(nat, nat)>, lengths: seq<nat>)

  /** Microbatch `k` of the table: not empty, as long as its longest member, within budget. */
  ghost predicate FitsBudget(t: Table, needs: seq<nat>, maxTokens: int, k: nat)
    requires k < |t.intervals| == |t.lengths|
  {
    var (start, end) := t.intervals[k];
    && start < end <= |needs|
    && t.lengths[k] == MaxOf(needs[start..end])
    && (end - start) * t.lengths[k] <= maxTokens
  }

  /** Microbatch `k` could not take one more position. */
  ghost predicate IsFull(t: Table, needs: seq<nat>, maxTokens: int, k: nat)
    requires k < |t.intervals| == |t.lengths|
  {
    var (start, end) := t.intervals[k];
    end < |needs| && start <= end && (end - start + 1) * Max(t.lengths[k], needs[end]) > maxTokens
  }

  /** Microbatch `k` starts where the one before it ends, and that one was full. */
  ghost predicate Follows(t: Table, needs: seq<nat>, maxTokens: int, k: nat)
    requires 0 < k < |t.intervals| == |t.lengths|
  {
    t.intervals[k].0 == t.intervals[k - 1].1 && IsFull(t, needs, maxTokens, k - 1)
  }

  /**
   * The microbatches cover all positions from first to last without gap or overlap, none is empty or over budget, each
   * is padded to exactly its longest member, and each but the last is full.
   */
  ghost predicate GreedyTable(t: Table, needs: seq<nat>, maxTokens: int) {
    && |t.intervals| == |t.lengths| > 0
    && t.intervals[0].0 == 0 && t.intervals[|t.intervals| - 1].1 == |needs|
    && (forall k :: 0 <= k < |t.intervals| ==> FitsBudget(t, needs, maxTokens, k))
    && (forall k :: 0 < k < |t.intervals| ==> Follows(t, needs, maxTokens, k))
  }

  /** One more position joins the last microbatch. */
  function Grow(t: Table, length: nat): Table
    requires |t.intervals| == |t.lengths| > 0
  {
    var n := |t.intervals| - 1;
    Table(t.intervals[n := (t.intervals[n].0, t.intervals[n].1 + 1)], t.lengths[n := length])
  }

  /** A new microbatch is opened for one more position. */
  function Open(t: Table, i: nat, length: nat): Table {
    Table(t.intervals + [(i, i + 1)], t.lengths + [length])
  }

  lemma FitsPrefix(t: Table, needs: seq<nat>, x: nat, maxTokens: int, k: nat)
    requires k < |t.intervals| == |t.lengths| && FitsBudget(t, needs, maxTokens, k)
    ensures FitsBudget(t, needs + [x], maxTokens, k)
  {
    var (start, end) := t.intervals[k];
    assert (needs + [x])[start..end] == needs[start..end];
  }

  lemma MaxOfSnoc(s: seq<nat>, x: nat)
    ensures MaxOf(s + [x]) == Max(MaxOf(s), x)
  {
    assert (s + [x])[..|s|] == s;
  }

  lemma GrowKeepsGreedy(t: Table, needs: seq<nat>, x: nat, maxTokens: int)
    requires GreedyTable(t, needs, maxTokens)
    requires var n := |t.intervals| - 1;
      (t.intervals[n].1 - t.intervals[n].0 + 1) * Max(t.lengths[n], x) <= maxTokens
    ensures GreedyTable(Grow(t, Max(t.lengths[|t.intervals| - 1], x)), needs + [x], maxTokens)
  {
    var n := |t.intervals| - 1;
    var t', all := Grow(t, Max(t.lengths[n], x)), needs + [x];
    forall k | 0 <= k <= n ensures FitsBudget(t', all, maxTokens, k) {
      FitsPrefix(t, needs, x, maxTokens, k);
      if k == n {
        var (start, end) := t.intervals[n];
        assert all[start..end + 1] == needs[start..end] + [x];
        MaxOfSnoc(needs[start..end], x);
      }
    }
    forall k | 0 < k <= n ensures Follows(t', all, maxTokens, k) {
      assert Follows(t, needs, maxTokens, k);
      assert FitsBudget(t, needs, maxTokens, k);
    }
  }

  lemma OpenKeepsGreedy(t: Table, needs: seq<nat>, x: nat, maxTokens: int)
    requires GreedyTable(t, needs, maxTokens) && x <= maxTokens
    requires var n := |t.intervals| - 1;
      (t.intervals[n].1 - t.intervals[n].0 + 1) * Max(t.lengths[n], x) > maxTokens
    ensures GreedyTable(Open(t, |needs|, x), needs + [x], maxTokens)
  {
    var n := |t.intervals| - 1;
    var t', all := Open(t, |needs|, x), needs + [x];
    forall k | 0 <= k <= n + 1 ensures FitsBudget(t', all, maxTokens, k) {
      if k <= n {
        FitsPrefix(t, needs, x, maxTokens, k);
      } else {
        assert all[|needs|..|needs| + 1] == [] + [x];
        MaxOfSnoc([], x);
      }
    }
    forall k | 0 < k <= n + 1 ensures Follows(t', all, maxTokens, k) {
      assert FitsBudget(t, needs, maxTokens, k - 1);
      if k <= n {
        assert Follows(t, needs, maxTokens, k);
        assert FitsBudget(t, needs, maxTokens, k);
      }
    }
  }

  /** The padded length that position `i` needs, found shard by shard. */
  method NeedAt(shares: seq<seq<nat>>, i: nat, round: nat, width: nat) returns (need: nat)
    requires 0 < round && forall s :: 0 <= s < |shares| ==> i < |shares[s]|
    ensures need == PaddedLength(Column(shares, i), round, width)
  {
    var longest: nat := 0;
    var column := Column(shares, i);
    for s := 0 to |shares|
      invariant longest == MaxOf(column[..s])
    {
      assert column[..s + 1] == column[..s] + [column[s]];
      MaxOfSnoc(column[..s], column[s]);
      longest := Max(longest, shares[s][i]);
    }
    assert column[..|shares|] == column;
    need := Min((longest + round - 1) / round * round, width);
  }

  lemma SingleIsGreedy(x: nat, maxTokens: int)
    requires x <= maxTokens
    ensures GreedyTable(Table([(0, 1)], [x]), [x], maxTokens)
  {
    assert [x][0..1] == [] + [x];
    MaxOfSnoc([], x);
    assert FitsBudget(Table([(0, 1)], [x]), [x], maxTokens, 0);
  }

  /** The next position joins the current microbatch, or opens a new one. */
  method Extend(t: Table, longest: nat, i: nat, need: nat, maxTokens: int, ghost before: seq<nat>)
    returns (grown: Table, newLongest: nat)
    requires |before| == i && need <= maxTokens
    requires i == 0 ==> t == Table([(0, 0)], [0]) && longest == 0
    requires i > 0 ==> GreedyTable(t, before, maxTokens) && longest == t.lengths[|t.lengths| - 1]
    ensures GreedyTable(grown, before + [need], maxTokens) && newLongest == grown.lengths[|grown.lengths| - 1]
  {
    var n := |t.intervals| - 1;
    if i == 0 {
      SingleIsGreedy(need, maxTokens);
      assert before + [need] == [need];
      assert Grow(t, need) == Table([(0, 1)], [need]);
      return Grow(t, need), need;
    }
    assert FitsBudget(t, before, maxTokens, n);
    var current := t.intervals[n].1 - t.intervals[n].0 + 1;
    newLongest := Max(longest, need);
    if current * newLongest <= maxTokens {
      GrowKeepsGreedy(t, before, need, maxTokens);
      grown := Grow(t, newLongest);
    } else {
      OpenKeepsGreedy(t, before, need, maxTokens);
      newLongest := need;
      grown := Open(t, i, need);
    }
  }

  /**
   * Splits one chunk's share into microbatches, growing the current one while the tokens, positions times longest
   * padded length, stay within budget. It fails exactly when some position alone is over budget.
   */
  method SplitChunk(shares: seq<seq<nat>>, size: nat, round: nat, width: nat, maxTokens: int)
    returns (r: Result<Table, ShardError>)
    requires 0 < round && 0 < size && forall s :: 0 <= s < |shares| ==> |shares[s]| == size
    ensures r.Ok? <==> forall i :: 0 <= i < size ==> Needs(shares, size, round, width)[i] <= maxTokens
    ensures r.Ok? ==> GreedyTable(r.value, Needs(shares, size, round, width), maxTokens)
    ensures forall i :: 0 <= i < size ==> IsNeed(Needs(shares, size, round, width)[i], Column(shares, i), round, width)
  {
    ghost var needs := Needs(shares, size, round, width);
    var t := Table([(0, 0)], [0]);
    var longest: nat := 0;
    for i := 0 to size
      invariant i == 0 ==> t == Table([(0, 0)], [0]) && longest == 0
      invariant i > 0 ==> GreedyTable(t, needs[..i], maxTokens) && longest == t.lengths[|t.lengths| - 1]
      invariant forall j :: 0 <= j < i ==> needs[j] <= maxTokens
    {
      var need := NeedAt(shares, i, round, width);
      assert need == needs[i] && needs[..i + 1] == needs[..i] + [need];
      if need > maxTokens {
        return Err(SequenceTooLong);
      }
      t, longest := Extend(t, longest, i, need, maxTokens, needs[..i]);
    }
    assert needs[..size] == needs;
    return Ok(t);
  }

  // ---- The split is determined ----

  lemma {:induction false} MaxOfMonotone(s: seq<nat>, a: nat, b: nat, c: nat)
    requires a <= b <= c <= |s|
    ensures MaxOf(s[a..b]) <= MaxOf(s[a..c])
  {
    MaxOfPrefix(s[a..c], b - a);
    assert s[a..c][..b - a] == s[a..b];
  }

  lemma MulMonotone(a: nat, b: nat, x: nat, y: nat)
    requires a <= b && x <= y
    ensures a * x <= b * y
  {
    assert a * x <= b * x <= b * y;
  }

  /** A full microbatch cannot be a proper part of one within budget that starts at the same position. */
  lemma FullIsMaximal(t: Table, u: Table, needs: seq<nat>, maxTokens: int, k: nat)
    requires k < |t.intervals| == |t.lengths| && k < |u.intervals| == |u.lengths|
    requires FitsBudget(t, needs, maxTokens, k) && FitsBudget(u, needs, maxTokens, k)
    requires t.intervals[k].0 == u.intervals[k].0 && IsFull(t, needs, maxTokens, k)
    ensures u.intervals[k].1 <= t.intervals[k].1
  {
    var (start, end) := t.intervals[k];
    var other := u.intervals[k].1;
    if end < other {
      assert needs[start..end + 1] == needs[start..end] + [needs[end]];
      MaxOfSnoc(needs[start..end], needs[end]);
      MaxOfMonotone(needs, start, end + 1, other);
      MulMonotone(end - start + 1, other - start, MaxOf(needs[start..end + 1]), MaxOf(needs[start..other]));
    }
  }

  lemma {:induction false} SameUpTo(t: Table, u: Table, needs: seq<nat>, maxTokens: int, k: nat)
    requires GreedyTable(t, needs, maxTokens) && GreedyTable(u, needs, maxTokens)
    requires k < |t.intervals| && k < |u.intervals|
    ensures t.intervals[k].0 == u.intervals[k].0
    ensures k + 1 < |t.intervals| && k + 1 < |u.intervals| ==> t.intervals[k].1 == u.intervals[k].1
    ensures k + 1 < |t.intervals| <==> k + 1 < |u.intervals|
  {
    if k > 0 {
      SameUpTo(t, u, needs, maxTokens, k - 1);
      assert Follows(t, needs, maxTokens, k) && Follows(u, needs, maxTokens, k);
    }
    assert FitsBudget(t, needs, maxTokens, k) && FitsBudget(u, needs, maxTokens, k);
    if k + 1 < |t.intervals| {
      assert Follows(t, needs, maxTokens, k + 1);
      FullIsMaximal(t, u, needs, maxTokens, k);
    }
    if k + 1 < |u.intervals| {
      assert Follows(u, needs, maxTokens, k + 1);
      FullIsMaximal(u, t, needs, maxTokens, k);
    }
  }

  /** There is only one greedy table for given needs and budget. */
  lemma GreedyTableIsUnique(t: Table, u: Table, needs: seq<nat>, maxTokens: int)
    requires GreedyTable(t, needs, maxTokens) && GreedyTable(u, needs, maxTokens)
    ensures t == u
  {
    var m := Min(|t.intervals|, |u.intervals|);
    SameUpTo(t, u, needs, maxTokens, m - 1);
    forall k | 0 <= k < m ensures t.intervals[k] == u.intervals[k] && t.lengths[k] == u.lengths[k] {
      SameUpTo(t, u, needs, maxTokens, k);
      assert FitsBudget(t, needs, maxTokens, k) && FitsBudget(u, needs, maxTokens, k);
    }
  }

  // ---- The whole of dynamic batching ----

  /** Shard `s`'s share of chunk `c` in the lengths column. */
  function Share(lengths: seq<nat>, l: Layout, s: nat, c: nat): seq<nat>
    requires Covers(lengths, l)
  {
    Cut(PlainShard(SortedRows(lengths, lengths, l), l, s), ShareStart(l, c), ShareStart(l, c) + l.shardSize)
  }

  function Shares(lengths: seq<nat>, l: Layout, c: nat): seq<seq<nat>>
    requires Covers(lengths, l)
  {
    seq(l.shards, s requires 0 <= s && Covers(lengths, l) => Share(lengths, l, s, c))
  }

  lemma SharesAreFull(lengths: seq<nat>, l: Layout, c: nat)
    requires Covers(lengths, l) && c < l.chunks
    ensures forall s :: 0 <= s < l.shards ==> |Shares(lengths, l, c)[s]| == l.shardSize
  {
    forall s | 0 <= s < l.shards ensures |Shares(lengths, l, c)[s]| == l.shardSize {
      GetBatchIsSubShard(SortedRows(lengths, lengths, l), l, s, c);
      PartInRows(SortedRows(lengths, lengths, l), l, s, c);
    }
  }

  /** The padded lengths needed at each position of chunk `c`'s shares. */
  function ChunkNeeds(lengths: seq<nat>, l: Layout, c: nat, round: nat, width: nat): (r: seq<nat>)
    requires Covers(lengths, l) && 0 < round && c < l.chunks
    ensures |r| == l.shardSize && |Shares(lengths, l, c)| == l.shards
    ensures forall s :: 0 <= s < l.shards ==> |Shares(lengths, l, c)[s]| == l.shardSize
    ensures forall i :: 0 <= i < l.shardSize ==> IsNeed(r[i], Column(Shares(lengths, l, c), i), round, width)
  {
    SharesAreFull(lengths, l, c);
    Needs(Shares(lengths, l, c), l.shardSize, round, width)
  }

  /** The tables of every chunk: greedy, for the needs of that chunk. */
  ghost predicate AreTables(tables: seq<Table>, lengths: seq<nat>, l: Layout, round: nat, width: nat, maxTokens: int) {
    && Covers(lengths, l) && 0 < round && |tables| <= l.chunks
    && forall c :: 0 <= c < |tables| ==> GreedyTable(tables[c], ChunkNeeds(lengths, l, c, round, width), maxTokens)
  }

  /** No position of chunk `c` needs more than the whole budget for itself. */
  ghost predicate WithinBudget(lengths: seq<nat>, l: Layout, c: nat, round: nat, width: nat, maxTokens: int)
    requires Covers(lengths, l) && 0 < round && c < l.chunks
  {
    forall i :: 0 <= i < l.shardSize ==> ChunkNeeds(lengths, l, c, round, width)[i] <= maxTokens
  }

  method SplitOneChunk(lengths: seq<nat>, l: Layout, c: nat, round: nat, width: nat, maxTokens: int)
    returns (r: Result<Table, ShardError>)
    requires Covers(lengths, l) && 0 < round && c < l.chunks
    ensures r.Ok? <==> WithinBudget(lengths, l, c, round, width, maxTokens)
    ensures r.Ok? ==> GreedyTable(r.value, ChunkNeeds(lengths, l, c, round, width), maxTokens)
  {
    var shares := Shares(lengths, l, c);
    assert forall s :: 0 <= s < |shares| ==> |shares[s]| == l.shardSize by {
      SharesAreFull(lengths, l, c);
    }
    assert Needs(shares, l.shardSize, round, width) == ChunkNeeds(lengths, l, c, round, width);
    r := SplitChunk(shares, l.shardSize, round, width, maxTokens);
  }

  /** Splits every chunk; the tables are the same on all shards. */
  method SplitChunks(lengths: seq<nat>, l: Layout, round: nat, width: nat, maxTokens: int)
    returns (r: Result<seq<Table>, ShardError>)
    requires Covers(lengths, l) && 0 < round
    ensures r.Ok? <==> forall c :: 0 <= c < l.chunks ==> WithinBudget(lengths, l, c, round, width, maxTokens)
    ensures r.Ok? ==> |r.value| == l.chunks && AreTables(r.value, lengths, l, round, width, maxTokens)
  {
    var tables: seq<Table> := [];
    for c := 0 to l.chunks
      invariant |tables| == c && AreTables(tables, lengths, l, round, width, maxTokens)
      invariant forall k :: 0 <= k < c ==> WithinBudget(lengths, l, k, round, width, maxTokens)
    {
      var t := SplitOneChunk(lengths, l, c, round, width, maxTokens);
      if t.Err? {
        return Err(t.error);
      }
      tables := tables + [t.value];
    }
    return Ok(tables);
  }

  function Intervals(tables: seq<Table>): seq<seq<(nat, nat)>> {
    seq(|tables|, c requires 0 <= c < |tables| => tables[c].intervals)
  }

  function Lengths(tables: seq<Table>): seq<seq<nat>> {
    seq(|tables|, c requires 0 <= c < |tables| => tables[c].lengths)
  }

  /** Shard `s` with its rows and the common tables. */
  predicate IsDynamicShard<T(==)>(shard: BatchedDataDict<T>, rows: seq<T>, tables: seq<Table>)
    reads shard
  {
    && shard.rows == rows && shard.elemCountsPerGb == None
    && shard.microBatchIndices == Some(Intervals(tables)) && shard.microBatchLengths == Some(Lengths(tables))
  }

  /** One object for each shard, all with the same tables. */
  method AttachTables<T(==)>(parts: seq<seq<T>>, tables: seq<Table>) returns (objects: seq<BatchedDataDict<T>>)
    ensures |objects| == |parts|
    ensures forall s :: 0 <= s < |parts| ==> fresh(objects[s]) && IsDynamicShard(objects[s], parts[s], tables)
  {
    var intervals, lengths := Intervals(tables), Lengths(tables);
    objects := [];
    for s := 0 to |parts|
      invariant |objects| == s
      invariant forall k :: 0 <= k < s ==> fresh(objects[k]) && IsDynamicShard(objects[k], parts[k], tables)
    {
      var shard := new BatchedDataDict<T>(parts[s]);
      shard.microBatchIndices, shard.microBatchLengths := Some(intervals), Some(lengths);
      objects := objects + [shard];
    }
  }

  /** The batch size divides as it must, and no row is over budget on its own. */
  ghost predicate CanShard(lengths: seq<nat>, shards: nat, batchSize: Option<nat>, round: nat, width: nat, maxTokens: int) {
    var layout := MakeLayout(|lengths|, shards, batchSize, false);
    && layout.Ok?
    && 0 < round
    && (forall c :: 0 <= c < layout.value.chunks ==> WithinBudget(lengths, layout.value, c, round, width, maxTokens))
  }

  /** `shard_by_batch_size` with dynamic batching; `width` is the padded width of the token rows. */
  method ShardForDynamicBatching<T(==)>(batch: BatchedDataDict<T>, lengths: seq<nat>, shards: nat, batchSize: Option<nat>,
                                    round: nat, width: nat, maxTokens: int)
    returns (r: Result<(seq<BatchedDataDict<T>>, seq<nat>), ShardError>, ghost tables: seq<Table>)
    requires |lengths| == |batch.rows|
    ensures r.Ok? <==> CanShard(lengths, shards, batchSize, round, width, maxTokens)
    ensures r.Ok? ==>
      var l := MakeLayout(|batch.rows|, shards, batchSize, false).value;
      && |tables| == l.chunks
      && AreTables(tables, lengths, l, round, width, maxTokens)
      && r.value.1 == SortedIndices(lengths, l)
      && |r.value.0| == shards
      && (forall s :: 0 <= s < shards ==> fresh(r.value.0[s]))
      && (forall s :: 0 <= s < shards ==>
            IsDynamicShard(r.value.0[s], PlainShard(SortedRows(batch.rows, lengths, l), l, s), tables))
  {
    tables := [];
    var layout := MakeLayout(|batch.rows|, shards, batchSize, false);
    if layout.Err? {
      return Err(layout.error), [];
    }
    if round == 0 {
      return Err(DivisionByZero), [];
    }
    var l := layout.value;
    var indices := SortedIndices(lengths, l);
    var sorted := SortedRows(batch.rows, lengths, l);
    var parts := AggregateShards(sorted, l, false);
    var split := SplitChunks(lengths, l, round, width, maxTokens);
    if split.Err? {
      return Err(split.error), [];
    }
    tables := split.value;
    var objects := AttachTables(parts, split.value);
    return Ok((objects, indices)), tables;
  }

  // ---- What the tables mean for the rows ----

  /**
   * In every chunk, on every shard: a row of microbatch `k` is no longer than the length the microbatch is cut to, as
   * long as it fits the padded width at all, and that length is within the width.
   */
  lemma MembersFit(tables: seq<Table>, lengths: seq<nat>, l: Layout, round: nat, width: nat, maxTokens: int,
                   c: nat, s: nat, k: nat, i: nat)
    requires AreTables(tables, lengths, l, round, width, maxTokens) && |tables| == l.chunks && c < l.chunks && s < l.shards
    requires k < |tables[c].intervals| == |tables[c].lengths| && tables[c].intervals[k].0 <= i < tables[c].intervals[k].1
    ensures i < |Share(lengths, l, s, c)|
    ensures Min(Share(lengths, l, s, c)[i], width) <= tables[c].lengths[k]
  {
    var t, needs := tables[c], ChunkNeeds(lengths, l, c, round, width);
    assert GreedyTable(t, needs, maxTokens);
    assert FitsBudget(t, needs, maxTokens, k);
    SharesAreFull(lengths, l, c);
    var (start, end) := t.intervals[k];
    MaxOfBounds(needs[start..end], i - start);
    assert needs[start..end][i - start] == needs[i];
    PaddedLengthCovers(Column(Shares(lengths, l, c), i), round, width, s);
    assert Shares(lengths, l, c)[s][i] == Column(Shares(lengths, l, c), i)[s];
  }

  // ---- Iterating over a batch ----

  function TruncateRow(row: Row, n: nat): Row {
    if n <= |row.tokens| then row.(tokens := row.tokens[..n]) else row
  }

  function TruncateRows(rows: seq<Row>, n: nat): seq<Row>
  {
    seq(|rows|, i requires 0 <= i < |rows| => TruncateRow(rows[i], n))
  }

  /** The cut row still has all real tokens. */
  ghost predicate KeepsRealTokens(row: Row, cut: Row) {
    && cut.length == row.length <= |row.tokens|
    && row.length <= |cut.tokens| && cut.tokens[..row.length] == row.tokens[..row.length]
  }

  /** Cutting a row to a length that covers its real tokens keeps all of them. */
  lemma TruncationKeepsRealTokens(row: Row, n: nat)
    requires row.length <= |row.tokens| && Min(row.length, |row.tokens|) <= n
    ensures KeepsRealTokens(row, TruncateRow(row, n))
  {
  }

  /** Every row is cut to its first `n` tokens, and nothing else of it changes. */
  ghost predicate IsTruncated(cut: seq<Row>, rows: seq<Row>, n: nat) {
    && |cut| == |rows| && cut == TruncateRows(rows, n)
    && (forall row :: row in rows ==> n <= |row.tokens|)
    && (forall i :: 0 <= i < |rows| ==>
          |cut[i].tokens| == n && cut[i].tokens <= rows[i].tokens && cut[i].length == rows[i].length)
  }

  /** No row is narrower than the length its microbatch is cut to. */
  predicate WideEnough(batches: seq<seq<Row>>, lengths: seq<nat>, n: nat)
    requires n <= |batches| <= |lengths|
  {
    forall k :: 0 <= k < n ==> forall row :: row in batches[k] ==> lengths[k] <= |row.tokens|
  }

  method TruncateAll(whole: seq<seq<Row>>, lengths: seq<nat>) returns (r: Result<seq<seq<Row>>, SliceError>)
    requires |whole| <= |lengths|
    ensures r.Ok? <==> WideEnough(whole, lengths, |whole|)
    ensures r.Ok? ==> |r.value| == |whole| && forall k :: 0 <= k < |whole| ==> IsTruncated(r.value[k], whole[k], lengths[k])
  {
    var truncated: seq<seq<Row>> := [];
    for k := 0 to |whole|
      invariant |truncated| == k && WideEnough(whole, lengths, k)
      invariant forall j :: 0 <= j < k ==> IsTruncated(truncated[j], whole[j], lengths[j])
    {
      if exists row :: row in whole[k] && |row.tokens| < lengths[k] {
        return Err(OutOfRange);
      }
      truncated := truncated + [TruncateRows(whole[k], lengths[k])];
    }
    return Ok(truncated);
  }

  /** The microbatches in order, each cut to its own length. It fails only without a table or when a row is too narrow. */
  method MakeMicrobatchIteratorWithDynamicShapes(batch: BatchedDataDict<Row>) returns (r: Result<seq<seq<Row>>, SliceError>)
    ensures r.Ok? ==> batch.IntervalsFit()
    ensures batch.IntervalsFit() ==>
      var lengths := batch.microBatchLengths.value[0];
      var whole := Microbatches(batch.rows, batch.microBatchIndices.value[0], lengths);
      && (r.Ok? <==> WideEnough(whole, lengths, |whole|))
      && (r.Ok? ==> |r.value| == |whole| && forall k :: 0 <= k < |whole| ==> IsTruncated(r.value[k], whole[k], lengths[k]))
  {
    var whole := batch.MakeMicrobatchIteratorForPackableSequences();
    if whole.Err? {
      return Err(whole.error);
    }
    r := TruncateAll(whole.value, batch.microBatchLengths.value[0]);
  }

  // ---- No real token is cut off ----

  /** Shard `s`'s rows of chunk `c`, as `get_batch(c, shardSize)` returns them. */
  function ChunkOnShard<T>(rows: seq<T>, lengths: seq<nat>, l: Layout, s: nat, c: nat): seq<T>
    requires Covers(lengths, l) && |rows| == |lengths|
  {
    Cut(PlainShard(SortedRows(rows, lengths, l), l, s), ShareStart(l, c), ShareStart(l, c) + l.shardSize)
  }

  /** The rows of a batch padded to `width`, with their lengths. */
  ghost predicate IsPadded(rows: seq<Row>, lengths: seq<nat>, width: nat) {
    |rows| == |lengths| && forall i :: 0 <= i < |rows| ==> lengths[i] == rows[i].length <= |rows[i].tokens| == width
  }

  lemma SortedRowsPadded(rows: seq<Row>, lengths: seq<nat>, l: Layout, width: nat, j: nat)
    requires Covers(lengths, l) && IsPadded(rows, lengths, width) && j < |rows|
    ensures var row := SortedRows(rows, lengths, l)[j];
      SortedRows(lengths, lengths, l)[j] == row.length <= |row.tokens| == width
  {
    SortedIndicesPermute(lengths, l);
    PermutationMeans(SortedIndices(lengths, l), |lengths|);
  }

  /** A shard's share of the lengths column has the lengths of its rows. */
  lemma ShareHasLengths(rows: seq<Row>, lengths: seq<nat>, l: Layout, width: nat, s: nat, c: nat, p: nat)
    requires Covers(lengths, l) && IsPadded(rows, lengths, width) && c < l.chunks && s < l.shards && p < l.shardSize
    ensures |ChunkOnShard(rows, lengths, l, s, c)| == l.shardSize == |Share(lengths, l, s, c)|
    ensures var row := ChunkOnShard(rows, lengths, l, s, c)[p];
      Share(lengths, l, s, c)[p] == row.length <= |row.tokens| == width
  {
    var x, y := SortedRows(rows, lengths, l), SortedRows(lengths, lengths, l);
    ShardSliceAt(x, l, s, c, p);
    ShardSliceAt(y, l, s, c, p);
    SortedRowsPadded(rows, lengths, l, width, PartStart(l, s, c) + p);
  }

  lemma ShardSliceAt<T>(x: seq<T>, l: Layout, s: nat, c: nat, p: nat)
    requires l.Even() && l.chunks * l.batchSize == |x| && c < l.chunks && s < l.shards && p < l.shardSize
    ensures var part := Cut(PlainShard(x, l, s), ShareStart(l, c), ShareStart(l, c) + l.shardSize);
      && |part| == l.shardSize && 0 <= PartStart(l, s, c) + p < |x|
      && part[p] == x[PartStart(l, s, c) + p]
  {
    GetBatchIsSubShard(x, l, s, c);
    PlainShardAt(x, l, s, c, p);
    SliceAt(PlainShard(x, l, s), ShareStart(l, c), l.shardSize, p);
  }

  /** No microbatch is cut to more than the padded width, and every interval lies within the shares. */
  lemma IntervalInWidth(tables: seq<Table>, lengths: seq<nat>, l: Layout, round: nat, width: nat, maxTokens: int, c: nat, k: nat)
    requires AreTables(tables, lengths, l, round, width, maxTokens) && |tables| == l.chunks && c < l.chunks
    requires k < |tables[c].intervals| == |tables[c].lengths|
    ensures tables[c].intervals[k].0 < tables[c].intervals[k].1 <= l.shardSize && tables[c].lengths[k] <= width
  {
    var t, needs := tables[c], ChunkNeeds(lengths, l, c, round, width);
    assert GreedyTable(t, needs, maxTokens);
    assert FitsBudget(t, needs, maxTokens, k);
    SharesAreFull(lengths, l, c);
    MaxOfAtMost(needs[t.intervals[k].0..t.intervals[k].1], width);
  }

  /** What the iterator makes of microbatch `k`: the rows at positions `start..end`, none narrower than the cut. */
  ghost predicate CutsSafely(chunk: seq<Row>, interval: (nat, nat), n: nat) {
    && interval.0 <= interval.1 <= |chunk|
    && forall p :: interval.0 <= p < interval.1 ==>
         n <= |chunk[p].tokens| && KeepsRealTokens(chunk[p], TruncateRow(chunk[p], n))
  }

  lemma IntervalCutsSafely(rows: seq<Row>, lengths: seq<nat>, tables: seq<Table>, l: Layout, round: nat, width: nat,
                           maxTokens: int, c: nat, s: nat, k: nat)
    requires AreTables(tables, lengths, l, round, width, maxTokens) && |tables| == l.chunks && c < l.chunks && s < l.shards
    requires IsPadded(rows, lengths, width) && k < |tables[c].intervals| == |tables[c].lengths|
    ensures CutsSafely(ChunkOnShard(rows, lengths, l, s, c), tables[c].intervals[k], tables[c].lengths[k])
  {
    var chunk, n := ChunkOnShard(rows, lengths, l, s, c), tables[c].lengths[k];
    IntervalInWidth(tables, lengths, l, round, width, maxTokens, c, k);
    ShareHasLengths(rows, lengths, l, width, s, c, tables[c].intervals[k].0);
    forall p | tables[c].intervals[k].0 <= p < tables[c].intervals[k].1
      ensures n <= |chunk[p].tokens| && KeepsRealTokens(chunk[p], TruncateRow(chunk[p], n))
    {
      MembersFit(tables, lengths, l, round, width, maxTokens, c, s, k, p);
      ShareHasLengths(rows, lengths, l, width, s, c, p);
      TruncationKeepsRealTokens(chunk[p], n);
    }
  }

  /** The microbatches of an interval table whose intervals are safe to cut. */
  lemma SafeMicrobatches(chunk: seq<Row>, intervals: seq<(nat, nat)>, lengths: seq<nat>)
    requires |intervals| == |lengths|
    requires forall k :: 0 <= k < |intervals| ==> CutsSafely(chunk, intervals[k], lengths[k])
    ensures var whole := Microbatches(chunk, intervals, lengths);
      && |whole| == |lengths| && WideEnough(whole, lengths, |whole|)
      && forall k, i :: 0 <= k < |whole| && 0 <= i < |whole[k]| ==>
           KeepsRealTokens(whole[k][i], TruncateRows(whole[k], lengths[k])[i])
  {
    var whole: seq<seq<Row>> := Microbatches(chunk, intervals, lengths);
    forall k, i | 0 <= k < |whole| && 0 <= i < |whole[k]|
      ensures lengths[k] <= |whole[k][i].tokens| && KeepsRealTokens(whole[k][i], TruncateRows(whole[k], lengths[k])[i])
    {
      assert CutsSafely(chunk, intervals[k], lengths[k]);
      assert whole[k][i] == chunk[intervals[k].0 + i];
    }
  }

  /**
   * Cutting dynamic microbatches loses nothing: for every chunk and shard, every microbatch of the table lies within the
   * shard's rows and is wide enough to be cut, and every row of it keeps all its real tokens.
   */
  lemma DynamicCutsKeepRealTokens(rows: seq<Row>, lengths: seq<nat>, tables: seq<Table>, l: Layout, round: nat, width: nat,
                                  maxTokens: int, c: nat, s: nat)
    requires AreTables(tables, lengths, l, round, width, maxTokens) && |tables| == l.chunks && c < l.chunks && s < l.shards
    requires IsPadded(rows, lengths, width)
    ensures var chunk, t := ChunkOnShard(rows, lengths, l, s, c), tables[c];
      var whole := Microbatches(chunk, t.intervals, t.lengths);
      && |whole| == |t.intervals| == |t.lengths|
      && (forall k :: 0 <= k < |t.intervals| ==> t.intervals[k].1 <= |chunk|)
      && WideEnough(whole, t.lengths, |whole|)
      && forall k, i :: 0 <= k < |whole| && 0 <= i < |whole[k]| ==>
           KeepsRealTokens(whole[k][i], TruncateRows(whole[k], t.lengths[k])[i])
  {
    var chunk, t := ChunkOnShard(rows, lengths, l, s, c), tables[c];
    assert GreedyTable(t, ChunkNeeds(lengths, l, c, round, width), maxTokens);
    forall k | 0 <= k < |t.intervals| ensures CutsSafely(chunk, t.intervals[k], t.lengths[k]) {
      IntervalCutsSafely(rows, lengths, tables, l, round, width, maxTokens, c, s, k);
    }
    SafeMicrobatches(chunk, t.intervals, t.lengths);
  }
}
