/**
 * The backward passes that avoid dense one-hot tensors: the gradient is laid out flat and the chosen entries are added
 * to it by position. The results equal the dense formulas, entry by entry, with repeated and off-shard indices.
 */
module ScatterGradients {
  import opened Seqs
  import opened Lists
  import opened BatchedDataDicts
  import opened ContextParallel
  import VocabParallel

  // ---- Scatter-add ----

  /** What a list of positions with values adds at position `k`. */
  function SumAt(positions: seq<int>, values: seq<real>, k: int): real
    requires |positions| == |values|
  {
    if positions == [] then 0.0
    else
      var n := |positions| - 1;
      SumAt(positions[..n], values[..n], k) + (if positions[n] == k then values[n] else 0.0)
  }

  lemma {:induction false} SumAtConcat(p: seq<int>, x: seq<real>, q: seq<int>, y: seq<real>, k: int)
    requires |p| == |x| && |q| == |y|
    ensures SumAt(p + q, x + y, k) == SumAt(p, x, k) + SumAt(q, y, k)
  {
    if q == [] {
      assert p + q == p && x + y == x;
    } else {
      var n := |q| - 1;
      assert (p + q)[..|p| + n] == p + q[..n] && (x + y)[..|x| + n] == x + y[..n];
      SumAtConcat(p, x, q[..n], y[..n], k);
    }
  }

  lemma {:induction false} SumElsewhere(positions: seq<int>, values: seq<real>, k: int)
    requires |positions| == |values| && forall i :: 0 <= i < |positions| ==> positions[i] != k
    ensures SumAt(positions, values, k) == 0.0
  {
    if positions != [] {
      SumElsewhere(positions[..|positions| - 1], values[..|values| - 1], k);
    }
  }

  /** `scatter_add_`: repeated positions accumulate. */
  method ScatterAdd(a: array<real>, positions: seq<int>, values: seq<real>)
    requires |positions| == |values| && forall i :: 0 <= i < |positions| ==> 0 <= positions[i] < a.Length
    modifies a
    ensures forall k :: 0 <= k < a.Length ==> a[k] == old(a[k]) + SumAt(positions, values, k)
  {
    for i := 0 to |positions|
      invariant forall k :: 0 <= k < a.Length ==> a[k] == old(a[k]) + SumAt(positions[..i], values[..i], k)
    {
      assert positions[..i + 1][..i] == positions[..i] && values[..i + 1][..i] == values[..i];
      a[positions[i]] := a[positions[i]] + values[i];
    }
    assert positions[..|positions|] == positions && values[..|values|] == values;
  }

  // ---- Scattering row by row ----

  /** The positions of a row that starts at `low` and is `width` long. */
  ghost predicate InRow(block: seq<int>, low: nat, width: nat) {
    forall i :: 0 <= i < |block| ==> low <= block[i] < low + width
  }

  /** One block of positions and values for each row, each staying in its row. */
  ghost predicate RowBlocks(blocks: seq<seq<int>>, values: seq<seq<real>>, width: nat) {
    && |blocks| == |values|
    && (forall q :: 0 <= q < |blocks| ==> |blocks[q]| == |values[q]|)
    && (forall q :: 0 <= q < |blocks| ==> InRow(blocks[q], q * width, width))
  }

  lemma {:induction false} BlocksAlign(blocks: seq<seq<int>>, values: seq<seq<real>>, width: nat, end: nat)
    requires RowBlocks(blocks, values, width) && end == |blocks| * width
    ensures |Flatten(blocks)| == |Flatten(values)|
    ensures forall i :: 0 <= i < |Flatten(blocks)| ==> 0 <= Flatten(blocks)[i] < end
  {
    if blocks != [] {
      var n := |blocks| - 1;
      assert n * width == end - width;
      BlocksAlign(blocks[..n], values[..n], width, end - width);
      assert InRow(blocks[n], n * width, width);
    }
  }

  /** The last block adds nothing to earlier rows, and earlier blocks nothing to the last row. */
  lemma LastBlockApart(blocks: seq<seq<int>>, values: seq<seq<real>>, width: nat, n: nat, low: nat, k: int)
    requires RowBlocks(blocks, values, width) && |blocks| == n + 1 && low == n * width
    requires |Flatten(blocks)| == |Flatten(values)| && |Flatten(blocks[..n])| == |Flatten(values[..n])|
    ensures k < low ==> SumAt(Flatten(blocks), Flatten(values), k) == SumAt(Flatten(blocks[..n]), Flatten(values[..n]), k)
    ensures low <= k ==> SumAt(Flatten(blocks), Flatten(values), k) == SumAt(blocks[n], values[n], k)
  {
    SumAtConcat(Flatten(blocks[..n]), Flatten(values[..n]), blocks[n], values[n], k);
    if k < low {
      assert InRow(blocks[n], low, width);
      SumElsewhere(blocks[n], values[n], k);
    } else {
      BlocksAlign(blocks[..n], values[..n], width, low);
      SumElsewhere(Flatten(blocks[..n]), Flatten(values[..n]), k);
    }
  }

  /** Only row `q` itself adds to its own entries. */
  lemma {:induction false} OnlyItsRow(blocks: seq<seq<int>>, values: seq<seq<real>>, width: nat, q: nat, low: nat, k: int)
    requires RowBlocks(blocks, values, width) && q < |blocks| && low == q * width && low <= k < low + width
    requires |Flatten(blocks)| == |Flatten(values)|
    ensures SumAt(Flatten(blocks), Flatten(values), k) == SumAt(blocks[q], values[q], k)
  {
    var n := |blocks| - 1;
    BlocksAlign(blocks[..n], values[..n], width, n * width);
    LastBlockApart(blocks, values, width, n, n * width, k);
    if q < n {
      RowWithin(q, n, width);
      OnlyItsRow(blocks[..n], values[..n], width, q, low, k);
    }
  }

  // ---- The gradient of gathered log-probabilities ----

  /** One position: its softmax on this rank, its global indices and the gradients of their log-probabilities. */
  datatype Position = Position(softmax: seq<real>, indices: seq<int>, grads: seq<real>)

  ghost predicate AreRows(rows: seq<Position>, width: nat) {
    forall q :: 0 <= q < |rows| ==> |rows[q].softmax| == width && |rows[q].indices| == |rows[q].grads|
  }

  /** The gradient for the entry with global index `g`: minus softmax times all gradients, plus those that chose `g`. */
  function GradEntry(softmax: real, indices: seq<int>, grads: seq<real>, g: int): real
    requires |indices| == |grads|
  {
    Times(-softmax, SumReals(grads)) + SumAt(indices, grads, g)
  }

  function GradRow(p: Position, start: int): seq<real>
    requires |p.indices| == |p.grads|
  {
    seq(|p.softmax|, v requires 0 <= v < |p.softmax| => GradEntry(p.softmax[v], p.indices, p.grads, start + v))
  }

  function GradRows(rows: seq<Position>, start: int): seq<seq<real>>
    requires forall q :: 0 <= q < |rows| ==> |rows[q].indices| == |rows[q].grads|
  {
    seq(|rows|, q requires 0 <= q < |rows| => GradRow(rows[q], start))
  }

  function Softmaxes(rows: seq<Position>): seq<seq<real>> {
    seq(|rows|, q requires 0 <= q < |rows| => rows[q].softmax)
  }

  function Clamp(x: int, width: nat): int { if x < 0 then 0 else if x >= width then width - 1 else x }

  /** The flat positions of row `q`: local indices, clamped into the row. */
  function ClampedBlock(indices: seq<int>, q: nat, width: nat, start: int): seq<int>
  {
    seq(|indices|, k requires 0 <= k < |indices| => q * width + Clamp(indices[k] - start, width))
  }

  /** The gradients, zeroed where the index is not on this rank. */
  function MaskedGrads(indices: seq<int>, grads: seq<real>, width: nat, start: int): seq<real>
    requires |indices| == |grads|
  {
    seq(|grads|, k requires 0 <= k < |grads| => if start <= indices[k] < start + width then grads[k] else 0.0)
  }

  /** Clamping hides no mistake: the masked gradients at the clamped positions are the gradients at the global index. */
  lemma {:induction false} ClampedSum(indices: seq<int>, grads: seq<real>, q: nat, width: nat, start: int, v: nat, base: nat)
    requires |indices| == |grads| && v < width && base == q * width
    ensures SumAt(ClampedBlock(indices, q, width, start), MaskedGrads(indices, grads, width, start), base + v)
         == SumAt(indices, grads, start + v)
  {
    if indices != [] {
      var n := |indices| - 1;
      ClampedSum(indices[..n], grads[..n], q, width, start, v, base);
      assert ClampedBlock(indices, q, width, start)[..n] == ClampedBlock(indices[..n], q, width, start);
      assert MaskedGrads(indices, grads, width, start)[..n] == MaskedGrads(indices[..n], grads[..n], width, start);
    }
  }

  /** One factor for each row, expanded over the row. */
  function Expanded(factors: seq<real>, width: nat): seq<seq<real>> {
    seq(|factors|, q requires 0 <= q < |factors| => seq(width, _ => factors[q]))
  }

  /** Negated softmax, then every row times its factor, in place. */
  method NegatedTimes(rows: seq<Position>, factors: seq<real>, width: nat) returns (a: array<real>)
    requires |factors| == |rows| && AreRows(rows, width)
    ensures fresh(a) && a.Length == |rows| * width == |Flatten(Softmaxes(rows))| == |Flatten(Expanded(factors, width))|
    ensures forall i :: 0 <= i < a.Length ==>
                          a[i] == Times(-Flatten(Softmaxes(rows))[i], Flatten(Expanded(factors, width))[i])
  {
    var flat, expanded := Flatten(Softmaxes(rows)), Flatten(Expanded(factors, width));
    FlatLength(Softmaxes(rows), width);
    FlatLength(Expanded(factors, width), width);
    a := new real[|flat|](i requires 0 <= i < |flat| => -flat[i]);
    for i := 0 to a.Length
      invariant forall j :: 0 <= j < i ==> a[j] == Times(-flat[j], expanded[j])
      invariant forall j :: i <= j < a.Length ==> a[j] == -flat[j]
    {
      a[i] := Times(a[i], expanded[i]);
    }
  }

  lemma RowBound(i: nat, rows: nat, width: nat)
    requires 0 < width && i < rows * width
    ensures 0 <= i / width < rows && i == i / width * width + i % width
  {
    var q := i / width;
    assert q >= rows ==> q * width >= rows * width;
  }

  lemma FlatLength<T>(parts: seq<seq<T>>, width: nat)
    requires forall q :: 0 <= q < |parts| ==> |parts[q]| == width
    ensures |Flatten(parts)| == |parts| * width
  {
    UniformOffset(parts, width, |parts|);
    assert parts[..|parts|] == parts;
  }

  /** Entry `v` of row `q` of a flattened tensor. */
  lemma FlatEntry<T>(parts: seq<seq<T>>, width: nat, q: nat, v: nat, i: nat)
    requires q < |parts| && v < width && i == q * width + v
    requires forall p :: 0 <= p < |parts| ==> |parts[p]| == width
    ensures i < |Flatten(parts)| && Flatten(parts)[i] == parts[q][v]
  {
    UniformSlice(parts, width, q);
    SliceAt(Flatten(parts), q * width, width, v);
  }

  /** The factors of the softmax term: each row's gradients summed. */
  function GradSums(rows: seq<Position>): seq<real> {
    seq(|rows|, q requires 0 <= q < |rows| => SumReals(rows[q].grads))
  }

  /** Blocks that add to each entry of each row exactly the gradients that chose it. */
  ghost predicate Faithful(blocks: seq<seq<int>>, values: seq<seq<real>>, rows: seq<Position>, width: nat, start: int)
    requires AreRows(rows, width)
  {
    && |blocks| == |rows| && RowBlocks(blocks, values, width)
    && (forall q: nat, v: nat :: q < |rows| && v < width ==> BlockAdds(blocks[q], values[q], rows[q], q, width, start, v))
  }

  ghost predicate BlockAdds(block: seq<int>, values: seq<real>, row: Position, q: nat, width: nat, start: int, v: nat)
    requires |block| == |values| && |row.indices| == |row.grads|
  {
    SumAt(block, values, q * width + v) == SumAt(row.indices, row.grads, start + v)
  }

  /** What lies at flat position `i`, row `q` and entry `v`, of the gradient. */
  lemma GradRowsEntry(rows: seq<Position>, width: nat, start: int, q: nat, v: nat, i: nat)
    requires AreRows(rows, width) && q < |rows| && v < width && i == q * width + v
    ensures i < |Flatten(GradRows(rows, start))| && i < |Flatten(Softmaxes(rows))| && i < |Flatten(Expanded(GradSums(rows), width))|
    ensures Flatten(GradRows(rows, start))[i]
         == Times(-Flatten(Softmaxes(rows))[i], Flatten(Expanded(GradSums(rows), width))[i])
          + SumAt(rows[q].indices, rows[q].grads, start + v)
  {
    FlatEntry(Softmaxes(rows), width, q, v, i);
    FlatEntry(Expanded(GradSums(rows), width), width, q, v, i);
    FlatEntry(GradRows(rows, start), width, q, v, i);
  }

  /** Faithful blocks add to every entry what its row demands. */
  lemma BlocksAdd(blocks: seq<seq<int>>, values: seq<seq<real>>, rows: seq<Position>, width: nat, start: int, q: nat,
                  v: nat, i: nat)
    requires AreRows(rows, width) && Faithful(blocks, values, rows, width, start)
    requires |Flatten(blocks)| == |Flatten(values)| && q < |rows| && v < width && i == q * width + v
    ensures SumAt(Flatten(blocks), Flatten(values), i) == SumAt(rows[q].indices, rows[q].grads, start + v)
  {
    OnlyItsRow(blocks, values, width, q, q * width, i);
    assert BlockAdds(blocks[q], values[q], rows[q], q, width, start, v);
  }

  /** The scatter step shared by the two backward passes. */
  method ScatterBlocks(rows: seq<Position>, width: nat, start: int, blocks: seq<seq<int>>, values: seq<seq<real>>)
    returns (a: array<real>)
    requires 0 < width && AreRows(rows, width) && Faithful(blocks, values, rows, width, start)
    ensures fresh(a) && a[..] == Flatten(GradRows(rows, start))
  {
    a := NegatedTimes(rows, GradSums(rows), width);
    BlocksAlign(blocks, values, width, a.Length);
    ghost var before := a[..];
    ScatterAdd(a, Flatten(blocks), Flatten(values));
    FlatLength(GradRows(rows, start), width);
    forall i | 0 <= i < a.Length ensures a[i] == Flatten(GradRows(rows, start))[i] {
      assert a[i] == before[i] + SumAt(Flatten(blocks), Flatten(values), i);
      RowBound(i, |rows|, width);
      GradRowsEntry(rows, width, start, i / width, i % width, i);
      BlocksAdd(blocks, values, rows, width, start, i / width, i % width, i);
    }
  }

  // ---- DistributedLogprob.backward ----

  /** Every position has one target. */
  ghost predicate SingleTargets(rows: seq<Position>) {
    forall q :: 0 <= q < |rows| ==> |rows[q].indices| == |rows[q].grads| == 1
  }

  function OnRank(target: int, start: int, width: nat): bool { start <= target < start + width }

  /** One-hot of the target where this rank owns it, minus the softmax, times the gradient. */
  function DenseRow(p: Position, start: int): (r: seq<real>)
    requires |p.indices| == |p.grads| == 1
    ensures |r| == |p.softmax|
  {
    var isChosen := OnRank(p.indices[0], start, |p.softmax|);
    var masked := if isChosen then p.indices[0] - start else 0;
    seq(|p.softmax|, v requires 0 <= v < |p.softmax| =>
      ((if isChosen && masked == v then 1.0 else 0.0) - p.softmax[v]) * p.grads[0])
  }

  function DenseRows(rows: seq<Position>, start: int): seq<seq<real>>
    requires forall q :: 0 <= q < |rows| ==> |rows[q].indices| == |rows[q].grads| == 1
  {
    seq(|rows|, q requires 0 <= q < |rows| => DenseRow(rows[q], start))
  }

  lemma SingleSum(indices: seq<int>, grads: seq<real>, g: int)
    requires |indices| == |grads| == 1
    ensures SumReals(grads) == grads[0]
    ensures SumAt(indices, grads, g) == if indices[0] == g then grads[0] else 0.0
  {
    assert SumReals(grads[..0]) == 0.0 && SumAt(indices[..0], grads[..0], g) == 0.0;
  }

  lemma DenseIsGrad(rows: seq<Position>, start: int)
    requires SingleTargets(rows)
    ensures DenseRows(rows, start) == GradRows(rows, start)
  {
    forall q | 0 <= q < |rows| ensures DenseRow(rows[q], start) == GradRow(rows[q], start) {
      var p := rows[q];
      forall v | 0 <= v < |p.softmax| ensures DenseRow(p, start)[v] == GradRow(p, start)[v] {
        SingleSum(p.indices, p.grads, start + v);
      }
    }
  }

  /** `masked_select`: row `q` gives its flat target and its gradient, or nothing where the target is elsewhere. */
  function SelectedBlock(p: Position, q: nat, start: int): seq<int>
    requires |p.indices| == 1
  {
    if OnRank(p.indices[0], start, |p.softmax|) then [q * |p.softmax| + (p.indices[0] - start)] else []
  }

  function SelectedGrads(p: Position, start: int): seq<real>
    requires |p.indices| == 1
  {
    if OnRank(p.indices[0], start, |p.softmax|) then p.grads else []
  }

  lemma SelectedAdds(p: Position, q: nat, width: nat, start: int, v: nat)
    requires |p.indices| == |p.grads| == 1 && |p.softmax| == width && v < width
    ensures BlockAdds(SelectedBlock(p, q, start), SelectedGrads(p, start), p, q, width, start, v)
  {
    SingleSum(p.indices, p.grads, start + v);
    if OnRank(p.indices[0], start, width) {
      SingleSum(SelectedBlock(p, q, start), p.grads, q * width + v);
    }
  }

  /**
   * `DistributedLogprob.backward` for a batch of `batch * length` positions: negated softmax times the gradient in
   * place, then one scatter-add of the selected gradients. The result is the dense gradient of the other branch.
   */
  method LogprobBackward(rows: seq<Position>, batch: nat, length: nat, width: nat, start: int)
    returns (gradInput: array<real>)
    requires 0 < width && AreRows(rows, width) && SingleTargets(rows) && |rows| == batch * length
    ensures fresh(gradInput) && gradInput[..] == Flatten(DenseRows(rows, start))
  {
    var blocks: seq<seq<int>>, values: seq<seq<real>> := [], [];
    for row := 0 to batch
      invariant |blocks| == row * length <= |rows| && Faithful(blocks, values, rows[..|blocks|], width, start)
    {
      RowWithin(row, row + 1, length);
      RowWithin(row, batch, length);
      for col := 0 to length
        invariant |blocks| == row * length + col && Faithful(blocks, values, rows[..|blocks|], width, start)
      {
        var q := row * length + col;
        forall v: nat | v < width
          ensures BlockAdds(SelectedBlock(rows[q], q, start), SelectedGrads(rows[q], start), rows[q], q, width, start, v)
        {
          SelectedAdds(rows[q], q, width, start, v);
        }
        blocks := blocks + [SelectedBlock(rows[q], q, start)];
        values := values + [SelectedGrads(rows[q], start)];
      }
    }
    assert rows[..|rows|] == rows;
    gradInput := ScatterBlocks(rows, width, start, blocks, values);
    DenseIsGrad(rows, start);
  }

  // ---- ChunkedDistributedGatherLogprob.backward ----

  lemma ClampedBlockInRow(indices: seq<int>, q: nat, width: nat, start: int)
    requires 0 < width
    ensures InRow(ClampedBlock(indices, q, width, start), q * width, width)
  {
  }

  /** One chunk: every selected gradient is scattered at its clamped position. */
  method GatherBackwardChunk(rows: seq<Position>, width: nat, start: int) returns (gradInput: array<real>)
    requires 0 < width && AreRows(rows, width)
    ensures fresh(gradInput) && gradInput[..] == Flatten(GradRows(rows, start))
  {
    var blocks: seq<seq<int>>, values: seq<seq<real>> := [], [];
    for q := 0 to |rows|
      invariant |blocks| == q && Faithful(blocks, values, rows[..q], width, start)
    {
      var p := rows[q];
      ClampedBlockInRow(p.indices, q, width, start);
      forall v: nat | v < width
        ensures BlockAdds(ClampedBlock(p.indices, q, width, start), MaskedGrads(p.indices, p.grads, width, start),
                          p, q, width, start, v)
      {
        ClampedSum(p.indices, p.grads, q, width, start, v, q * width);
      }
      blocks := blocks + [ClampedBlock(p.indices, q, width, start)];
      values := values + [MaskedGrads(p.indices, p.grads, width, start)];
    }
    assert rows[..|rows|] == rows;
    gradInput := ScatterBlocks(rows, width, start, blocks, values);
  }

  /** Positions `low..high` of every sequence of the batch, one sequence after the other. */
  function ChunkOfBatch(batch: seq<seq<Position>>, low: nat, high: nat): seq<seq<Position>>
    requires low <= high && forall b :: 0 <= b < |batch| ==> high <= |batch[b]|
  {
    seq(|batch|, b requires 0 <= b < |batch| => batch[b][low..high])
  }

  ghost predicate IsBatch(batch: seq<seq<Position>>, length: nat, width: nat) {
    forall b :: 0 <= b < |batch| ==> |batch[b]| == length && AreRows(batch[b], width)
  }

  /** Viewing a flattened tensor by rows gives the rows back. */
  lemma CutsOfFlatten<T>(parts: seq<seq<T>>, size: nat)
    requires forall k :: 0 <= k < |parts| ==> |parts[k]| == size
    ensures Cuts(Flatten(parts), 0, size, |parts|) == parts
  {
    forall k | 0 <= k < |parts| ensures Cuts(Flatten(parts), 0, size, |parts|)[k] == parts[k] {
      UniformSlice(parts, size, k);
    }
  }

  function BatchGrads(batch: seq<seq<Position>>, start: int): seq<seq<seq<real>>>
    requires forall b, s :: 0 <= b < |batch| && 0 <= s < |batch[b]| ==> |batch[b][s].indices| == |batch[b][s].grads|
  {
    seq(|batch|, b requires 0 <= b < |batch| => GradRows(batch[b], start))
  }

  lemma {:induction false} GradsOfFlatten(parts: seq<seq<Position>>, start: int)
    requires forall b, s :: 0 <= b < |parts| && 0 <= s < |parts[b]| ==> |parts[b][s].indices| == |parts[b][s].grads|
    ensures forall q :: 0 <= q < |Flatten(parts)| ==> |Flatten(parts)[q].indices| == |Flatten(parts)[q].grads|
    ensures GradRows(Flatten(parts), start) == Flatten(BatchGrads(parts, start))
  {
    if parts != [] {
      var n := |parts| - 1;
      GradsOfFlatten(parts[..n], start);
      assert BatchGrads(parts, start)[..n] == BatchGrads(parts[..n], start);
      assert GradRows(Flatten(parts), start) == GradRows(Flatten(parts[..n]), start) + GradRows(parts[n], start);
    }
  }

  lemma {:induction false} FlattenRows(parts: seq<seq<Position>>, length: nat, width: nat)
    requires IsBatch(parts, length, width)
    ensures AreRows(Flatten(parts), width)
  {
    if parts != [] {
      FlattenRows(parts[..|parts| - 1], length, width);
      assert AreRows(parts[|parts| - 1], width);
    }
  }

  /** One chunk in its three dimensions again. */
  method GatherBackwardSlice(batch: seq<seq<Position>>, length: nat, width: nat, start: int, low: nat, high: nat)
    returns (chunk: seq<seq<seq<real>>>)
    requires 0 < width && IsBatch(batch, length, width) && low <= high <= length
    ensures |chunk| == |batch|
    ensures forall b :: 0 <= b < |batch| ==> chunk[b] == GradRows(batch[b][low..high], start)
  {
    var parts := ChunkOfBatch(batch, low, high);
    assert IsBatch(parts, high - low, width);
    FlattenRows(parts, high - low, width);
    var rows := Flatten(parts);
    var flat := GatherBackwardChunk(rows, width, start);
    CutsOfFlatten(GradRows(rows, start), width);
    var viewed := Cuts(flat[..], 0, width, |rows|);
    GradsOfFlatten(parts, start);
    CutsOfFlatten(BatchGrads(parts, start), high - low);
    chunk := Cuts(viewed, 0, high - low, |batch|);
  }

  lemma GradRowsConcat(a: seq<Position>, b: seq<Position>, start: int)
    requires forall q :: 0 <= q < |a| ==> |a[q].indices| == |a[q].grads|
    requires forall q :: 0 <= q < |b| ==> |b[q].indices| == |b[q].grads|
    ensures GradRows(a + b, start) == GradRows(a, start) + GradRows(b, start)
  {
  }

  /** The gradient rows of the first `done` positions of every sequence. */
  ghost predicate GradsUpTo(grads: seq<seq<seq<real>>>, batch: seq<seq<Position>>, start: int, done: nat) {
    && |grads| == |batch|
    && (forall b :: 0 <= b < |batch| ==> done <= |batch[b]|)
    && (forall b, s :: 0 <= b < |batch| && 0 <= s < |batch[b]| ==> |batch[b][s].indices| == |batch[b][s].grads|)
    && (forall b :: 0 <= b < |batch| ==> grads[b] == GradRows(batch[b][..done], start))
  }

  /**
   * `ChunkedDistributedGatherLogprob.backward`: chunk after chunk of the sequence, concatenated. Each position's
   * gradient is minus softmax times the sum of its gradients, plus the gradients of the indices that chose the entry,
   * whatever the chunk size, and also for repeated indices and indices of other ranks.
   */
  method GatherLogprobBackward(batch: seq<seq<Position>>, length: nat, width: nat, start: int, chunkSize: nat)
    returns (gradInput: seq<seq<seq<real>>>)
    requires 0 < width && 0 < chunkSize && IsBatch(batch, length, width)
    ensures GradsUpTo(gradInput, batch, start, length)
  {
    var numChunks := (length + chunkSize - 1) / chunkSize;
    VocabParallel.ChunksCover(length, chunkSize, numChunks);
    gradInput := seq(|batch|, _ => []);
    for chunk := 0 to numChunks
      invariant GradsUpTo(gradInput, batch, start, Min(length, chunk * chunkSize))
    {
      RowWithin(chunk, chunk + 1, chunkSize);
      var low, high := Min(length, chunk * chunkSize), Min(length, (chunk + 1) * chunkSize);
      var grads := GatherBackwardSlice(batch, length, width, start, low, high);
      forall b | 0 <= b < |batch|
        ensures GradRows(batch[b][..high], start) == GradRows(batch[b][..low], start) + GradRows(batch[b][low..high], start)
      {
        assert batch[b][..high] == batch[b][..low] + batch[b][low..high];
        GradRowsConcat(batch[b][..low], batch[b][low..high], start);
      }
      gradInput := seq(|batch|, b requires 0 <= b < |batch| && |gradInput| == |grads| == |batch| => gradInput[b] + grads[b]);
    }
  }
}
