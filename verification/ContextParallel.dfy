/**
 * Load-balanced context parallelism: the sequence is cut into twice as many chunks as ranks, and rank `r` holds chunk
 * `r` and the mirrored chunk from the end. Gathering undoes the sharding, and its backward pass is its adjoint.
 */
module ContextParallel {
  import opened Seqs
  import opened Lists
  import opened BatchedDataDicts

  /** Chunk `i` of size `size`. */
  function Chunk<T>(x: seq<T>, size: nat, i: nat): seq<T> { Cut(x, i * size, i * size + size) }

  /** The size of one of `2 * cp` chunks. */
  function ChunkSize(n: nat, cp: nat): nat
    requires 0 < cp
  {
    Quotient(n, 2 * cp)
  }

  function Quotient(n: nat, d: nat): nat
    requires 0 < d
  {
    n / d
  }

  /** The two chunks of rank `r`, for a sequence of `2 * cp` chunks. */
  function TwoChunks<T>(x: seq<T>, r: nat, cp: nat): seq<T>
    requires r < cp
  {
    var size := ChunkSize(|x|, cp);
    Chunk(x, size, r) + Chunk(x, size, 2 * cp - r - 1)
  }

  /** `_get_tokens_on_this_cp_rank`. */
  function TokensOnRank<T>(x: seq<T>, r: nat, cp: nat): seq<T>
    requires r < cp
  {
    if cp == 1 then x else TwoChunks(x, r, cp)
  }

  /** Every rank's tokens. */
  function Sharded<T>(x: seq<T>, cp: nat): (r: seq<seq<T>>)
    ensures |r| == cp
  {
    seq(cp, r requires 0 <= r < cp => TokensOnRank(x, r, cp))
  }

  /** Chunk `i` as it sits on the ranks: a first half below `cp`, a mirrored second half from there on. */
  function ChunkOnRanks<T>(locals: seq<seq<T>>, i: nat): seq<T>
    requires i < 2 * |locals|
  {
    var cp := |locals|;
    if i < cp then locals[i][..|locals[i]| / 2]
    else locals[2 * cp - 1 - i][|locals[2 * cp - 1 - i]| / 2..]
  }

  function ChunksInOrder<T>(locals: seq<seq<T>>, n: nat): (r: seq<seq<T>>)
    requires n <= 2 * |locals|
    ensures |r| == n
  {
    seq(n, i requires 0 <= i < n => ChunkOnRanks(locals, i))
  }

  /** What gathering must give: all chunks in order. */
  function Gathered<T>(locals: seq<seq<T>>): seq<T> { Flatten(ChunksInOrder(locals, 2 * |locals|)) }

  /** All ranks hold `2 * half` elements. */
  ghost predicate EvenLocals<T>(locals: seq<seq<T>>, half: nat) {
    0 < |locals| && forall r :: 0 <= r < |locals| ==> |locals[r]| == 2 * half
  }

  /** The chunk numbers of the first `r` ranks: each holds one from the front and one from the end. */
  function MirroredNumbers(cp: nat, r: nat): (numbers: seq<nat>)
    requires r <= cp
    ensures |numbers| == 2 * r
  {
    if r == 0 then [] else MirroredNumbers(cp, r - 1) + [r - 1, 2 * cp - r]
  }

  /** The halves of the first `r` ranks' tensors. */
  function RankHalves<T>(locals: seq<seq<T>>, r: nat): (halves: seq<seq<T>>)
    requires r <= |locals|
    ensures |halves| == 2 * r
  {
    if r == 0 then []
    else
      var local := locals[r - 1];
      RankHalves(locals, r - 1) + [local[..|local| / 2], local[|local| / 2..]]
  }

  lemma CountTwoMore(s: seq<nat>, a: nat, b: nat, x: nat)
    ensures multiset(s + [a, b])[x] == multiset(s)[x] + (if x == a then 1 else 0) + (if x == b then 1 else 0)
  {
    assert s + [a, b] == s + [a] + [b];
  }

  /** The first `r` ranks hold the first and the last `r` chunks. */
  lemma {:induction false} MirroredCount(cp: nat, r: nat, x: nat)
    requires r <= cp
    ensures multiset(MirroredNumbers(cp, r))[x] == if x < r || 2 * cp - r <= x < 2 * cp then 1 else 0
  {
    if r > 0 {
      var m, top: nat := r - 1, 2 * cp - r;
      var before := MirroredNumbers(cp, m);
      MirroredCount(cp, m, x);
      CountTwoMore(before, m, top, x);
      assert MirroredNumbers(cp, r) == before + [m, top];
    }
  }

  lemma MirroredIsPermutation(cp: nat)
    ensures IsPermutation(MirroredNumbers(cp, cp), 2 * cp)
  {
    forall x: nat ensures multiset(MirroredNumbers(cp, cp))[x] == multiset(Range(0, 2 * cp))[x] {
      MirroredCount(cp, cp, x);
      RangeCount(0, 2 * cp, x);
    }
  }

  /** Each half is the chunk of its number. */
  lemma {:induction false} HalvesAreChunks<T>(locals: seq<seq<T>>, r: nat, k: nat)
    requires r <= |locals| && k < 2 * r
    ensures MirroredNumbers(|locals|, r)[k] < 2 * |locals|
    ensures RankHalves(locals, r)[k] == ChunkOnRanks(locals, MirroredNumbers(|locals|, r)[k])
  {
    if k < 2 * (r - 1) {
      HalvesAreChunks(locals, r - 1, k);
    }
  }

  /** Sorting the listed halves by their chunk numbers puts the chunks in order. */
  lemma SortedHalves<T>(locals: seq<seq<T>>)
    ensures Select(RankHalves(locals, |locals|), ArgSort(MirroredNumbers(|locals|, |locals|)))
         == ChunksInOrder(locals, 2 * |locals|)
  {
    var halves, order := RankHalves(locals, |locals|), ArgSort(MirroredNumbers(|locals|, |locals|));
    forall i | 0 <= i < |order| ensures halves[order[i]] == ChunkOnRanks(locals, i) {
      SortedHalf(locals, i);
    }
  }

  lemma SortedHalf<T>(locals: seq<seq<T>>, i: nat)
    requires i < 2 * |locals|
    ensures var order := ArgSort(MirroredNumbers(|locals|, |locals|));
      order[i] < 2 * |locals| && RankHalves(locals, |locals|)[order[i]] == ChunkOnRanks(locals, i)
  {
    var numbers := MirroredNumbers(|locals|, |locals|);
    MirroredIsPermutation(|locals|);
    ArgSortInverts(numbers, i);
    HalvesAreChunks(locals, |locals|, ArgSort(numbers)[i]);
  }

  /** `AllGatherCPTensor.forward`: halve every rank's tensor, sort the halves by chunk number, concatenate. */
  method AllGather<T>(locals: seq<seq<T>>, ghost half: nat) returns (full: seq<T>)
    requires EvenLocals(locals, half)
    ensures full == Gathered(locals)
  {
    var cp := |locals|;
    var halves: seq<seq<T>>, numbers: seq<nat> := [], [];
    for r := 0 to cp
      invariant halves == RankHalves(locals, r) && numbers == MirroredNumbers(cp, r)
    {
      var middle := |locals[r]| / 2;
      halves := halves + [locals[r][..middle], locals[r][middle..]];
      numbers := numbers + [r, 2 * cp - r - 1];
    }
    SortedHalves(locals);
    full := Flatten(Select(halves, ArgSort(numbers)));
  }

  // ---- Sharding and gathering undo each other ----

  lemma EvenChunks(n: nat, cp: nat)
    requires 0 < cp && n % (2 * cp) == 0
    ensures n == 2 * cp * (n / (2 * cp))
  {
  }

  lemma ChunkBounds<T>(x: seq<T>, size: nat, n: nat, i: nat)
    requires |x| == n * size && i < n
    ensures 0 <= i * size && i * size + size <= |x| && |Chunk(x, size, i)| == size
  {
    RowWithin(i, n, size);
  }

  lemma ShardHalves<T>(x: seq<T>, cp: nat, size: nat, r: nat)
    requires 1 < cp && |x| == 2 * cp * size && r < cp
    ensures ChunkSize(|x|, cp) == size
    ensures |TokensOnRank(x, r, cp)| == 2 * size
    ensures TokensOnRank(x, r, cp)[..size] == Chunk(x, size, r)
    ensures TokensOnRank(x, r, cp)[size..] == Chunk(x, size, 2 * cp - r - 1)
  {
    ModUnique(|x|, size, 0, 2 * cp);
    ChunkBounds(x, size, 2 * cp, r);
    ChunkBounds(x, size, 2 * cp, 2 * cp - r - 1);
  }

  /** Where entry `j` of rank `r` stands in the sequence: the `r`-th chunk from the front, then the `r`-th from the end. */
  function PositionOnRank(r: nat, j: nat, cp: nat, size: nat): int {
    if j < size then r * size + j else 2 * cp * size - (r + 1) * size + (j - size)
  }

  lemma FrontTokenAt<T>(x: seq<T>, r: nat, cp: nat, size: nat, j: nat)
    requires 1 < cp && |x| == 2 * cp * size && r < cp && j < size
    ensures |TokensOnRank(x, r, cp)| == 2 * size
    ensures 0 <= r * size + j < |x| && TokensOnRank(x, r, cp)[j] == x[r * size + j]
  {
    ShardHalves(x, cp, size, r);
    ChunkAt(x, size, 2 * cp, r, j);
    assert TokensOnRank(x, r, cp)[..size][j] == Chunk(x, size, r)[j];
  }

  lemma BackTokenAt<T>(x: seq<T>, r: nat, cp: nat, size: nat, m: nat, j: nat)
    requires 1 < cp && |x| == 2 * cp * size && r < cp && j < size && m == 2 * cp - r - 1
    ensures |TokensOnRank(x, r, cp)| == 2 * size
    ensures 0 <= m * size + j < |x| && TokensOnRank(x, r, cp)[size + j] == x[m * size + j]
  {
    ShardHalves(x, cp, size, r);
    ChunkAt(x, size, 2 * cp, m, j);
    assert TokensOnRank(x, r, cp)[size..][j] == Chunk(x, size, m)[j];
  }

  /** Rank `r` holds its chunk from the front and its chunk from the end, entry by entry. */
  lemma TokenOnRankAt<T>(x: seq<T>, r: nat, cp: nat, size: nat, j: nat)
    requires 1 < cp && |x| == 2 * cp * size && r < cp && j < 2 * size
    ensures |TokensOnRank(x, r, cp)| == 2 * size
    ensures 0 <= PositionOnRank(r, j, cp, size) < |x|
    ensures TokensOnRank(x, r, cp)[j] == x[PositionOnRank(r, j, cp, size)]
  {
    if j < size {
      FrontTokenAt(x, r, cp, size, j);
    } else {
      BackTokenAt(x, r, cp, size, 2 * cp - r - 1, j - size);
      MirroredStart(r, cp, size);
    }
  }

  lemma ChunkAt<T>(x: seq<T>, size: nat, n: nat, i: nat, j: nat)
    requires |x| == n * size && i < n && j < size
    ensures |Chunk(x, size, i)| == size && 0 <= i * size + j < |x| && Chunk(x, size, i)[j] == x[i * size + j]
  {
    ChunkBounds(x, size, n, i);
  }

  lemma MirroredStart(r: nat, cp: nat, size: nat)
    ensures (2 * cp - r - 1) * size == 2 * cp * size - (r + 1) * size
  {
  }

  lemma ShardedChunk<T>(x: seq<T>, cp: nat, size: nat, i: nat)
    requires 1 < cp && |x| == 2 * cp * size && i < 2 * cp
    ensures ChunkOnRanks(Sharded(x, cp), i) == Chunk(x, size, i)
  {
    if i < cp {
      ShardHalves(x, cp, size, i);
      assert Sharded(x, cp)[i] == TokensOnRank(x, i, cp);
    } else {
      var r: nat := 2 * cp - 1 - i;
      ShardHalves(x, cp, size, r);
      assert Sharded(x, cp)[r] == TokensOnRank(x, r, cp);
    }
  }

  lemma GatherOfOne<T>(x: seq<T>)
    ensures Gathered([x]) == x
  {
    var m := |x| / 2;
    assert ChunksInOrder([x], 2) == [] + [x[..m]] + [x[m..]];
    FlattenSnoc([] + [x[..m]], x[m..]);
    FlattenSnoc([], x[..m]);
  }

  lemma ShardedCut<T>(x: seq<T>, cp: nat, size: nat, n: nat, i: nat)
    requires 1 < cp && n == 2 * cp && |x| == n * size && i < n
    ensures ChunksInOrder(Sharded(x, cp), n)[i] == Cuts(x, 0, size, n)[i]
  {
    ShardedChunk(x, cp, size, i);
  }

  lemma ShardedIsCuts<T>(x: seq<T>, cp: nat, size: nat, n: nat)
    requires 1 < cp && n == 2 * cp && |x| == n * size
    ensures ChunksInOrder(Sharded(x, cp), n) == Cuts(x, 0, size, n)
  {
    forall i | 0 <= i < n ensures ChunksInOrder(Sharded(x, cp), n)[i] == Cuts(x, 0, size, n)[i] {
      ShardedCut(x, cp, size, n, i);
    }
  }

  /** Gathering the shards gives the sequence back, whatever the number of ranks and the length. */
  lemma GatherUndoesShard<T>(x: seq<T>, cp: nat)
    requires 0 < cp && (cp == 1 || |x| % (2 * cp) == 0)
    ensures Gathered(Sharded(x, cp)) == x
  {
    if cp == 1 {
      assert Sharded(x, 1) == [x];
      GatherOfOne(x);
    } else {
      var size := ChunkSize(|x|, cp);
      EvenChunks(|x|, cp);
      ShardedIsCuts(x, cp, size, 2 * cp);
      CutsJoin(x, 0, size, 2 * cp, |x|);
    }
  }

  lemma GatheredChunk<T>(locals: seq<seq<T>>, half: nat, i: nat)
    requires EvenLocals(locals, half) && i < 2 * |locals|
    ensures |Gathered(locals)| == 2 * |locals| * half
    ensures Chunk(Gathered(locals), half, i) == ChunkOnRanks(locals, i)
  {
    UniformSlice(ChunksInOrder(locals, 2 * |locals|), half, i);
  }

  lemma RankOfGathered<T>(locals: seq<seq<T>>, half: nat, r: nat)
    requires EvenLocals(locals, half) && r < |locals|
    ensures TwoChunks(Gathered(locals), r, |locals|) == locals[r]
  {
    var cp, full := |locals|, Gathered(locals);
    GatheredChunk(locals, half, r);
    GatheredChunk(locals, half, 2 * cp - r - 1);
    ModUnique(|full|, half, 0, 2 * cp);
    assert locals[r] == locals[r][..half] + locals[r][half..];
  }

  lemma OneRankHasAll<T>(x: seq<T>, half: nat)
    requires |x| == 2 * half
    ensures TwoChunks(x, 0, 1) == x
  {
    assert x == x[..half] + x[half..];
  }

  /** Sharding what was gathered gives every rank its own tokens back. */
  lemma ShardUndoesGather<T>(locals: seq<seq<T>>, half: nat)
    requires EvenLocals(locals, half)
    ensures Sharded(Gathered(locals), |locals|) == locals
  {
    forall r | 0 <= r < |locals| ensures TokensOnRank(Gathered(locals), r, |locals|) == locals[r] {
      RankOfGathered(locals, half, r);
      if |locals| == 1 {
        GatheredChunk(locals, half, 0);
        OneRankHasAll(Gathered(locals), half);
      }
    }
  }

  // ---- What is computed position by position ----

  function Pointwise<A, B, C>(f: (A, B) -> C, a: seq<A>, b: seq<B>): seq<C>
    requires |a| == |b|
  {
    seq(|a|, k requires 0 <= k < |a| => f(a[k], b[k]))
  }

  lemma PointwiseChunk<A, B, C>(f: (A, B) -> C, a: seq<A>, b: seq<B>, size: nat, i: nat)
    requires |a| == |b|
    ensures |Chunk(a, size, i)| == |Chunk(b, size, i)|
    ensures Chunk(Pointwise(f, a, b), size, i) == Pointwise(f, Chunk(a, size, i), Chunk(b, size, i))
  {
  }

  lemma PointwiseConcat<A, B, C>(f: (A, B) -> C, a: seq<A>, b: seq<B>, c: seq<A>, d: seq<B>)
    requires |a| == |b| && |c| == |d|
    ensures Pointwise(f, a, b) + Pointwise(f, c, d) == Pointwise(f, a + c, b + d)
  {
  }

  /** Cutting for the ranks commutes with anything that is computed position by position. */
  lemma PointwiseOnRank<A, B, C>(f: (A, B) -> C, a: seq<A>, b: seq<B>, r: nat, cp: nat)
    requires r < cp && |a| == |b|
    ensures |TokensOnRank(a, r, cp)| == |TokensOnRank(b, r, cp)|
    ensures TokensOnRank(Pointwise(f, a, b), r, cp) == Pointwise(f, TokensOnRank(a, r, cp), TokensOnRank(b, r, cp))
  {
    if cp > 1 {
      var size, m := ChunkSize(|a|, cp), 2 * cp - r - 1;
      PointwiseChunk(f, a, b, size, r);
      PointwiseChunk(f, a, b, size, m);
      PointwiseConcat(f, Chunk(a, size, r), Chunk(b, size, r), Chunk(a, size, m), Chunk(b, size, m));
    }
  }

  // ---- The backward pass is the adjoint of gathering ----

  function Dot(a: seq<real>, b: seq<real>): real
    requires |a| == |b|
  {
    if a == [] then 0.0 else Dot(a[..|a| - 1], b[..|b| - 1]) + a[|a| - 1] * b[|b| - 1]
  }

  /** Pairing with a sequence that is one at `k` and zero elsewhere picks the entry there. */
  lemma {:induction false} DotPicks(a: seq<real>, b: seq<real>, k: nat)
    requires |a| == |b| && k < |a| && forall i :: 0 <= i < |b| ==> b[i] == if i == k then 1.0 else 0.0
    ensures Dot(a, b) == a[k]
  {
    var n := |a| - 1;
    if k == n {
      DotZero(a[..n], b[..n]);
    } else {
      DotPicks(a[..n], b[..n], k);
    }
  }

  /** Elementwise sum, as the all-reduce computes it. */
  function Add(a: seq<real>, b: seq<real>): seq<real>
    requires |a| == |b|
  {
    seq(|a|, i requires 0 <= i < |a| => a[i] + b[i])
  }

  function AllReduce(gs: seq<seq<real>>, n: nat): (r: seq<real>)
    requires forall k :: 0 <= k < |gs| ==> |gs[k]| == n
    ensures |r| == n
  {
    if gs == [] then seq(n, _ => 0.0) else Add(AllReduce(gs[..|gs| - 1], n), gs[|gs| - 1])
  }

  /** Every rank's share of the forward pairing, and of the backward one. */
  function ForwardPairings(full: seq<real>, gs: seq<seq<real>>): seq<real>
    requires forall k :: 0 <= k < |gs| ==> |gs[k]| == |full|
  {
    seq(|gs|, k requires 0 <= k < |gs| => Dot(full, gs[k]))
  }

  /** `AllGatherCPTensor.backward` on rank `r`: sum the gradients over the ranks, take this rank's two chunks. */
  function Backward(gs: seq<seq<real>>, n: nat, r: nat): seq<real>
    requires r < |gs| && forall k :: 0 <= k < |gs| ==> |gs[k]| == n
  {
    TwoChunks(AllReduce(gs, n), r, |gs|)
  }

  lemma {:induction false} DotZero(a: seq<real>, b: seq<real>)
    requires |a| == |b| && forall k :: 0 <= k < |b| ==> b[k] == 0.0
    ensures Dot(a, b) == 0.0
  {
    if a != [] {
      DotZero(a[..|a| - 1], b[..|b| - 1]);
    }
  }

  lemma {:induction false} DotAdd(a: seq<real>, b: seq<real>, c: seq<real>)
    requires |a| == |b| == |c|
    ensures Dot(a, Add(b, c)) == Dot(a, b) + Dot(a, c)
  {
    if a != [] {
      var n := |a| - 1;
      DotAdd(a[..n], b[..n], c[..n]);
      assert Add(b, c)[..n] == Add(b[..n], c[..n]);
    }
  }

  /** Pairing with the summed gradient is the sum of the pairings. */
  lemma {:induction false} DotAllReduce(full: seq<real>, gs: seq<seq<real>>)
    requires forall k :: 0 <= k < |gs| ==> |gs[k]| == |full|
    ensures Dot(full, AllReduce(gs, |full|)) == SumReals(ForwardPairings(full, gs))
  {
    if gs == [] {
      DotZero(full, AllReduce(gs, |full|));
    } else {
      var n := |gs| - 1;
      DotAllReduce(full, gs[..n]);
      DotAdd(full, AllReduce(gs[..n], |full|), gs[n]);
      assert ForwardPairings(full, gs)[..n] == ForwardPairings(full, gs[..n]);
    }
  }

  /** What the ranks' gradients say about position `k`. */
  function GradientsAt(gs: seq<seq<real>>, n: nat, k: nat): seq<real>
    requires k < n && forall i :: 0 <= i < |gs| ==> |gs[i]| == n
  {
    seq(|gs|, i requires 0 <= i < |gs| => gs[i][k])
  }

  lemma {:induction false} AllReduceAt(gs: seq<seq<real>>, n: nat, k: nat)
    requires k < n && forall i :: 0 <= i < |gs| ==> |gs[i]| == n
    ensures AllReduce(gs, n)[k] == SumReals(GradientsAt(gs, n, k))
  {
    if gs != [] {
      AllReduceAt(gs[..|gs| - 1], n, k);
      assert GradientsAt(gs, n, k)[..|gs| - 1] == GradientsAt(gs[..|gs| - 1], n, k);
    }
  }

  /** Entry `j` of rank `r` gets the sum over the ranks of the gradients at its position of the whole sequence. */
  lemma BackwardAt(gs: seq<seq<real>>, size: nat, r: nat, j: nat)
    requires 1 < |gs| && r < |gs| && j < 2 * size
    requires forall i :: 0 <= i < |gs| ==> |gs[i]| == 2 * |gs| * size
    ensures |Backward(gs, 2 * |gs| * size, r)| == 2 * size
    ensures 0 <= PositionOnRank(r, j, |gs|, size) < 2 * |gs| * size
    ensures Backward(gs, 2 * |gs| * size, r)[j]
         == SumReals(GradientsAt(gs, 2 * |gs| * size, PositionOnRank(r, j, |gs|, size)))
  {
    var n := 2 * |gs| * size;
    TokenOnRankAt(AllReduce(gs, n), r, |gs|, size, j);
    AllReduceAt(gs, n, PositionOnRank(r, j, |gs|, size));
  }

  lemma {:induction false} DotConcat(a: seq<real>, b: seq<real>, c: seq<real>, d: seq<real>)
    requires |a| == |c| && |b| == |d|
    ensures Dot(a + b, c + d) == Dot(a, c) + Dot(b, d)
  {
    if b == [] {
      assert a + b == a && c + d == c;
    } else {
      var n := |b| - 1;
      DotConcat(a, b[..n], c, d[..n]);
      assert (a + b)[..|a| + n] == a + b[..n] && (c + d)[..|c| + n] == c + d[..n];
    }
  }

  /** The pairing of chunk `i` of two sequences of `n` chunks. */
  function ChunkDots(a: seq<real>, b: seq<real>, size: nat, n: nat): (r: seq<real>)
    requires |a| == |b|
    ensures |r| == n
  {
    seq(n, i requires 0 <= i && |a| == |b| => Dot(Chunk(a, size, i), Chunk(b, size, i)))
  }

  /** The pairings of parts of equal length. */
  function PartDots(xs: seq<seq<real>>, ys: seq<seq<real>>): (r: seq<real>)
    requires |xs| == |ys| && forall i :: 0 <= i < |xs| ==> |xs[i]| == |ys[i]|
    ensures |r| == |xs|
  {
    seq(|xs|, i requires 0 <= i < |xs| == |ys| && |xs[i]| == |ys[i]| => Dot(xs[i], ys[i]))
  }

  /** Pairing part by part. */
  lemma {:induction false} DotByParts(xs: seq<seq<real>>, ys: seq<seq<real>>)
    requires |xs| == |ys| && forall i :: 0 <= i < |xs| ==> |xs[i]| == |ys[i]|
    ensures |Flatten(xs)| == |Flatten(ys)| && Dot(Flatten(xs), Flatten(ys)) == SumReals(PartDots(xs, ys))
  {
    if xs != [] {
      var n := |xs| - 1;
      DotByParts(xs[..n], ys[..n]);
      DotConcat(Flatten(xs[..n]), xs[n], Flatten(ys[..n]), ys[n]);
      assert PartDots(xs, ys)[..n] == PartDots(xs[..n], ys[..n]);
    }
  }

  function Chunks<T>(x: seq<T>, size: nat, n: nat): (r: seq<seq<T>>)
    ensures |r| == n
  {
    seq(n, i requires 0 <= i => Chunk(x, size, i))
  }

  lemma ChunksJoin<T>(x: seq<T>, size: nat, n: nat)
    requires |x| == n * size
    ensures Flatten(Chunks(x, size, n)) == x
  {
    var borders := Borders(0, size, n);
    BordersAscend(0, size, n);
    forall k | 0 <= k < n ensures Chunks(x, size, n)[k] == Cut(x, borders[k], borders[k] + size) {
      assert borders[k] == k * size;
    }
    CutsAtBorders(x, Chunks(x, size, n), borders, size);
    AdjacentCutsJoin(x, Chunks(x, size, n), borders);
    CutAll(x, borders[n]);
  }

  lemma ChunksAreUniform<T>(x: seq<T>, size: nat, n: nat)
    requires |x| == n * size
    ensures forall i :: 0 <= i < n ==> |Chunks(x, size, n)[i]| == size
  {
    forall i | 0 <= i < n ensures |Chunks(x, size, n)[i]| == size {
      ChunkBounds(x, size, n, i);
    }
  }

  lemma DotByChunks(a: seq<real>, b: seq<real>, size: nat, n: nat)
    requires |a| == |b| == n * size
    ensures Dot(a, b) == SumReals(ChunkDots(a, b, size, n))
  {
    ChunksJoin(a, size, n);
    ChunksJoin(b, size, n);
    ChunksAreUniform(a, size, n);
    ChunksAreUniform(b, size, n);
    DotByParts(Chunks(a, size, n), Chunks(b, size, n));
    DotsOfChunks(a, b, size, n);
  }

  lemma DotsOfChunks(a: seq<real>, b: seq<real>, size: nat, n: nat)
    requires |a| == |b| && forall i :: 0 <= i < n ==> |Chunks(a, size, n)[i]| == |Chunks(b, size, n)[i]|
    ensures PartDots(Chunks(a, size, n), Chunks(b, size, n)) == ChunkDots(a, b, size, n)
  {
  }

  /** The first and last entries, the second and last but one, and so on. */
  function PairSums(s: seq<real>, n: nat): (r: seq<real>)
    requires n <= |s|
    ensures |r| == n
  {
    seq(n, i requires 0 <= i < n => s[i] + s[|s| - 1 - i])
  }

  lemma {:induction false} SumOfPairs(s: seq<real>, n: nat)
    requires 2 * n <= |s|
    ensures SumReals(PairSums(s, n)) == SumReals(s[..n]) + SumReals(s[|s| - n..])
  {
    if n > 0 {
      var m := n - 1;
      SumOfPairs(s, m);
      assert PairSums(s, n)[..m] == PairSums(s, m);
      assert s[..n][..m] == s[..m];
      assert s[|s| - n..] == [s[|s| - n]] + s[|s| - m..];
      SumSplit([s[|s| - n]], s[|s| - m..]);
      assert [s[|s| - n]][..0] == [];
    }
  }

  /** The pairing of rank `r`'s tensor with what the backward pass hands to it. */
  function BackwardPairings(locals: seq<seq<real>>, gs: seq<seq<real>>, n: nat): seq<real>
    requires |locals| == |gs| && forall k :: 0 <= k < |gs| ==> |gs[k]| == n
    requires forall r :: 0 <= r < |locals| ==> |locals[r]| == |Backward(gs, n, r)|
  {
    seq(|gs|, r requires 0 <= r < |gs| => Dot(locals[r], Backward(gs, n, r)))
  }

  lemma TwoChunksLength<T>(x: seq<T>, r: nat, cp: nat, half: nat)
    requires 0 < cp && r < cp && |x| == 2 * cp * half
    ensures ChunkSize(|x|, cp) == half
    ensures |TwoChunks(x, r, cp)| == 2 * half
    ensures |Chunk(x, half, r)| == |Chunk(x, half, 2 * cp - r - 1)| == half
  {
    ModUnique(|x|, half, 0, 2 * cp);
    ChunkBounds(x, half, 2 * cp, r);
    ChunkBounds(x, half, 2 * cp, 2 * cp - r - 1);
  }

  /** A rank's pairing is the pairing of its two chunks. */
  lemma RankPairing(locals: seq<seq<real>>, half: nat, g: seq<real>, r: nat)
    requires EvenLocals(locals, half) && r < |locals| && |g| == 2 * |locals| * half == |Gathered(locals)|
    ensures |TwoChunks(g, r, |locals|)| == 2 * half
    ensures Dot(locals[r], TwoChunks(g, r, |locals|))
         == PairSums(ChunkDots(Gathered(locals), g, half, 2 * |locals|), |locals|)[r]
  {
    var cp, full := |locals|, Gathered(locals);
    TwoChunksLength(g, r, cp, half);
    TwoChunksLength(full, r, cp, half);
    RankOfGathered(locals, half, r);
    DotConcat(Chunk(full, half, r), Chunk(full, half, 2 * cp - r - 1), Chunk(g, half, r), Chunk(g, half, 2 * cp - r - 1));
    ChunkDotsAt(full, g, half, 2 * cp, r);
    ChunkDotsAt(full, g, half, 2 * cp, 2 * cp - r - 1);
    PairSumsAt(ChunkDots(full, g, half, 2 * cp), cp, r, 2 * cp - r - 1);
  }

  lemma ChunkDotsAt(a: seq<real>, b: seq<real>, size: nat, n: nat, i: nat)
    requires |a| == |b| && i < n
    ensures |Chunk(a, size, i)| == |Chunk(b, size, i)|
    ensures ChunkDots(a, b, size, n)[i] == Dot(Chunk(a, size, i), Chunk(b, size, i))
  {
  }

  lemma PairSumsAt(s: seq<real>, n: nat, r: nat, mirror: nat)
    requires n <= |s| && r < n && mirror == |s| - r - 1
    ensures PairSums(s, n)[r] == s[r] + s[mirror]
  {
  }

  /**
   * For every number of ranks and every gradient, pairing the gathered tensor with the ranks' gradients gives the same
   * as pairing the ranks' tensors with what the backward pass returns: the backward pass is the adjoint.
   */
  lemma BackwardIsAdjoint(locals: seq<seq<real>>, half: nat, gs: seq<seq<real>>)
    requires EvenLocals(locals, half) && |gs| == |locals|
    requires forall k :: 0 <= k < |gs| ==> |gs[k]| == |Gathered(locals)|
    ensures forall r :: 0 <= r < |locals| ==> |locals[r]| == |Backward(gs, |Gathered(locals)|, r)|
    ensures SumReals(ForwardPairings(Gathered(locals), gs)) == SumReals(BackwardPairings(locals, gs, |Gathered(locals)|))
  {
    var full := Gathered(locals);
    GatheredChunk(locals, half, 0);
    var g := AllReduce(gs, |full|);
    forall r | 0 <= r < |locals| ensures |locals[r]| == |TwoChunks(g, r, |locals|)| {
      RankPairing(locals, half, g, r);
    }
    PairingsArePairSums(locals, half, gs);
    DotByPairs(full, g, half, |locals|);
    DotAllReduce(full, gs);
  }

  lemma PairingsArePairSums(locals: seq<seq<real>>, half: nat, gs: seq<seq<real>>)
    requires EvenLocals(locals, half) && |gs| == |locals| && |Gathered(locals)| == 2 * |locals| * half
    requires forall k :: 0 <= k < |gs| ==> |gs[k]| == |Gathered(locals)|
    requires forall r :: 0 <= r < |locals| ==> |locals[r]| == |Backward(gs, |Gathered(locals)|, r)|
    ensures BackwardPairings(locals, gs, |Gathered(locals)|)
         == PairSums(ChunkDots(Gathered(locals), AllReduce(gs, |Gathered(locals)|), half, 2 * |locals|), |locals|)
  {
    forall r | 0 <= r < |locals| ensures BackwardPairings(locals, gs, |Gathered(locals)|)[r]
      == PairSums(ChunkDots(Gathered(locals), AllReduce(gs, |Gathered(locals)|), half, 2 * |locals|), |locals|)[r]
    {
      RankPairing(locals, half, AllReduce(gs, |Gathered(locals)|), r);
    }
  }

  lemma DotByPairs(full: seq<real>, g: seq<real>, half: nat, cp: nat)
    requires |full| == |g| == 2 * cp * half
    ensures Dot(full, g) == SumReals(PairSums(ChunkDots(full, g, half, 2 * cp), cp))
  {
    AllPairs(ChunkDots(full, g, half, 2 * cp), cp);
    DotByChunks(full, g, half, 2 * cp);
  }

  lemma AllPairs(s: seq<real>, n: nat)
    requires |s| == 2 * n
    ensures SumReals(PairSums(s, n)) == SumReals(s)
  {
    SumOfPairs(s, n);
    SumSplit(s[..n], s[n..]);
    assert s[..n] + s[n..] == s;
  }
}
