/**
 * Log-probabilities over a vocabulary that is sharded across tensor-parallel ranks. `exp` and `log` are parameters: the
 * ranks' results are the sequential ones for any two functions, and log-probabilities where these are exponential and
 * logarithm.
 */
module VocabParallel {
  import opened Seqs
  import opened Lists
  import opened ContextParallel

  function MaxReal(s: seq<real>): real
    requires s != []
  {
    if |s| == 1 then s[0]
    else
      var m := MaxReal(s[..|s| - 1]);
      if m < s[|s| - 1] then s[|s| - 1] else m
  }

  function MapReal(f: real -> real, s: seq<real>): seq<real> {
    seq(|s|, i requires 0 <= i < |s| => f(s[i]))
  }

  function ShiftedExp(exp: real -> real, top: real): real -> real { z => exp(z - top) }

  function Normalise(top: real, logTotal: real): real -> real { z => z - top - logTotal }

  /** Numerically stable log-softmax of one full row. */
  function LogSoftmax(row: seq<real>, exp: real -> real, log: real -> real): (r: seq<real>)
    requires row != []
    ensures |r| == |row|
  {
    var top := MaxReal(row);
    var total := SumReals(MapReal(ShiftedExp(exp, top), row));
    MapReal(Normalise(top, log(total)), row)
  }

  /** Every rank holds the same number of vocabulary entries. */
  ghost predicate EvenVocab(locals: seq<seq<real>>, size: nat) {
    locals != [] && 0 < size && forall r :: 0 <= r < |locals| ==> |locals[r]| == size
  }

  /** The result of an all-reduce with `MAX` over the ranks' maxima. */
  function GlobalMax(locals: seq<seq<real>>): real
    requires locals != [] && forall r :: 0 <= r < |locals| ==> locals[r] != []
  {
    MaxReal(seq(|locals|, r requires 0 <= r < |locals| => MaxReal(locals[r])))
  }

  /** The result of an all-reduce with `SUM` over the ranks' sums of exponentials. */
  function GlobalSum(locals: seq<seq<real>>, top: real, exp: real -> real): real {
    SumReals(seq(|locals|, r requires 0 <= r < |locals| => SumReals(MapReal(ShiftedExp(exp, top), locals[r]))))
  }

  /** `_compute_distributed_log_softmax` on rank `r`. */
  function DistributedLogSoftmax(locals: seq<seq<real>>, r: nat, exp: real -> real, log: real -> real): (s: seq<real>)
    requires r < |locals| && forall k :: 0 <= k < |locals| ==> locals[k] != []
    ensures |s| == |locals[r]|
  {
    var top := GlobalMax(locals);
    var total := GlobalSum(locals, top, exp);
    MapReal(Normalise(top, log(total)), locals[r])
  }

  lemma {:induction false} MaxConcat(a: seq<real>, b: seq<real>)
    requires a != [] && b != []
    ensures MaxReal(a + b) == MaxReal([MaxReal(a), MaxReal(b)])
  {
    var n := |b| - 1;
    assert (a + b)[..|a| + n] == a + b[..n];
    assert [MaxReal(a), MaxReal(b)][..1] == [MaxReal(a)];
    if n == 0 {
      assert a + b[..n] == a;
    } else {
      MaxConcat(a, b[..n]);
      assert [MaxReal(a), MaxReal(b[..n])][..1] == [MaxReal(a)];
    }
  }

  lemma {:induction false} GlobalMaxIsMax(locals: seq<seq<real>>)
    requires locals != [] && forall r :: 0 <= r < |locals| ==> locals[r] != []
    ensures Flatten(locals) != [] && GlobalMax(locals) == MaxReal(Flatten(locals))
  {
    var n := |locals| - 1;
    var tops := seq(|locals|, r requires 0 <= r < |locals| => MaxReal(locals[r]));
    if n == 0 {
      assert Flatten(locals) == [] + locals[0] == locals[0];
    } else {
      GlobalMaxIsMax(locals[..n]);
      assert tops[..n] == seq(n, r requires 0 <= r < n => MaxReal(locals[..n][r]));
      MaxConcat(Flatten(locals[..n]), locals[n]);
      assert [MaxReal(tops[..n]), tops[n]][..1] == [MaxReal(tops[..n])];
    }
  }

  lemma MapConcat(f: real -> real, a: seq<real>, b: seq<real>)
    ensures MapReal(f, a + b) == MapReal(f, a) + MapReal(f, b)
  {
  }

  lemma {:induction false} GlobalSumIsSum(locals: seq<seq<real>>, top: real, exp: real -> real)
    ensures GlobalSum(locals, top, exp) == SumReals(MapReal(ShiftedExp(exp, top), Flatten(locals)))
  {
    var f := ShiftedExp(exp, top);
    var sums := seq(|locals|, r requires 0 <= r < |locals| => SumReals(MapReal(f, locals[r])));
    if locals != [] {
      var n := |locals| - 1;
      GlobalSumIsSum(locals[..n], top, exp);
      assert sums[..n] == seq(n, r requires 0 <= r < n => SumReals(MapReal(f, locals[..n][r])));
      MapConcat(f, Flatten(locals[..n]), locals[n]);
      SumSplit(MapReal(f, Flatten(locals[..n])), MapReal(f, locals[n]));
    }
  }

  lemma {:induction false} FlattenMapped(locals: seq<seq<real>>, f: real -> real)
    ensures Flatten(seq(|locals|, r requires 0 <= r < |locals| => MapReal(f, locals[r]))) == MapReal(f, Flatten(locals))
  {
    var mapped := seq(|locals|, r requires 0 <= r < |locals| => MapReal(f, locals[r]));
    if locals != [] {
      var n := |locals| - 1;
      FlattenMapped(locals[..n], f);
      assert mapped[..n] == seq(n, r requires 0 <= r < n => MapReal(f, locals[..n][r]));
      MapConcat(f, Flatten(locals[..n]), locals[n]);
    }
  }

  lemma {:induction false} MaxRealMeans(s: seq<real>)
    requires s != []
    ensures MaxReal(s) in s && forall x :: x in s ==> x <= MaxReal(s)
  {
    if |s| > 1 {
      MaxRealMeans(s[..|s| - 1]);
      assert s == s[..|s| - 1] + [s[|s| - 1]];
    }
  }

  /** What the ranks subtract is the largest logit of the whole row, so that nothing exponentiated is positive. */
  lemma GlobalMaxMeans(locals: seq<seq<real>>)
    requires locals != [] && forall r :: 0 <= r < |locals| ==> locals[r] != []
    ensures GlobalMax(locals) in Flatten(locals) && forall x :: x in Flatten(locals) ==> x - GlobalMax(locals) <= 0.0
  {
    GlobalMaxIsMax(locals);
    MaxRealMeans(Flatten(locals));
  }

  /** What all ranks hold after the distributed log-softmax. */
  function AllLogSoftmax(locals: seq<seq<real>>, exp: real -> real, log: real -> real): seq<seq<real>>
    requires forall k :: 0 <= k < |locals| ==> locals[k] != []
  {
    seq(|locals|, r requires 0 <= r < |locals| && (forall k :: 0 <= k < |locals| ==> locals[k] != []) =>
      DistributedLogSoftmax(locals, r, exp, log))
  }

  /** The ranks' log-softmaxes, in rank order, are the log-softmax of the whole row. */
  lemma DistributedIsLogSoftmax(locals: seq<seq<real>>, exp: real -> real, log: real -> real)
    requires locals != [] && forall k :: 0 <= k < |locals| ==> locals[k] != []
    ensures Flatten(locals) != []
    ensures Flatten(AllLogSoftmax(locals, exp, log)) == LogSoftmax(Flatten(locals), exp, log)
  {
    GlobalMaxIsMax(locals);
    var top := GlobalMax(locals);
    var total := GlobalSum(locals, top, exp);
    GlobalSumIsSum(locals, top, exp);
    var f := Normalise(top, log(total));
    FlattenMapped(locals, f);
    AllNormalised(locals, exp, log);
  }

  lemma AllNormalised(locals: seq<seq<real>>, exp: real -> real, log: real -> real)
    requires locals != [] && forall k :: 0 <= k < |locals| ==> locals[k] != []
    ensures var top := GlobalMax(locals);
      AllLogSoftmax(locals, exp, log) == seq(|locals|, r requires 0 <= r < |locals| =>
        MapReal(Normalise(top, log(GlobalSum(locals, top, exp))), locals[r]))
  {
  }

  // ---- What the ranks' results are ----

  /** A sum as a term of its own. */
  function Plus(x: real, y: real): real { x + y }

  /** `exp` turns sums into products and is positive, and `log` undoes it, as the exponential and the logarithm do. */
  ghost predicate AreExpLog(exp: real -> real, log: real -> real) {
    && (forall a: real, b: real {:trigger exp(Plus(a, b))} :: exp(Plus(a, b)) == Times(exp(a), exp(b)))
    && (forall a: real {:trigger log(exp(a))} :: exp(a) > 0.0 && log(exp(a)) == a)
    && (forall x: real {:trigger exp(log(x))} :: x > 0.0 ==> exp(log(x)) == x)
  }

  lemma ExpPositive(a: real, exp: real -> real, log: real -> real)
    requires AreExpLog(exp, log)
    ensures exp(a) > 0.0 && log(exp(a)) == a
  {
  }

  lemma LogOfProduct(x: real, y: real, exp: real -> real, log: real -> real)
    requires AreExpLog(exp, log) && x > 0.0 && y > 0.0
    ensures log(Times(x, y)) == log(x) + log(y)
  {
    var a, b := log(x), log(y);
    assert exp(log(x)) == x && exp(log(y)) == y;
    assert exp(Plus(a, b)) == Times(x, y);
    ExpPositive(Plus(a, b), exp, log);
  }

  function SumExp(row: seq<real>, exp: real -> real): real { SumReals(MapReal(exp, row)) }

  lemma MapSnoc(f: real -> real, row: seq<real>)
    requires row != []
    ensures SumReals(MapReal(f, row)) == SumReals(MapReal(f, row[..|row| - 1])) + f(row[|row| - 1])
  {
    assert MapReal(f, row)[..|row| - 1] == MapReal(f, row[..|row| - 1]);
  }

  lemma ShiftedTerm(z: real, top: real, exp: real -> real, log: real -> real)
    requires AreExpLog(exp, log)
    ensures ShiftedExp(exp, top)(z) == Times(exp(-top), exp(z))
  {
    assert Plus(-top, z) == z - top;
    assert exp(Plus(-top, z)) == Times(exp(-top), exp(z));
  }

  /** Shifting all logits divides the sum of their exponentials. */
  lemma {:induction false} ShiftedSum(row: seq<real>, top: real, exp: real -> real, log: real -> real)
    requires AreExpLog(exp, log)
    ensures SumReals(MapReal(ShiftedExp(exp, top), row)) == Times(exp(-top), SumExp(row, exp))
  {
    if row == [] {
      TimesZero(exp(-top));
    } else {
      var n := |row| - 1;
      ShiftedSum(row[..n], top, exp, log);
      MapSnoc(ShiftedExp(exp, top), row);
      MapSnoc(exp, row);
      ShiftedTerm(row[n], top, exp, log);
      Distribute(exp(-top), SumExp(row[..n], exp), exp(row[n]));
    }
  }

  lemma TimesZero(x: real)
    ensures Times(x, 0.0) == 0.0
  {
  }

  lemma Distribute(x: real, a: real, b: real)
    ensures Times(x, a + b) == Times(x, a) + Times(x, b)
  {
  }

  lemma {:induction false} SumExpPositive(row: seq<real>, exp: real -> real, log: real -> real)
    requires AreExpLog(exp, log)
    ensures SumExp(row, exp) >= 0.0 && (row != [] ==> SumExp(row, exp) > 0.0)
  {
    if row != [] {
      SumExpPositive(row[..|row| - 1], exp, log);
      MapSnoc(exp, row);
      ExpPositive(row[|row| - 1], exp, log);
    }
  }

  /** Every entry of a log-softmax is its logit less the logarithm of the sum of all exponentials. */
  lemma LogSoftmaxMeans(row: seq<real>, i: nat, exp: real -> real, log: real -> real)
    requires AreExpLog(exp, log) && i < |row|
    ensures LogSoftmax(row, exp, log)[i] == row[i] - log(SumExp(row, exp))
  {
    var top := MaxReal(row);
    ShiftedSum(row, top, exp, log);
    SumExpPositive(row, exp, log);
    ExpPositive(-top, exp, log);
    LogOfProduct(exp(-top), SumExp(row, exp), exp, log);
  }

  /** So the exponentials of the entries are shares of a whole. */
  lemma LogSoftmaxSumsToOne(row: seq<real>, exp: real -> real, log: real -> real)
    requires AreExpLog(exp, log) && row != []
    ensures SumExp(LogSoftmax(row, exp, log), exp) == 1.0
  {
    var total := log(SumExp(row, exp));
    SumExpPositive(row, exp, log);
    assert exp(log(SumExp(row, exp))) == SumExp(row, exp);
    LogSoftmaxShifts(row, exp, log);
    ShiftedSum(row, total, exp, log);
    ExpOfNegative(total, exp, log);
  }

  lemma LogSoftmaxShifts(row: seq<real>, exp: real -> real, log: real -> real)
    requires AreExpLog(exp, log) && row != []
    ensures MapReal(exp, LogSoftmax(row, exp, log)) == MapReal(ShiftedExp(exp, log(SumExp(row, exp))), row)
  {
    forall i | 0 <= i < |row|
      ensures exp(LogSoftmax(row, exp, log)[i]) == exp(row[i] - log(SumExp(row, exp)))
    {
      LogSoftmaxMeans(row, i, exp, log);
    }
  }

  lemma ExpOfZero(exp: real -> real, log: real -> real)
    requires AreExpLog(exp, log)
    ensures exp(0.0) == 1.0
  {
    assert Plus(0.0, 0.0) == 0.0;
    assert exp(Plus(0.0, 0.0)) == Times(exp(0.0), exp(0.0));
    ExpPositive(0.0, exp, log);
    OneOfSquare(exp(0.0));
  }

  lemma OneOfSquare(e: real)
    requires e == Times(e, e) && e > 0.0
    ensures e == 1.0
  {
    assert e * (e - 1.0) == 0.0;
  }

  lemma ExpOfNegative(a: real, exp: real -> real, log: real -> real)
    requires AreExpLog(exp, log)
    ensures Times(exp(-a), exp(a)) == 1.0
  {
    assert Plus(-a, a) == 0.0;
    assert exp(Plus(-a, a)) == Times(exp(-a), exp(a));
    ExpOfZero(exp, log);
  }

  /**
   * What the ranks hold, in rank order: any two entries differ as their logits do, whatever `exp` and `log` are, and with
   * the exponential and the logarithm the exponentials of all entries sum to one.
   */
  lemma DistributedIsNormalised(locals: seq<seq<real>>, exp: real -> real, log: real -> real)
    requires locals != [] && forall k :: 0 <= k < |locals| ==> locals[k] != []
    ensures var row, out := Flatten(locals), Flatten(AllLogSoftmax(locals, exp, log));
      && |out| == |row| && (forall i, j :: 0 <= i < |row| && 0 <= j < |row| ==> out[i] - out[j] == row[i] - row[j])
      && (AreExpLog(exp, log) ==> SumExp(out, exp) == 1.0)
  {
    DistributedIsLogSoftmax(locals, exp, log);
    if AreExpLog(exp, log) {
      LogSoftmaxSumsToOne(Flatten(locals), exp, log);
    }
  }

  /** These two properties leave no choice. */
  lemma NormalisedIsUnique(row: seq<real>, out: seq<real>, other: seq<real>, exp: real -> real, log: real -> real)
    requires AreExpLog(exp, log) && |out| == |other| == |row| > 0
    requires forall i, j :: 0 <= i < |row| && 0 <= j < |row| ==> out[i] - out[j] == row[i] - row[j]
    requires forall i, j :: 0 <= i < |row| && 0 <= j < |row| ==> other[i] - other[j] == row[i] - row[j]
    requires SumExp(out, exp) == SumExp(other, exp) == 1.0
    ensures out == other
  {
    var d := other[0] - out[0];
    assert forall i :: 0 <= i < |row| ==> out[i] == other[i] - d;
    ShiftedSum(other, d, exp, log);
    assert MapReal(ShiftedExp(exp, d), other) == MapReal(exp, out);
    assert Times(exp(-d), 1.0) == exp(-d);
    ExpOfZero(exp, log);
    ExpPositive(-d, exp, log);
    ExpPositive(0.0, exp, log);
  }

  /** The logit of `target` less the logarithm of the sum of all exponentials, or zero outside the vocabulary. */
  ghost predicate IsLogprob(x: real, row: seq<real>, target: int, exp: real -> real, log: real -> real) {
    x == if 0 <= target < |row| then row[target] - log(SumReals(MapReal(exp, row))) else 0.0
  }

  // ---- Gathering at a global index ----

  /** What rank `r` adds to the all-reduce for global index `t`: its own entry, or zero when it does not own `t`. */
  function MaskedEntry(values: seq<seq<real>>, r: nat, size: nat, t: int): real
    requires r < |values| && |values[r]| == size
  {
    if r * size <= t < r * size + size then values[r][t - r * size] else 0.0
  }

  function MaskedEntries(values: seq<seq<real>>, size: nat, t: int, n: nat): seq<real>
    requires n <= |values| && forall k :: 0 <= k < |values| ==> |values[k]| == size
  {
    seq(n, r requires 0 <= r < n => MaskedEntry(values, r, size, t))
  }

  lemma {:induction false} MaskedSumUpTo(values: seq<seq<real>>, size: nat, t: int, n: nat, end: nat)
    requires n <= |values| && end == n * size && forall k :: 0 <= k < |values| ==> |values[k]| == size
    ensures |Flatten(values[..n])| == end
    ensures SumReals(MaskedEntries(values, size, t, n)) == if 0 <= t < end then Flatten(values[..n])[t] else 0.0
  {
    if n > 0 {
      var m, start := n - 1, end - size;
      assert start == m * size;
      MaskedSumUpTo(values, size, t, m, start);
      assert values[..n] == values[..m] + [values[m]];
      FlattenSnoc(values[..m], values[m]);
      assert MaskedEntries(values, size, t, n)[..m] == MaskedEntries(values, size, t, m);
    }
  }

  /** Exactly one rank owns each index, so the masked sum over the ranks is the entry of the full row. */
  lemma MaskedSumIsEntry(values: seq<seq<real>>, size: nat, t: int)
    requires forall k :: 0 <= k < |values| ==> |values[k]| == size
    ensures SumReals(MaskedEntries(values, size, t, |values|))
         == if 0 <= t < |Flatten(values)| then Flatten(values)[t] else 0.0
  {
    MaskedSumUpTo(values, size, t, |values|, |values| * size);
    assert values[..|values|] == values;
  }

  /** `DistributedLogprob.forward` for one position, after the all-reduce. */
  function DistributedLogprob(locals: seq<seq<real>>, size: nat, target: int, exp: real -> real, log: real -> real): real
    requires EvenVocab(locals, size)
  {
    SumReals(MaskedEntries(AllLogSoftmax(locals, exp, log), size, target, |locals|))
  }

  /** The log-probability of `target` under the full row; an index outside the vocabulary counts as zero. */
  function Logprob(row: seq<real>, target: int, exp: real -> real, log: real -> real): real
    requires row != []
  {
    if 0 <= target < |row| then LogSoftmax(row, exp, log)[target] else 0.0
  }

  lemma LogprobMeans(row: seq<real>, target: int, exp: real -> real, log: real -> real)
    requires AreExpLog(exp, log) && row != []
    ensures IsLogprob(Logprob(row, target, exp, log), row, target, exp, log)
  {
    if 0 <= target < |row| {
      LogSoftmaxMeans(row, target, exp, log);
    }
  }

  /** Whatever the number of ranks, the distributed log-probability is that of the full row. */
  lemma DistributedIsLogprob(locals: seq<seq<real>>, size: nat, target: int, exp: real -> real, log: real -> real)
    requires EvenVocab(locals, size)
    ensures Flatten(locals) != []
    ensures DistributedLogprob(locals, size, target, exp, log) == Logprob(Flatten(locals), target, exp, log)
    ensures AreExpLog(exp, log) ==>
      IsLogprob(DistributedLogprob(locals, size, target, exp, log), Flatten(locals), target, exp, log)
  {
    DistributedIsLogSoftmax(locals, exp, log);
    MaskedSumIsEntry(AllLogSoftmax(locals, exp, log), size, target);
    if AreExpLog(exp, log) {
      LogprobMeans(Flatten(locals), target, exp, log);
    }
  }

  /** Each is the log-probability of its target under the full row at its position. */
  ghost predicate AreLogprobs(logprobs: seq<real>, positions: seq<seq<seq<real>>>, targets: seq<int>,
                              exp: real -> real, log: real -> real)
  {
    && |logprobs| <= |positions| == |targets|
    && (forall p :: 0 <= p < |logprobs| ==> Flatten(positions[p]) != [])
    && (forall p :: 0 <= p < |logprobs| ==> logprobs[p] == Logprob(Flatten(positions[p]), targets[p], exp, log))
  }

  lemma LogprobsMean(logprobs: seq<real>, positions: seq<seq<seq<real>>>, targets: seq<int>, exp: real -> real,
                     log: real -> real)
    requires AreExpLog(exp, log) && AreLogprobs(logprobs, positions, targets, exp, log)
    ensures forall p :: 0 <= p < |logprobs| ==> IsLogprob(logprobs[p], Flatten(positions[p]), targets[p], exp, log)
  {
    forall p | 0 <= p < |logprobs| ensures IsLogprob(logprobs[p], Flatten(positions[p]), targets[p], exp, log) {
      LogprobMeans(Flatten(positions[p]), targets[p], exp, log);
    }
  }

  /** One chunk's log-probabilities, appended. */
  method ForwardChunk(positions: seq<seq<seq<real>>>, targets: seq<int>, size: nat, start: nat, end: nat,
                      before: seq<real>, exp: real -> real, log: real -> real)
    returns (logprobs: seq<real>)
    requires |before| == start <= end <= |positions| == |targets| && AreLogprobs(before, positions, targets, exp, log)
    requires forall p :: 0 <= p < |positions| ==> EvenVocab(positions[p], size)
    ensures |logprobs| == end && AreLogprobs(logprobs, positions, targets, exp, log)
  {
    logprobs := before;
    for p := start to end
      invariant |logprobs| == p && AreLogprobs(logprobs, positions, targets, exp, log)
    {
      DistributedIsLogprob(positions[p], size, targets[p], exp, log);
      logprobs := logprobs + [DistributedLogprob(positions[p], size, targets[p], exp, log)];
    }
  }

  /**
   * `ChunkedDistributedLogprob.forward`: position chunks of `chunkSize`, each handled on its own, appended in order.
   * The chunking does not show in the result.
   */
  method ChunkedDistributedLogprob(positions: seq<seq<seq<real>>>, targets: seq<int>, size: nat, chunkSize: nat,
                                   exp: real -> real, log: real -> real)
    returns (logprobs: seq<real>)
    requires 0 < chunkSize && |targets| == |positions|
    requires forall p :: 0 <= p < |positions| ==> EvenVocab(positions[p], size)
    ensures |logprobs| == |positions| && AreLogprobs(logprobs, positions, targets, exp, log)
    ensures AreExpLog(exp, log) ==> forall p :: 0 <= p < |positions| ==>
              IsLogprob(logprobs[p], Flatten(positions[p]), targets[p], exp, log)
  {
    var total := |positions|;
    var numChunks := (total + chunkSize - 1) / chunkSize;
    ChunksCover(total, chunkSize, numChunks);
    logprobs := [];
    for chunk := 0 to numChunks
      invariant |logprobs| == Min(total, chunk * chunkSize)
      invariant AreLogprobs(logprobs, positions, targets, exp, log)
    {
      assert (chunk + 1) * chunkSize == chunk * chunkSize + chunkSize;
      var start, end := Min(total, chunk * chunkSize), Min(total, (chunk + 1) * chunkSize);
      logprobs := ForwardChunk(positions, targets, size, start, end, logprobs, exp, log);
    }
    if AreExpLog(exp, log) {
      LogprobsMean(logprobs, positions, targets, exp, log);
    }
  }

  lemma ChunksCover(total: nat, chunkSize: nat, numChunks: int)
    requires 0 < chunkSize && numChunks == (total + chunkSize - 1) / chunkSize
    ensures 0 <= numChunks && total <= numChunks * chunkSize
  {
    var m := total + chunkSize - 1;
    assert m == m / chunkSize * chunkSize + m % chunkSize;
  }
}
