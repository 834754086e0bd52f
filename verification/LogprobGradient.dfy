/**
 * Why the backward passes are right: what they return is the gradient of the weighted log-probabilities that the forward
 * passes compute. Log-probabilities are concave in the logits, so the gradient is the slope that bounds them from above
 * on both sides of every row of logits.
 */
module LogprobGradient {
  import opened Seqs
  import opened Lists
  import opened VocabParallel
  import opened ScatterGradients

  /** `exp` lies above its tangent at zero, as the exponential does. */
  ghost predicate AboveTangent(exp: real -> real) { forall x: real {:trigger exp(x)} :: 1.0 + x <= exp(x) }

  function Products(a: seq<real>, b: seq<real>): (r: seq<real>)
    requires |a| == |b|
    ensures |r| == |a|
  {
    seq(|a|, i requires 0 <= i < |a| == |b| => Times(a[i], b[i]))
  }

  function Inner(a: seq<real>, b: seq<real>): real
    requires |a| == |b|
  {
    SumReals(Products(a, b))
  }

  function Differences(a: seq<real>, b: seq<real>): (r: seq<real>)
    requires |a| == |b|
    ensures |r| == |a|
  {
    seq(|a|, i requires 0 <= i < |a| == |b| => a[i] - b[i])
  }

  lemma InnerSnoc(a: seq<real>, b: seq<real>)
    requires |a| == |b| && a != []
    ensures var n := |a| - 1; Inner(a, b) == Inner(a[..n], b[..n]) + Times(a[n], b[n])
  {
    assert Products(a, b)[..|a| - 1] == Products(a[..|a| - 1], b[..|a| - 1]);
  }

  // ---- Log-probabilities lie below their tangents ----

  lemma AboveTangentAt(a: real, b: real, exp: real -> real, log: real -> real)
    requires AreExpLog(exp, log) && AboveTangent(exp)
    ensures exp(a) + Times(exp(a), b - a) <= exp(b)
  {
    assert Plus(a, b - a) == b;
    assert exp(Plus(a, b - a)) == Times(exp(a), exp(b - a));
    assert 1.0 + (b - a) <= exp(b - a);
    ExpPositive(a, exp, log);
    TimesAscends(exp(a), 1.0 + (b - a), exp(b - a));
    Distribute(exp(a), 1.0, b - a);
  }

  lemma TimesAscends(x: real, a: real, b: real)
    requires 0.0 <= x && a <= b
    ensures Times(x, a) <= Times(x, b)
  {
    assert x * (b - a) >= 0.0;
  }

  /** Sums of exponentials lie above their tangents. */
  lemma {:induction false} SumAboveTangent(a: seq<real>, b: seq<real>, exp: real -> real, log: real -> real)
    requires AreExpLog(exp, log) && AboveTangent(exp) && |a| == |b|
    ensures SumExp(a, exp) + Inner(MapReal(exp, a), Differences(b, a)) <= SumExp(b, exp)
  {
    if a != [] {
      var n := |a| - 1;
      SumAboveTangent(a[..n], b[..n], exp, log);
      MapSnoc(exp, a);
      MapSnoc(exp, b);
      InnerSnoc(MapReal(exp, a), Differences(b, a));
      assert MapReal(exp, a)[..n] == MapReal(exp, a[..n]) && Differences(b, a)[..n] == Differences(b[..n], a[..n]);
      AboveTangentAt(a[n], b[n], exp, log);
    }
  }

  /** A constant on top of every difference adds the constant times the sum of the weights. */
  lemma {:induction false} InnerShift(weights: seq<real>, d: seq<real>, e: seq<real>, shift: real)
    requires |weights| == |d| == |e| && forall i :: 0 <= i < |d| ==> d[i] == e[i] + shift
    ensures Inner(weights, d) == Inner(weights, e) + Times(SumReals(weights), shift)
  {
    if weights == [] {
      assert Times(0.0, shift) == 0.0;
    } else {
      var n := |weights| - 1;
      InnerShift(weights[..n], d[..n], e[..n], shift);
      InnerSnoc(weights, d);
      InnerSnoc(weights, e);
      Distribute(weights[n], e[n], shift);
      Distribute(shift, SumReals(weights[..n]), weights[n]);
    }
  }

  /** The softmax that the forward pass keeps for the backward pass. */
  function Softmax(row: seq<real>, exp: real -> real, log: real -> real): (r: seq<real>)
    requires row != []
    ensures |r| == |row|
  {
    MapReal(exp, LogSoftmax(row, exp, log))
  }

  /** Going from logits `z` to `w`, a log-probability grows by no more than its logit less the expected difference. */
  lemma LogprobBelowTangent(z: seq<real>, w: seq<real>, t: nat, exp: real -> real, log: real -> real)
    requires AreExpLog(exp, log) && AboveTangent(exp) && |z| == |w| && t < |z|
    ensures LogSoftmax(w, exp, log)[t] - LogSoftmax(z, exp, log)[t]
         <= w[t] - z[t] - Inner(Softmax(z, exp, log), Differences(w, z))
  {
    var a, b := LogSoftmax(z, exp, log), LogSoftmax(w, exp, log);
    LogSoftmaxSumsToOne(z, exp, log);
    LogSoftmaxSumsToOne(w, exp, log);
    SumAboveTangent(a, b, exp, log);
    var shift := log(SumExp(w, exp)) - log(SumExp(z, exp));
    forall i | 0 <= i < |z| ensures Differences(w, z)[i] == Differences(b, a)[i] + shift {
      LogSoftmaxMeans(z, i, exp, log);
      LogSoftmaxMeans(w, i, exp, log);
    }
    InnerShift(Softmax(z, exp, log), Differences(w, z), Differences(b, a), shift);
    assert Times(1.0, shift) == shift;
    LogSoftmaxMeans(z, t, exp, log);
    LogSoftmaxMeans(w, t, exp, log);
  }

  // ---- The slope that the backward pass returns ----

  ghost predicate AreTargets(indices: seq<int>, n: nat) { forall k :: 0 <= k < |indices| ==> 0 <= indices[k] < n }

  /** What the forward pass contributes to the loss: the chosen log-probabilities, weighted with their gradients. */
  function Chosen(values: seq<real>, indices: seq<int>, grads: seq<real>): real
    requires |indices| == |grads| && AreTargets(indices, |values|)
  {
    if indices == [] then 0.0
    else
      var n := |indices| - 1;
      Chosen(values, indices[..n], grads[..n]) + Times(grads[n], values[indices[n]])
  }

  /** What one more index adds to a row's gradients. */
  function OneMore(softmax: seq<real>, index: int, grad: real): (r: seq<real>)
    ensures |r| == |softmax|
  {
    seq(|softmax|, v requires 0 <= v < |softmax| => Times(-softmax[v], grad) + if index == v then grad else 0.0)
  }

  lemma {:induction false} OneMoreSlope(softmax: seq<real>, index: int, grad: real, d: seq<real>)
    requires |softmax| == |d|
    ensures Inner(OneMore(softmax, index, grad), d)
         == (if 0 <= index < |d| then Times(grad, d[index]) else 0.0) - Times(grad, Inner(softmax, d))
  {
    if d == [] {
      assert Times(grad, 0.0) == 0.0;
    } else {
      var n := |d| - 1;
      OneMoreSlope(softmax[..n], index, grad, d[..n]);
      assert OneMore(softmax, index, grad)[..n] == OneMore(softmax[..n], index, grad);
      InnerSnoc(OneMore(softmax, index, grad), d);
      InnerSnoc(softmax, d);
      Distribute(grad, Inner(softmax[..n], d[..n]), Times(softmax[n], d[n]));
      OneTerm(softmax[n], grad, d[n]);
    }
  }

  lemma OneTerm(s: real, grad: real, x: real)
    ensures Times(Times(-s, grad) + grad, x) == Times(grad, x) - Times(grad, Times(s, x))
    ensures Times(Times(-s, grad) + 0.0, x) == -Times(grad, Times(s, x))
  {
    assert (-s * grad) * x == -(grad * (s * x));
  }

  lemma {:induction false} InnerAdds(a: seq<real>, b: seq<real>, c: seq<real>, d: seq<real>)
    requires |a| == |b| == |c| == |d| && forall v :: 0 <= v < |a| ==> a[v] == b[v] + c[v]
    ensures Inner(a, d) == Inner(b, d) + Inner(c, d)
  {
    if a != [] {
      var n := |a| - 1;
      InnerAdds(a[..n], b[..n], c[..n], d[..n]);
      InnerSnoc(a, d);
      InnerSnoc(b, d);
      InnerSnoc(c, d);
      Distribute(d[n], b[n], c[n]);
    }
  }

  lemma GradRowSnoc(p: Position, v: nat)
    requires |p.indices| == |p.grads| && p.indices != [] && v < |p.softmax|
    ensures var n := |p.indices| - 1;
      GradRow(p, 0)[v] == GradRow(p.(indices := p.indices[..n], grads := p.grads[..n]), 0)[v]
                          + OneMore(p.softmax, p.indices[n], p.grads[n])[v]
  {
    var n := |p.indices| - 1;
    Distribute(-p.softmax[v], SumReals(p.grads[..n]), p.grads[n]);
  }

  /** One more index adds its own slope. */
  lemma SlopeNext(p: Position, d: seq<real>)
    requires |p.indices| == |p.grads| && |p.softmax| == |d| && p.indices != [] && AreTargets(p.indices, |d|)
    ensures var n := |p.indices| - 1;
      Inner(GradRow(p, 0), d) == Inner(GradRow(p.(indices := p.indices[..n], grads := p.grads[..n]), 0), d)
                                 + (Times(p.grads[n], d[p.indices[n]]) - Times(p.grads[n], Inner(p.softmax, d)))
  {
    var n := |p.indices| - 1;
    var before := p.(indices := p.indices[..n], grads := p.grads[..n]);
    var more := OneMore(p.softmax, p.indices[n], p.grads[n]);
    forall v | 0 <= v < |d| ensures GradRow(p, 0)[v] == GradRow(before, 0)[v] + more[v] {
      GradRowSnoc(p, v);
    }
    InnerAdds(GradRow(p, 0), GradRow(before, 0), more, d);
    OneMoreSlope(p.softmax, p.indices[n], p.grads[n], d);
  }

  lemma SlopeStep(all: real, chosen: real, last: real, sum: real, total: real, grad: real, mean: real)
    requires all == chosen + last && sum == total + grad
    ensures all - Times(sum, mean) == chosen - Times(total, mean) + (last - Times(grad, mean))
  {
    Distribute(mean, total, grad);
  }

  /** The slope along `d`: for each index its gradient times the difference there, less the expected difference. */
  lemma {:induction false} GradientSlope(p: Position, d: seq<real>)
    requires |p.indices| == |p.grads| && |p.softmax| == |d| && AreTargets(p.indices, |d|)
    ensures Inner(GradRow(p, 0), d) == Chosen(d, p.indices, p.grads) - Times(SumReals(p.grads), Inner(p.softmax, d))
    decreases |p.indices|
  {
    if p.indices == [] {
      assert Times(0.0, Inner(p.softmax, d)) == 0.0;
      ZeroSlope(GradRow(p, 0), d);
    } else {
      var n := |p.indices| - 1;
      GradientSlope(p.(indices := p.indices[..n], grads := p.grads[..n]), d);
      SlopeNext(p, d);
      SlopeStep(Chosen(d, p.indices, p.grads), Chosen(d, p.indices[..n], p.grads[..n]),
                Times(p.grads[n], d[p.indices[n]]), SumReals(p.grads), SumReals(p.grads[..n]), p.grads[n],
                Inner(p.softmax, d));
    }
  }

  lemma {:induction false} ZeroSlope(a: seq<real>, d: seq<real>)
    requires |a| == |d| && forall v :: 0 <= v < |a| ==> a[v] == 0.0
    ensures Inner(a, d) == 0.0
  {
    if a != [] {
      ZeroSlope(a[..|a| - 1], d[..|a| - 1]);
      InnerSnoc(a, d);
    }
  }

  // ---- The backward pass returns the slope of the forward pass ----

  ghost predicate NoneNegative(grads: seq<real>) { forall k :: 0 <= k < |grads| ==> 0.0 <= grads[k] }

  ghost predicate NonePositive(grads: seq<real>) { forall k :: 0 <= k < |grads| ==> grads[k] <= 0.0 }

  /** The chosen values `b`, next to the chosen values `a` and the slope between them. */
  lemma {:induction false} ChosenBelowTangent(a: seq<real>, b: seq<real>, d: seq<real>, mean: real, indices: seq<int>,
                                              grads: seq<real>)
    requires |a| == |b| == |d| && |indices| == |grads| && AreTargets(indices, |a|)
    requires forall t :: 0 <= t < |a| ==> b[t] - a[t] <= d[t] - mean
    ensures var slope := Chosen(d, indices, grads) - Times(SumReals(grads), mean);
      && (NoneNegative(grads) ==> Chosen(b, indices, grads) <= Chosen(a, indices, grads) + slope)
      && (NonePositive(grads) ==> Chosen(a, indices, grads) + slope <= Chosen(b, indices, grads))
  {
    if indices == [] {
      assert Times(0.0, mean) == 0.0;
    } else {
      var n := |indices| - 1;
      ChosenBelowTangent(a, b, d, mean, indices[..n], grads[..n]);
      assert NoneNegative(grads) ==> NoneNegative(grads[..n]);
      assert NonePositive(grads) ==> NonePositive(grads[..n]);
      ScaledBound(grads[n], a[indices[n]], b[indices[n]], d[indices[n]], mean);
      SlopeStep(Chosen(d, indices, grads), Chosen(d, indices[..n], grads[..n]), Times(grads[n], d[indices[n]]),
                SumReals(grads), SumReals(grads[..n]), grads[n], mean);
    }
  }

  lemma ScaledBound(grad: real, a: real, b: real, d: real, mean: real)
    requires b - a <= d - mean
    ensures 0.0 <= grad ==> Times(grad, b) <= Times(grad, a) + Times(grad, d) - Times(grad, mean)
    ensures grad <= 0.0 ==> Times(grad, a) + Times(grad, d) - Times(grad, mean) <= Times(grad, b)
  {
    var rest := d - mean - (b - a);
    assert grad * rest == grad * d - grad * mean - grad * b + grad * a;
    if 0.0 <= grad {
      assert 0.0 <= grad * rest;
    } else {
      assert grad * rest <= 0.0;
    }
  }

  /** Every rank's share of one position: its part of the softmax, the global indices and all their gradients. */
  function Shares(softmaxes: seq<seq<real>>, indices: seq<int>, grads: seq<real>, size: nat): seq<seq<real>>
    requires |indices| == |grads|
  {
    seq(|softmaxes|, r requires 0 <= r < |softmaxes| && |indices| == |grads| =>
      GradRow(Position(softmaxes[r], indices, grads), r * size))
  }

  lemma GradRowConcat(a: seq<real>, b: seq<real>, indices: seq<int>, grads: seq<real>)
    requires |indices| == |grads|
    ensures GradRow(Position(a + b, indices, grads), 0)
         == GradRow(Position(a, indices, grads), 0) + GradRow(Position(b, indices, grads), |a|)
  {
  }

  /** The ranks' gradients, in rank order, are the gradient of the whole row. */
  lemma {:induction false} SharesJoin(softmaxes: seq<seq<real>>, indices: seq<int>, grads: seq<real>, size: nat, end: nat)
    requires |indices| == |grads| && forall r :: 0 <= r < |softmaxes| ==> |softmaxes[r]| == size
    requires end == |softmaxes| * size
    ensures |Flatten(softmaxes)| == end
    ensures Flatten(Shares(softmaxes, indices, grads, size)) == GradRow(Position(Flatten(softmaxes), indices, grads), 0)
  {
    if softmaxes != [] {
      var n := |softmaxes| - 1;
      assert n * size == end - size;
      SharesJoin(softmaxes[..n], indices, grads, size, end - size);
      assert Shares(softmaxes, indices, grads, size)[..n] == Shares(softmaxes[..n], indices, grads, size);
      GradRowConcat(Flatten(softmaxes[..n]), softmaxes[n], indices, grads);
    }
  }

  /**
   * The gradients that the backward pass returns on the ranks, put together, are the slope of the weighted sum of the
   * chosen log-probabilities: from any logits `z` to any logits `w`, with indices repeated or not, that sum lies on or
   * below its tangent when no gradient is negative, and on or above it when none is positive.
   */
  lemma BackwardIsGradient(locals: seq<seq<real>>, size: nat, w: seq<real>, indices: seq<int>, grads: seq<real>,
                           exp: real -> real, log: real -> real)
    requires AreExpLog(exp, log) && AboveTangent(exp) && EvenVocab(locals, size) && |w| == |Flatten(locals)|
    requires |indices| == |grads| && AreTargets(indices, |w|)
    ensures var z := Flatten(locals); var softmaxes := MapRows(exp, AllLogSoftmax(locals, exp, log));
      && z != [] && |Flatten(Shares(softmaxes, indices, grads, size))| == |w|
      && (var before, after := Chosen(LogSoftmax(z, exp, log), indices, grads), Chosen(LogSoftmax(w, exp, log), indices, grads);
          var slope := Inner(Flatten(Shares(softmaxes, indices, grads, size)), Differences(w, z));
          && (NoneNegative(grads) ==> after <= before + slope) && (NonePositive(grads) ==> before + slope <= after))
  {
    var z, all := Flatten(locals), AllLogSoftmax(locals, exp, log);
    DistributedIsLogSoftmax(locals, exp, log);
    RowsMapped(exp, all);
    SharesJoin(MapRows(exp, all), indices, grads, size, |locals| * size);
    var d, mean := Differences(w, z), Inner(Softmax(z, exp, log), Differences(w, z));
    forall t | 0 <= t < |z| ensures LogSoftmax(w, exp, log)[t] - LogSoftmax(z, exp, log)[t] <= d[t] - mean {
      LogprobBelowTangent(z, w, t, exp, log);
    }
    ChosenBelowTangent(LogSoftmax(z, exp, log), LogSoftmax(w, exp, log), d, mean, indices, grads);
    GradientSlope(Position(Softmax(z, exp, log), indices, grads), Differences(w, z));
  }

  function MapRows(f: real -> real, rows: seq<seq<real>>): (r: seq<seq<real>>)
    ensures |r| == |rows| && forall k :: 0 <= k < |r| ==> |r[k]| == |rows[k]|
  {
    seq(|rows|, k requires 0 <= k < |rows| => MapReal(f, rows[k]))
  }

  lemma RowsMapped(f: real -> real, rows: seq<seq<real>>)
    ensures Flatten(MapRows(f, rows)) == MapReal(f, Flatten(rows))
  {
    FlattenMapped(rows, f);
  }
}
