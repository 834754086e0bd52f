/**
 * Per-prompt baselines and standard deviations, in exact reals. Advantages cancel within every prompt group, with or
 * without leave-one-out and for every validity mask; the spread is the sample variance of the contributing rewards.
 */
module GroupStatistics {
  import opened Seqs
  import opened Lists

  /** A prompt's token ids. */
  type Prompt = seq<int>

  /** The square root of `square`, or the largest float, which infinities become. */
  datatype Std = Root(square: real) | LargestFloat

  // ---- The formulas, one entry at a time ----

  function CountValid(valid: seq<bool>): nat {
    if valid == [] then 0 else CountValid(valid[..|valid| - 1]) + (if valid[|valid| - 1] then 1 else 0)
  }

  /** A row of the mask matrix times the masked values: the valid values, without the one at `skip`. */
  function RowSum(values: seq<real>, valid: seq<bool>, skip: int): real
    requires |values| == |valid|
  {
    if values == [] then 0.0
    else
      var n := |values| - 1;
      RowSum(values[..n], valid[..n], skip) + (if n != skip && valid[n] then values[n] else 0.0)
  }

  function Ratio(x: real, n: int): real
    requires n > 0
  {
    x / n as real
  }

  function Square(x: real): real { Times(x, x) }

  function Squares(values: seq<real>): seq<real>
  {
    seq(|values|, k requires 0 <= k < |values| => Square(values[k]))
  }

  /** Which sample the row for `k` leaves out: itself under leave-one-out, none otherwise. */
  function Skipped(k: nat, leaveOneOut: bool): int { if leaveOneOut then k else -1 }

  function NumValid(valid: seq<bool>, leaveOneOut: bool): int { CountValid(valid) - (if leaveOneOut then 1 else 0) }

  /** With at most one valid sample the baseline is the reward itself. */
  function BaselineAt(rewards: seq<real>, valid: seq<bool>, leaveOneOut: bool, k: nat): real
    requires k < |rewards| == |valid|
  {
    if CountValid(valid) <= 1 then rewards[k]
    else Ratio(RowSum(rewards, valid, Skipped(k, leaveOneOut)), NumValid(valid, leaveOneOut))
  }

  function BesselCorrected(difference: real, n: int): real
    requires 2 <= n
  {
    difference * (n as real / (n - 1) as real)
  }

  /** Bessel's correction, the root, and what `nan_to_num(0)` makes of it: `inf` times a positive number stays infinite. */
  function CorrectedStd(difference: real, numValid: int): Std
    requires 1 <= numValid
  {
    if numValid == 1 then (if difference > 0.0 then LargestFloat else Root(0.0))
    else
      var square := BesselCorrected(difference, numValid);
      if square < 0.0 then Root(0.0) else Root(square)
  }

  function StdAt(rewards: seq<real>, valid: seq<bool>, leaveOneOut: bool, k: nat): Std
    requires k < |rewards| == |valid|
  {
    if CountValid(valid) <= 1 then Root(0.0)
    else
      var numValid := NumValid(valid, leaveOneOut);
      var mean := Ratio(RowSum(rewards, valid, Skipped(k, leaveOneOut)), numValid);
      var meanSquare := Ratio(RowSum(Squares(rewards), valid, Skipped(k, leaveOneOut)), numValid);
      CorrectedStd(meanSquare - Square(mean), numValid)
  }

  // ---- Writing the batch group by group ----

  /** The positions of a prompt. */
  function GroupOf(prompts: seq<Prompt>, prompt: Prompt): (r: seq<nat>)
    ensures forall k :: 0 <= k < |r| ==> r[k] < |prompts| && prompts[r[k]] == prompt
  {
    IndicesWhere(prompts, p => p == prompt)
  }

  function UniquePrompts(prompts: seq<Prompt>): seq<Prompt> {
    if prompts == [] then []
    else
      var n := |prompts| - 1;
      var rest := UniquePrompts(prompts[..n]);
      if prompts[n] in rest then rest else rest + [prompts[n]]
  }

  lemma {:induction false} UniquePromptsMeans(prompts: seq<Prompt>)
    ensures forall p :: p in UniquePrompts(prompts) <==> p in prompts
    ensures forall i, j :: 0 <= i < j < |UniquePrompts(prompts)| ==> UniquePrompts(prompts)[i] != UniquePrompts(prompts)[j]
  {
    if prompts != [] {
      var n := |prompts| - 1;
      UniquePromptsMeans(prompts[..n]);
      assert prompts == prompts[..n] + [prompts[n]];
    }
  }

  lemma {:induction false} IndicesComplete<T>(s: seq<T>, p: T -> bool, q: nat)
    requires q < |s| && p(s[q])
    ensures q in IndicesWhere(s, p)
  {
    var n := |s| - 1;
    if q < n {
      IndicesComplete(s[..n], p, q);
    }
  }

  /** A prompt that is repeated in adjacent places, and nowhere else, has those places for its group. */
  lemma {:induction false} AdjacentGroup(prompts: seq<Prompt>, prompt: Prompt, lo: nat, n: nat)
    requires lo + n <= |prompts|
    requires forall q :: 0 <= q < |prompts| ==> (prompts[q] == prompt <==> lo <= q < lo + n)
    ensures GroupOf(prompts, prompt) == Range(lo, n)
  {
    if prompts != [] {
      var m := |prompts| - 1;
      if lo + n == |prompts| && n > 0 {
        AdjacentGroup(prompts[..m], prompt, lo, n - 1);
        assert Range(lo, n) == Range(lo, n - 1) + [m];
      } else if n == 0 {
        AdjacentGroup(prompts[..m], prompt, 0, 0);
      } else {
        AdjacentGroup(prompts[..m], prompt, lo, n);
      }
    }
  }

  function Baselines(rewards: seq<real>, valid: seq<bool>, leaveOneOut: bool): seq<real>
    requires |rewards| == |valid|
  {
    seq(|rewards|, k requires 0 <= k < |rewards| => BaselineAt(rewards, valid, leaveOneOut, k))
  }

  function Stds(rewards: seq<real>, valid: seq<bool>, leaveOneOut: bool): seq<Std>
    requires |rewards| == |valid|
  {
    seq(|rewards|, k requires 0 <= k < |rewards| => StdAt(rewards, valid, leaveOneOut, k))
  }

  ghost predicate HoldsAt<T>(a: seq<T>, positions: seq<nat>, values: seq<T>) {
    |positions| == |values| && forall k :: 0 <= k < |positions| ==> positions[k] < |a| && a[positions[k]] == values[k]
  }

  /** Indexed assignment to a tensor. */
  method AssignAt<T>(a: array<T>, positions: seq<nat>, values: seq<T>)
    requires |positions| == |values|
    requires Ascending(positions, a.Length)
    modifies a
    ensures HoldsAt(a[..], positions, values)
    ensures forall q :: 0 <= q < a.Length && q !in positions ==> a[q] == old(a[q])
  {
    for k := 0 to |positions|
      invariant forall i :: 0 <= i < k ==> a[positions[i]] == values[i]
      invariant forall q :: 0 <= q < a.Length && q !in positions ==> a[q] == old(a[q])
    {
      a[positions[k]] := values[k];
    }
  }

  /** Assigning to one prompt's positions leaves every other prompt's entries alone. */
  lemma KeepsOtherGroup<T>(before: seq<T>, after: seq<T>, prompts: seq<Prompt>, prompt: Prompt, other: Prompt, values: seq<T>)
    requires |before| == |after| == |prompts| && prompt != other
    requires forall q :: 0 <= q < |prompts| && q !in GroupOf(prompts, prompt) ==> after[q] == before[q]
    requires HoldsAt(before, GroupOf(prompts, other), values)
    ensures HoldsAt(after, GroupOf(prompts, other), values)
  {
    var group := GroupOf(prompts, other);
    forall k | 0 <= k < |group| ensures after[group[k]] == values[k] {
      assert prompts[group[k]] == other;
      assert group[k] !in GroupOf(prompts, prompt);
    }
  }

  /** The statistics of every sample of a prompt are those of its group. */
  ghost predicate GroupDone(baseline: seq<real>, std: seq<Std>, prompts: seq<Prompt>, rewards: seq<real>,
                            valid: seq<bool>, leaveOneOut: bool, prompt: Prompt)
    requires |prompts| == |rewards| == |valid|
  {
    var group := GroupOf(prompts, prompt);
    && HoldsAt(baseline, group, Baselines(Select(rewards, group), Select(valid, group), leaveOneOut))
    && HoldsAt(std, group, Stds(Select(rewards, group), Select(valid, group), leaveOneOut))
  }

  /** The loop body: one group's results written to its positions. */
  method WriteGroup(baseline: array<real>, std: array<Std>, group: seq<nat>, rewards: seq<real>, valid: seq<bool>,
                    leaveOneOut: bool)
    requires baseline.Length == std.Length == |rewards| == |valid|
    requires Ascending(group, |rewards|) && forall k :: 0 <= k < |group| ==> std[group[k]] == Root(0.0)
    modifies baseline, std
    ensures HoldsAt(baseline[..], group, Baselines(Select(rewards, group), Select(valid, group), leaveOneOut))
    ensures HoldsAt(std[..], group, Stds(Select(rewards, group), Select(valid, group), leaveOneOut))
    ensures forall q :: 0 <= q < |rewards| && q !in group ==> baseline[q] == old(baseline[q]) && std[q] == old(std[q])
  {
    var g, m := Select(rewards, group), Select(valid, group);
    if CountValid(m) <= 1 {
      AssignAt(baseline, group, g);
    } else {
      AssignAt(baseline, group, Baselines(g, m, leaveOneOut));
      AssignAt(std, group, Stds(g, m, leaveOneOut));
    }
  }

  /** Prompts still to come have no standard deviation yet. */
  ghost predicate UntouchedExcept(std: seq<Std>, prompts: seq<Prompt>, done: seq<Prompt>) {
    |std| == |prompts| && forall q :: 0 <= q < |prompts| && prompts[q] !in done ==> std[q] == Root(0.0)
  }

  /** The prompts done before stay done, and the one just written is done. */
  lemma GroupsKept(b0: seq<real>, s0: seq<Std>, b1: seq<real>, s1: seq<Std>, prompts: seq<Prompt>, rewards: seq<real>,
                   valid: seq<bool>, leaveOneOut: bool, prompt: Prompt, other: Prompt)
    requires |b0| == |s0| == |b1| == |s1| == |prompts| == |rewards| == |valid| && prompt != other
    requires forall q :: 0 <= q < |prompts| && q !in GroupOf(prompts, prompt) ==> b1[q] == b0[q] && s1[q] == s0[q]
    requires GroupDone(b0, s0, prompts, rewards, valid, leaveOneOut, other)
    ensures GroupDone(b1, s1, prompts, rewards, valid, leaveOneOut, other)
  {
    var group := GroupOf(prompts, other);
    KeepsOtherGroup(b0, b1, prompts, prompt, other, Baselines(Select(rewards, group), Select(valid, group), leaveOneOut));
    KeepsOtherGroup(s0, s1, prompts, prompt, other, Stds(Select(rewards, group), Select(valid, group), leaveOneOut));
  }

  /** `calculate_baseline_and_std_per_prompt`: prompt by prompt, each group's statistics written to its positions. */
  method CalculateBaselineAndStd(prompts: seq<Prompt>, rewards: seq<real>, valid: seq<bool>, leaveOneOut: bool)
    returns (baseline: array<real>, std: array<Std>)
    requires |prompts| == |rewards| == |valid|
    ensures fresh(baseline) && fresh(std) && baseline.Length == std.Length == |prompts|
    ensures forall p :: p in prompts ==> GroupDone(baseline[..], std[..], prompts, rewards, valid, leaveOneOut, p)
  {
    baseline := new real[|prompts|](_ => 0.0);
    std := new Std[|prompts|](_ => Root(0.0));
    var unique := UniquePrompts(prompts);
    UniquePromptsMeans(prompts);
    for i := 0 to |unique|
      invariant forall k :: 0 <= k < i ==>
                              GroupDone(baseline[..], std[..], prompts, rewards, valid, leaveOneOut, unique[k])
      invariant UntouchedExcept(std[..], prompts, unique[..i])
    {
      var group := GroupOf(prompts, unique[i]);
      IndicesAscend(prompts, p => p == unique[i]);
      ghost var b, s := baseline[..], std[..];
      WriteGroup(baseline, std, group, rewards, valid, leaveOneOut);
      forall k | 0 <= k < i
        ensures GroupDone(baseline[..], std[..], prompts, rewards, valid, leaveOneOut, unique[k])
      {
        GroupsKept(b, s, baseline[..], std[..], prompts, rewards, valid, leaveOneOut, unique[i], unique[k]);
      }
    }
  }

  // ---- Advantages cancel within a group ----

  /** The sum of reward minus baseline over the valid samples. */
  function AdvantageSum(rewards: seq<real>, valid: seq<bool>, baselines: seq<real>): real
    requires |rewards| == |valid| == |baselines|
  {
    if rewards == [] then 0.0
    else
      var n := |rewards| - 1;
      AdvantageSum(rewards[..n], valid[..n], baselines[..n]) + (if valid[n] then rewards[n] - baselines[n] else 0.0)
  }

  /** Leaving a sample out of the row sum subtracts it if it counts. */
  lemma {:induction false} RowSumSkips(values: seq<real>, valid: seq<bool>, k: int)
    requires |values| == |valid|
    ensures RowSum(values, valid, k)
         == RowSum(values, valid, -1) - (if 0 <= k < |values| && valid[k] then values[k] else 0.0)
  {
    if values != [] {
      RowSumSkips(values[..|values| - 1], valid[..|values| - 1], k);
    }
  }

  /** The advantages times the divisor. */
  lemma {:induction false} ScaledAdvantages(rewards: seq<real>, valid: seq<bool>, baselines: seq<real>, total: real,
                                            divisor: real, count: real)
    requires |rewards| == |valid| == |baselines|
    requires forall k :: 0 <= k < |rewards| && valid[k] ==>
                           Times(divisor, rewards[k] - baselines[k]) == Times(count, rewards[k]) - total
    ensures Times(divisor, AdvantageSum(rewards, valid, baselines))
         == Times(count, RowSum(rewards, valid, -1)) - Times(CountValid(valid) as real, total)
  {
    if rewards != [] {
      var n := |rewards| - 1;
      ScaledAdvantages(rewards[..n], valid[..n], baselines[..n], total, divisor, count);
      if valid[n] {
        TimesAdds(divisor, AdvantageSum(rewards[..n], valid[..n], baselines[..n]), rewards[n] - baselines[n]);
        TimesAdds(count, RowSum(rewards[..n], valid[..n], -1), rewards[n]);
        TimesNext(CountValid(valid[..n]), total);
      }
    }
  }

  lemma TimesAdds(x: real, y: real, z: real)
    ensures Times(x, y + z) == Times(x, y) + Times(x, z)
  {
  }

  lemma TimesNext(n: nat, x: real)
    ensures Times((n + 1) as real, x) == Times(n as real, x) + x
  {
  }

  lemma {:induction false} NoAdvantages(rewards: seq<real>, valid: seq<bool>)
    requires |rewards| == |valid|
    ensures AdvantageSum(rewards, valid, rewards) == 0.0
  {
    if rewards != [] {
      NoAdvantages(rewards[..|rewards| - 1], valid[..|rewards| - 1]);
    }
  }

  lemma DivisorCancels(s: real, divisor: real)
    requires divisor != 0.0
    ensures Times(divisor, s / divisor) == s
  {
  }

  lemma BaselineTimesDivisor(rewards: seq<real>, valid: seq<bool>, leaveOneOut: bool, k: nat)
    requires k < |rewards| == |valid| && CountValid(valid) > 1
    ensures Times(NumValid(valid, leaveOneOut) as real, BaselineAt(rewards, valid, leaveOneOut, k))
         == RowSum(rewards, valid, Skipped(k, leaveOneOut))
  {
    DivisorCancels(RowSum(rewards, valid, Skipped(k, leaveOneOut)), NumValid(valid, leaveOneOut) as real);
  }

  lemma AdvantageAlgebra(divisor: real, reward: real, baseline: real, sum: real, count: real, total: real, own: real)
    requires Times(divisor, baseline) == sum && sum == total - Times(own, reward) && count == divisor + own
    ensures Times(divisor, reward - baseline) == Times(count, reward) - total
  {
  }

  /** A valid sample's advantage times the divisor. */
  lemma ScaledAdvantage(rewards: seq<real>, valid: seq<bool>, leaveOneOut: bool, k: nat)
    requires k < |rewards| == |valid| && CountValid(valid) > 1 && valid[k]
    ensures Times(NumValid(valid, leaveOneOut) as real, rewards[k] - BaselineAt(rewards, valid, leaveOneOut, k))
         == Times(CountValid(valid) as real, rewards[k]) - RowSum(rewards, valid, -1)
  {
    BaselineTimesDivisor(rewards, valid, leaveOneOut, k);
    RowSumSkips(rewards, valid, Skipped(k, leaveOneOut));
    AdvantageAlgebra(NumValid(valid, leaveOneOut) as real, rewards[k], BaselineAt(rewards, valid, leaveOneOut, k),
                     RowSum(rewards, valid, Skipped(k, leaveOneOut)), CountValid(valid) as real,
                     RowSum(rewards, valid, -1), if leaveOneOut then 1.0 else 0.0);
  }

  lemma ZeroProduct(divisor: real, a: real, n: real, total: real)
    requires divisor > 0.0 && Times(divisor, a) == Times(n, total) - Times(n, total)
    ensures a == 0.0
  {
    assert a > 0.0 ==> divisor * a > 0.0;
    assert a < 0.0 ==> divisor * -a > 0.0;
  }

  /** Within every group the advantages of the valid samples add up to zero. */
  lemma AdvantagesCancel(rewards: seq<real>, valid: seq<bool>, leaveOneOut: bool)
    requires |rewards| == |valid|
    ensures AdvantageSum(rewards, valid, Baselines(rewards, valid, leaveOneOut)) == 0.0
  {
    var baselines := Baselines(rewards, valid, leaveOneOut);
    if CountValid(valid) <= 1 {
      assert baselines == rewards;
      NoAdvantages(rewards, valid);
    } else {
      forall k | 0 <= k < |rewards| && valid[k]
        ensures Times(NumValid(valid, leaveOneOut) as real, rewards[k] - baselines[k])
          == Times(CountValid(valid) as real, rewards[k]) - RowSum(rewards, valid, -1)
      {
        ScaledAdvantage(rewards, valid, leaveOneOut, k);
      }
      CancelsWithDivisor(rewards, valid, baselines, NumValid(valid, leaveOneOut) as real);
    }
  }

  lemma CancelsWithDivisor(rewards: seq<real>, valid: seq<bool>, baselines: seq<real>, divisor: real)
    requires |rewards| == |valid| == |baselines| && divisor > 0.0
    requires forall k :: 0 <= k < |rewards| && valid[k] ==> (
      Times(divisor, rewards[k] - baselines[k]) == Times(CountValid(valid) as real, rewards[k]) - RowSum(rewards, valid, -1))
    ensures AdvantageSum(rewards, valid, baselines) == 0.0
  {
    ScaledAdvantages(rewards, valid, baselines, RowSum(rewards, valid, -1), divisor, CountValid(valid) as real);
    ZeroProduct(divisor, AdvantageSum(rewards, valid, baselines), CountValid(valid) as real, RowSum(rewards, valid, -1));
  }

  /** In the batch as written: a group's advantages cancel, and every sample lies in the group of its prompt. */
  lemma BatchAdvantagesCancel(baseline: seq<real>, std: seq<Std>, prompts: seq<Prompt>, rewards: seq<real>,
                              valid: seq<bool>, leaveOneOut: bool, q: nat)
    requires |baseline| == |std| == |prompts| == |rewards| == |valid| && q < |prompts|
    requires GroupDone(baseline, std, prompts, rewards, valid, leaveOneOut, prompts[q])
    ensures var group := GroupOf(prompts, prompts[q]);
      && q in group
      && AdvantageSum(Select(rewards, group), Select(valid, group), Select(baseline, group)) == 0.0
  {
    var group := GroupOf(prompts, prompts[q]);
    IndicesComplete(prompts, p => p == prompts[q], q);
    assert Select(baseline, group) == Baselines(Select(rewards, group), Select(valid, group), leaveOneOut);
    AdvantagesCancel(Select(rewards, group), Select(valid, group), leaveOneOut);
  }

  // ---- The spread is a sample variance ----

  /** The rewards a sample is compared with. */
  function Contributing(values: seq<real>, valid: seq<bool>, skip: int): seq<real>
    requires |values| == |valid|
  {
    if values == [] then []
    else
      var n := |values| - 1;
      Contributing(values[..n], valid[..n], skip) + (if n != skip && valid[n] then [values[n]] else [])
  }

  lemma {:induction false} ContributingSum(values: seq<real>, valid: seq<bool>, skip: int)
    requires |values| == |valid|
    ensures RowSum(values, valid, skip) == SumReals(Contributing(values, valid, skip))
    ensures |Contributing(values, valid, skip)|
         == CountValid(valid) - (if 0 <= skip < |values| && valid[skip] then 1 else 0)
  {
    if values != [] {
      var n := |values| - 1;
      ContributingSum(values[..n], valid[..n], skip);
      var before := Contributing(values[..n], valid[..n], skip);
      assert before + [] == before && (before + [values[n]])[..|before|] == before;
    }
  }

  lemma {:induction false} ContributingSquares(values: seq<real>, valid: seq<bool>, skip: int)
    requires |values| == |valid|
    ensures Contributing(Squares(values), valid, skip) == Squares(Contributing(values, valid, skip))
  {
    if values != [] {
      var n := |values| - 1;
      ContributingSquares(values[..n], valid[..n], skip);
      assert Squares(values)[..n] == Squares(values[..n]);
    }
  }

  function Mean(xs: seq<real>): real
    requires xs != []
  {
    Ratio(SumReals(xs), |xs|)
  }

  function Deviations(xs: seq<real>, m: real): seq<real> {
    seq(|xs|, k requires 0 <= k < |xs| => Square(xs[k] - m))
  }

  /** The unbiased sample variance. */
  function SampleVariance(xs: seq<real>): real
    requires 2 <= |xs|
  {
    Ratio(SumReals(Deviations(xs, Mean(xs))), |xs| - 1)
  }

  lemma PositiveProduct(x: real, y: real)
    requires x > 0.0 && y > 0.0
    ensures Times(x, y) > 0.0
  {
  }

  lemma SquareVanishesIff(d: real)
    ensures 0.0 <= Square(d)
    ensures Square(d) == 0.0 <==> d == 0.0
  {
    if d > 0.0 {
      PositiveProduct(d, d);
    } else if d < 0.0 {
      PositiveProduct(-d, -d);
      assert Times(-d, -d) == Times(d, d);
    }
  }

  lemma SquareOfDifference(x: real, m: real)
    ensures Square(x - m) == Square(x) - 2.0 * Times(m, x) + Square(m)
  {
  }

  lemma {:induction false} DeviationSum(xs: seq<real>, m: real)
    ensures SumReals(Deviations(xs, m))
         == SumReals(Squares(xs)) - 2.0 * Times(m, SumReals(xs)) + Times(|xs| as real, Square(m))
  {
    if xs != [] {
      var n := |xs| - 1;
      DeviationSum(xs[..n], m);
      assert Squares(xs)[..n] == Squares(xs[..n]);
      assert Deviations(xs, m)[..n] == Deviations(xs[..n], m);
      SquareOfDifference(xs[n], m);
      TimesAdds(m, SumReals(xs[..n]), xs[n]);
      TimesNext(n, Square(m));
    }
  }

  lemma {:induction false} DeviationsVanish(xs: seq<real>, m: real)
    ensures 0.0 <= SumReals(Deviations(xs, m))
    ensures SumReals(Deviations(xs, m)) == 0.0 <==> forall k :: 0 <= k < |xs| ==> xs[k] == m
  {
    if xs != [] {
      var n := |xs| - 1;
      DeviationsVanish(xs[..n], m);
      assert Deviations(xs, m)[..n] == Deviations(xs[..n], m);
      SquareVanishesIff(xs[n] - m);
      assert forall k :: 0 <= k < n ==> xs[..n][k] == xs[k];
    }
  }

  ghost predicate AllEqual(xs: seq<real>) { forall j, k :: 0 <= j < |xs| && 0 <= k < |xs| ==> xs[j] == xs[k] }

  lemma {:induction false} EqualSum(xs: seq<real>, x: real)
    requires forall k :: 0 <= k < |xs| ==> xs[k] == x
    ensures SumReals(xs) == |xs| as real * x
  {
    if xs != [] {
      EqualSum(xs[..|xs| - 1], x);
    }
  }

  lemma VarianceVanishesIff(xs: seq<real>)
    requires 2 <= |xs|
    ensures 0.0 <= SampleVariance(xs)
    ensures SampleVariance(xs) == 0.0 <==> AllEqual(xs)
  {
    DeviationsVanish(xs, Mean(xs));
    if AllEqual(xs) {
      EqualSum(xs, xs[0]);
    }
  }

  /** Mean of squares minus square of mean, with Bessel's correction, is the sample variance. */
  lemma CorrectedIsVariance(xs: seq<real>)
    requires 2 <= |xs|
    ensures CorrectedStd(Mean(Squares(xs)) - Square(Mean(xs)), |xs|) == Root(SampleVariance(xs))
  {
    DeviationSum(xs, Mean(xs));
    VarianceVanishesIff(xs);
    VarianceAlgebra(|xs|, Mean(xs), SumReals(Squares(xs)), SumReals(xs), SumReals(Deviations(xs, Mean(xs))));
  }

  lemma VarianceAlgebra(n: int, m: real, q: real, s: real, d: real)
    requires n >= 2 && m == Ratio(s, n) && d == q - 2.0 * Times(m, s) + Times(n as real, Square(m))
    ensures BesselCorrected(Ratio(q, n) - Square(m), n) == Ratio(d, n - 1)
  {
    BesselAlgebra(n as real, m, q, s, d);
    assert n as real - 1.0 == (n - 1) as real;
  }

  lemma BesselAlgebra(n: real, m: real, q: real, s: real, d: real)
    requires n >= 2.0 && m == s / n && d == q - 2.0 * Times(m, s) + Times(n, Square(m))
    ensures (q / n - Square(m)) * (n / (n - 1.0)) == d / (n - 1.0)
  {
    var square := Square(m);
    assert s == n * m;
    assert m * s == n * square;
    var x := q / n - square;
    assert x * n == d by {
      assert q / n * n == q;
    }
    var f := n / (n - 1.0);
    assert (n - 1.0) * f == n;
    assert (n - 1.0) * (x * f) == x * n;
    QuotientUnique(x * f, d, n - 1.0);
  }

  lemma QuotientUnique(x: real, d: real, n: real)
    requires n > 0.0 && n * x == d
    ensures x == d / n
  {
  }

  /** The two row sums over the comparison set. */
  lemma RowSums(rewards: seq<real>, valid: seq<bool>, leaveOneOut: bool, k: nat)
    requires k < |rewards| == |valid|
    ensures var skip := Skipped(k, leaveOneOut); var xs := Contributing(rewards, valid, skip);
      && |xs| == CountValid(valid) - (if leaveOneOut && valid[k] then 1 else 0)
      && RowSum(rewards, valid, skip) == SumReals(xs)
      && RowSum(Squares(rewards), valid, skip) == SumReals(Squares(xs))
  {
    var skip := Skipped(k, leaveOneOut);
    ContributingSum(rewards, valid, skip);
    ContributingSum(Squares(rewards), valid, skip);
    ContributingSquares(rewards, valid, skip);
  }

  lemma SingleSpread(x: real)
    ensures CorrectedStd(Mean(Squares([x])) - Square(Mean([x])), 1) == Root(0.0) && Mean([x]) == x
  {
    assert [x][..0] == [] && Squares([x]) == [Square(x)] && [Square(x)][..0] == [];
    assert SumReals([x]) == x && SumReals([Square(x)]) == Square(x);
  }

  /**
   * What the two results are: mean and sample variance of the comparison set. An invalid sample under leave-one-out
   * has nothing to leave out, yet its divisor is one less than the number of rewards it is compared with.
   */
  lemma StatisticsMean(rewards: seq<real>, valid: seq<bool>, leaveOneOut: bool, k: nat)
    requires k < |rewards| == |valid| && CountValid(valid) > 1
    ensures var xs := Contributing(rewards, valid, Skipped(k, leaveOneOut));
      var m := if leaveOneOut && !valid[k] then |xs| - 1 else |xs|;
      && 1 <= m
      && BaselineAt(rewards, valid, leaveOneOut, k) == Ratio(SumReals(xs), m)
      && (m == |xs| ==> StdAt(rewards, valid, leaveOneOut, k) == if m == 1 then Root(0.0) else Root(SampleVariance(xs)))
      && (m < |xs| ==> (BaselineAt(rewards, valid, leaveOneOut, k) == Mean(xs) <==> SumReals(xs) == 0.0))
  {
    RowSums(rewards, valid, leaveOneOut, k);
    var xs := Contributing(rewards, valid, Skipped(k, leaveOneOut));
    if leaveOneOut && !valid[k] {
      RatiosAgreeIff(SumReals(xs), |xs|);
    } else {
      assert StdAt(rewards, valid, leaveOneOut, k) == CorrectedStd(Mean(Squares(xs)) - Square(Mean(xs)), |xs|);
      if |xs| == 1 {
        assert xs == [xs[0]];
        SingleSpread(xs[0]);
      } else {
        CorrectedIsVariance(xs);
      }
    }
  }

  /** Dividing by one less makes a difference unless the sum is zero. */
  lemma RatiosAgreeIff(s: real, n: int)
    requires 2 <= n
    ensures Ratio(s, n - 1) == Ratio(s, n) <==> s == 0.0
  {
    if Ratio(s, n - 1) == Ratio(s, n) {
      var r := Ratio(s, n);
      assert n as real * r == s && (n - 1) as real * r == s;
    }
  }

  /** With divisor `m` the difference of the means is not positive exactly when `m` times the squares is at most the square. */
  lemma DifferenceSign(q: real, s: real, m: int)
    requires 1 <= m
    ensures Ratio(q, m) - Square(Ratio(s, m)) <= 0.0 <==> Times(m as real, q) <= Square(s)
  {
    var x, y, n := Ratio(q, m), Ratio(s, m), m as real;
    assert n * x == q && n * y == s;
    assert Times(n, q) == n * (n * x);
    assert Square(s) == n * (n * Square(y));
    var d := x - Square(y);
    assert Times(n, q) - Square(s) == n * (n * d);
    if d > 0.0 {
      PositiveProduct(n, d);
      PositiveProduct(n, n * d);
    } else if d < 0.0 {
      PositiveProduct(n, -d);
      PositiveProduct(n, n * -d);
      assert n * (n * -d) == -(n * (n * d));
    }
  }

  lemma CorrectedVanishesIff(d: real, n: int)
    requires 1 <= n
    ensures CorrectedStd(d, n) == Root(0.0) <==> d <= 0.0
  {
    if 2 <= n {
      var f := n as real / (n - 1) as real;
      assert f * (n - 1) as real == n as real;
      if d > 0.0 {
        PositiveProduct(d, f);
      } else if d < 0.0 {
        PositiveProduct(-d, f);
        assert Times(-d, f) == -(d * f);
      }
    }
  }

  /**
   * A sample's spread is zero exactly when the rewards it is compared with are all equal. For an invalid sample under
   * leave-one-out the smaller divisor decides otherwise.
   */
  lemma SpreadVanishesIff(rewards: seq<real>, valid: seq<bool>, leaveOneOut: bool, k: nat)
    requires k < |rewards| == |valid|
    ensures var xs := Contributing(rewards, valid, Skipped(k, leaveOneOut));
      StdAt(rewards, valid, leaveOneOut, k) == Root(0.0)
      <==> if leaveOneOut && !valid[k] && |xs| > 1
           then Times((|xs| - 1) as real, SumReals(Squares(xs))) <= Square(SumReals(xs))
           else AllEqual(xs)
  {
    RowSums(rewards, valid, leaveOneOut, k);
    var xs := Contributing(rewards, valid, Skipped(k, leaveOneOut));
    if CountValid(valid) > 1 {
      if leaveOneOut && !valid[k] {
        var q, s, m := SumReals(Squares(xs)), SumReals(xs), |xs| - 1;
        DifferenceSign(q, s, m);
        CorrectedVanishesIff(Ratio(q, m) - Square(Ratio(s, m)), m);
      } else {
        StatisticsMean(rewards, valid, leaveOneOut, k);
        if |xs| > 1 {
          VarianceVanishesIff(xs);
        }
      }
    }
  }

  // ---- Whole groups and split groups ----

  /** Without leave-one-out the samples of a prompt share their standard deviation, whatever the mask. */
  lemma GroupSharesStd(baseline: seq<real>, std: seq<Std>, prompts: seq<Prompt>, rewards: seq<real>, valid: seq<bool>,
                       i: nat, j: nat)
    requires |baseline| == |std| == |prompts| == |rewards| == |valid| && i < |prompts| && j < |prompts|
    requires prompts[i] == prompts[j] && GroupDone(baseline, std, prompts, rewards, valid, false, prompts[i])
    ensures std[i] == std[j]
  {
    var group := GroupOf(prompts, prompts[i]);
    IndicesComplete(prompts, p => p == prompts[i], i);
    IndicesComplete(prompts, p => p == prompts[i], j);
    var a :| 0 <= a < |group| && group[a] == i;
    var b :| 0 <= b < |group| && group[b] == j;
    assert StdAt(Select(rewards, group), Select(valid, group), false, a)
        == StdAt(Select(rewards, group), Select(valid, group), false, b);
  }

  /** The mask of a group whose samples all count. */
  function AllValid(n: nat): seq<bool> { seq(n, _ => true) }

  lemma {:induction false} ContributingAll(values: seq<real>, valid: seq<bool>, skip: int)
    requires |values| == |valid| && forall i :: 0 <= i < |valid| ==> valid[i]
    requires !(0 <= skip < |values|)
    ensures Contributing(values, valid, skip) == values
  {
    if values != [] {
      var n := |values| - 1;
      ContributingAll(values[..n], valid[..n], skip);
      assert values == values[..n] + [values[n]];
    }
  }

  lemma {:induction false} ContributingWithout(values: seq<real>, valid: seq<bool>, k: nat)
    requires k < |values| == |valid| && forall i :: 0 <= i < |valid| ==> valid[i]
    ensures Contributing(values, valid, k) == RemoveAt(values, k)
  {
    var n := |values| - 1;
    assert Contributing(values, valid, k) == Contributing(values[..n], valid[..n], k) + if n != k then [values[n]] else [];
    if k < n {
      ContributingWithout(values[..n], valid[..n], k);
      RemoveAtSnoc(values, k);
    } else {
      ContributingAll(values[..n], valid[..n], k);
      assert RemoveAt(values, k) == values[..n];
    }
  }

  lemma RemoveAtSnoc<T>(s: seq<T>, k: nat)
    requires k < |s| - 1
    ensures RemoveAt(s, k) == RemoveAt(s[..|s| - 1], k) + [s[|s| - 1]]
  {
  }

  /** All rewards other than the one at `k` agree. */
  ghost predicate OthersEqual(rewards: seq<real>, k: nat) {
    forall i, j :: 0 <= i < |rewards| && 0 <= j < |rewards| && i != k && j != k ==> rewards[i] == rewards[j]
  }

  /** The reward at `k` is the only one that differs: all others agree and are not equal to it. */
  ghost predicate OddOneOut(rewards: seq<real>, k: nat) {
    && k < |rewards| && OthersEqual(rewards, k)
    && forall j :: 0 <= j < |rewards| && j != k ==> rewards[j] != rewards[k]
  }

  lemma WithoutAllEqualIff(rewards: seq<real>, k: nat)
    requires k < |rewards|
    ensures AllEqual(RemoveAt(rewards, k)) <==> OthersEqual(rewards, k)
  {
    var rest := RemoveAt(rewards, k);
    assert forall i :: 0 <= i < k ==> rest[i] == rewards[i];
    assert forall i :: k < i < |rewards| ==> rest[i - 1] == rewards[i];
    if OthersEqual(rewards, k) {
      forall i, j | 0 <= i < |rest| && 0 <= j < |rest| ensures rest[i] == rest[j] {
        assert rest[i] == rewards[if i < k then i else i + 1] && rest[j] == rewards[if j < k then j else j + 1];
      }
    }
  }

  lemma SpreadWithoutIff(rewards: seq<real>, k: nat)
    requires k < |rewards|
    ensures StdAt(rewards, AllValid(|rewards|), true, k) == Root(0.0) <==> OthersEqual(rewards, k)
  {
    SpreadVanishesIff(rewards, AllValid(|rewards|), true, k);
    ContributingWithout(rewards, AllValid(|rewards|), k);
    WithoutAllEqualIff(rewards, k);
  }

  ghost predicate SomeWithSpread(rewards: seq<real>, leaveOneOut: bool) {
    exists k :: 0 <= k < |rewards| && StdAt(rewards, AllValid(|rewards|), leaveOneOut, k) != Root(0.0)
  }

  ghost predicate SomeWithoutSpread(rewards: seq<real>, leaveOneOut: bool) {
    exists k :: 0 <= k < |rewards| && StdAt(rewards, AllValid(|rewards|), leaveOneOut, k) == Root(0.0)
  }

  /** The odd one out of at least three is the one sample without spread. */
  lemma OddOneHasNoSpread(rewards: seq<real>, k: nat)
    requires 3 <= |rewards| && OddOneOut(rewards, k)
    ensures forall j :: 0 <= j < |rewards| ==> (StdAt(rewards, AllValid(|rewards|), true, j) == Root(0.0) <==> j == k)
  {
    forall j | 0 <= j < |rewards| ensures StdAt(rewards, AllValid(|rewards|), true, j) == Root(0.0) <==> j == k {
      SpreadWithoutIff(rewards, j);
      if j != k {
        var third := if j != 0 && k != 0 then 0 else if j != 1 && k != 1 then 1 else 2;
        assert rewards[third] != rewards[k];
      }
    }
  }

  /**
   * A group has samples with and samples without spread exactly when leave-one-out is on, it has at least three
   * samples, and one of them is the odd one out.
   */
  lemma GroupSplitsIff(rewards: seq<real>, leaveOneOut: bool)
    ensures SomeWithSpread(rewards, leaveOneOut) && SomeWithoutSpread(rewards, leaveOneOut)
       <==> leaveOneOut && 3 <= |rewards| && exists k :: OddOneOut(rewards, k)
  {
    if leaveOneOut {
      if SomeWithSpread(rewards, true) && SomeWithoutSpread(rewards, true) {
        var k :| 0 <= k < |rewards| && StdAt(rewards, AllValid(|rewards|), true, k) == Root(0.0);
        var j :| 0 <= j < |rewards| && StdAt(rewards, AllValid(|rewards|), true, j) != Root(0.0);
        SpreadWithoutIff(rewards, k);
        SpreadWithoutIff(rewards, j);
        assert OddOneOut(rewards, k);
      }
      if 3 <= |rewards| && exists k :: OddOneOut(rewards, k) {
        var k :| OddOneOut(rewards, k);
        OddOneHasNoSpread(rewards, k);
        assert StdAt(rewards, AllValid(|rewards|), true, k) == Root(0.0);
        var j := if k == 0 then 1 else 0;
        assert StdAt(rewards, AllValid(|rewards|), true, j) != Root(0.0);
      }
    } else {
      assert forall j, k :: 0 <= j < |rewards| && 0 <= k < |rewards| ==>
        StdAt(rewards, AllValid(|rewards|), false, j) == StdAt(rewards, AllValid(|rewards|), false, k);
    }
  }
}
