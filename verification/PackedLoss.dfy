/**
 * The loss over packed sequences: the wrapped loss is called once per sequence and its results are accumulated. With
 * global normalisers this equals one call on the unpacked batch, at token and at sequence level, and the accumulated
 * minima and maxima are those over all valid tokens. What the wrapped loss computes for a token is a parameter, which may
 * use a summary of the token's whole sequence, as the ratios of whole sequences do. The logits may be cut across
 * context-parallel ranks.
 */
module PackedLoss {
  import opened Seqs
  import opened Lists
  import ContextParallel
  import PackedLogprobs

  /** Floats as far as the metrics use them: a minimum over nothing is `inf`, a maximum `-inf`. */
  datatype Number = NegInf | Fin(value: real) | PosInf

  predicate IsInf(x: Number) { !x.Fin? }

  function LessEq(a: Number, b: Number): bool {
    a == NegInf || b == PosInf || (a.Fin? && b.Fin? && a.value <= b.value)
  }

  function MinOf(a: Number, b: Number): Number { if LessEq(a, b) then a else b }

  function MaxNumber(a: Number, b: Number): Number { if LessEq(b, a) then a else b }

  /** What the wrapped loss computes for one token: its loss, penalty included, and what its metrics average. */
  datatype TokenValues = TokenValues(loss: real, kl: real, ratio: real, clampedRatio: real, multProbError: real, genKl: real,
                                     policyKl: real, jsDivergence: real, entropy: real, importance: real)

  /** `ratios`: the importance ratios are those of whole sequences, which only a loss at sequence level allows. */
  datatype Level = TokenLevel | SequenceLevel(ratios: bool)

  /** A batch of unpacked rows with their masks. */
  datatype Batch<D> = Batch(tokens: seq<seq<D>>, tokenMask: seq<seq<real>>, sampleMask: seq<real>)

  /** The metrics that are means over valid tokens at either level. */
  datatype Means = Means(ratio: real, clampedRatio: real, multProbError: real, genKl: real, policyKl: real,
                         jsDivergence: real, entropy: real)

  datatype Metrics = Metrics(loss: real, kl: real, means: Means, ratioMin: Number, ratioMax: Number, clampedMin: Number,
                             clampedMax: Number, importance: real, numValidSamples: real, numValidTokens: real)

  const EPSILON: real := 0.00000001

  // ---- Reductions over one row ----

  /** `sum(values * mask)`. */
  function MaskedSum(values: seq<real>, mask: seq<real>): real
    requires |values| == |mask|
  {
    if values == [] then 0.0
    else
      var n := |values| - 1;
      MaskedSum(values[..n], mask[..n]) + Times(values[n], mask[n])
  }

  /** The minimum of the values whose mask is not zero. */
  function MaskedMin(values: seq<real>, mask: seq<real>): Number
    requires |values| == |mask|
  {
    if values == [] then PosInf
    else
      var n := |values| - 1;
      var rest := MaskedMin(values[..n], mask[..n]);
      if mask[n] != 0.0 then MinOf(rest, Fin(values[n])) else rest
  }

  function MaskedMax(values: seq<real>, mask: seq<real>): Number
    requires |values| == |mask|
  {
    if values == [] then NegInf
    else
      var n := |values| - 1;
      var rest := MaskedMax(values[..n], mask[..n]);
      if mask[n] != 0.0 then MaxNumber(rest, Fin(values[n])) else rest
  }

  /** `masked_mean`: without a normaliser the mask's own sum is used. */
  function MaskedMean(values: seq<real>, mask: seq<real>, normaliser: Option<real>): real
    requires |values| == |mask|
  {
    var n := if normaliser.Some? then normaliser.value else SumReals(mask);
    Over(MaskedSum(values, mask), n)
  }

  /** Masks and counts are not negative, so the denominator is never zero where it is used. */
  function Over(sum: real, n: real): real {
    if n + EPSILON == 0.0 then 0.0 else sum / (n + EPSILON)
  }

  /** A hundred million times the count, and one. */
  function Scaled(n: real): real { 100000000.0 * n + 1.0 }

  /** What dividing by a count and a hundred-millionth gives. */
  lemma OverMeans(sum: real, n: real)
    requires n >= 0.0
    ensures Times(Over(sum, n), Scaled(n)) == 100000000.0 * sum
  {
    var x := Over(sum, n);
    assert x * (n + EPSILON) == sum;
    assert x * (100000000.0 * n + 1.0) == 100000000.0 * (x * (n + EPSILON));
  }

  /** The values that the mask lets through. */
  function Valid<T>(values: seq<T>, mask: seq<real>): seq<T>
    requires |values| == |mask|
  {
    if values == [] then []
    else
      var n := |values| - 1;
      Valid(values[..n], mask[..n]) + if mask[n] != 0.0 then [values[n]] else []
  }

  /** Under a mask of zeros and ones a masked sum is the sum of the valid values, and the mask's sum their number. */
  lemma {:induction false} MaskedSumMeans(values: seq<real>, mask: seq<real>)
    requires |values| == |mask| && forall j :: 0 <= j < |mask| ==> mask[j] == 0.0 || mask[j] == 1.0
    ensures MaskedSum(values, mask) == SumReals(Valid(values, mask))
    ensures SumReals(mask) == |Valid(values, mask)| as real
  {
    if values != [] {
      var n := |values| - 1;
      MaskedSumMeans(values[..n], mask[..n]);
      var before := Valid(values[..n], mask[..n]);
      assert (before + [values[n]])[..|before|] == before && before + [] == before;
      assert Times(values[n], 0.0) == 0.0 && Times(values[n], 1.0) == values[n];
    }
  }

  /** So a masked mean is the valid values' mean, up to a hundred-millionth in the count. */
  lemma MaskedMeanMeans(values: seq<real>, mask: seq<real>)
    requires |values| == |mask| && forall j :: 0 <= j < |mask| ==> mask[j] == 0.0 || mask[j] == 1.0
    ensures var valid := Valid(values, mask);
      Times(MaskedMean(values, mask, None), Scaled(|valid| as real)) == 100000000.0 * SumReals(valid)
  {
    var valid := Valid(values, mask);
    assert MaskedMean(values, mask, None) == Over(SumReals(valid), |valid| as real) by {
      MaskedSumMeans(values, mask);
    }
    OverMeans(SumReals(valid), |valid| as real);
  }

  /** A masked minimum is the least valid value, or infinite when there is none. */
  lemma {:induction false} MaskedMinMeans(values: seq<real>, mask: seq<real>)
    requires |values| == |mask|
    ensures MaskedMin(values, mask) != NegInf
    ensures MaskedMin(values, mask) == PosInf <==> forall j :: 0 <= j < |mask| ==> mask[j] == 0.0
    ensures MaskedMin(values, mask).Fin? ==> IsValidValue(values, mask, MaskedMin(values, mask).value)
    ensures forall j :: 0 <= j < |mask| && mask[j] != 0.0 ==> LessEq(MaskedMin(values, mask), Fin(values[j]))
  {
    if values != [] {
      MaskedMinMeans(values[..|values| - 1], mask[..|values| - 1]);
    }
  }

  ghost predicate IsValidValue(values: seq<real>, mask: seq<real>, x: real)
    requires |values| == |mask|
  {
    exists j :: 0 <= j < |mask| && mask[j] != 0.0 && values[j] == x
  }

  lemma {:induction false} MaskedMaxMeans(values: seq<real>, mask: seq<real>)
    requires |values| == |mask|
    ensures MaskedMax(values, mask) != PosInf
    ensures MaskedMax(values, mask) == NegInf <==> forall j :: 0 <= j < |mask| ==> mask[j] == 0.0
    ensures MaskedMax(values, mask).Fin? ==> IsValidValue(values, mask, MaskedMax(values, mask).value)
    ensures forall j :: 0 <= j < |mask| && mask[j] != 0.0 ==> LessEq(Fin(values[j]), MaskedMax(values, mask))
  {
    if values != [] {
      MaskedMaxMeans(values[..|values| - 1], mask[..|values| - 1]);
    }
  }

  // ---- Masks that vanish make what they cover irrelevant ----

  ghost predicate Vanishes(mask: seq<real>, n: nat) { forall j :: n <= j < |mask| ==> mask[j] == 0.0 }

  /** Two rows that agree where the mask may be non-zero; the shorter one stops there. */
  ghost predicate Agree(values: seq<real>, mask: seq<real>, short: seq<real>, shortMask: seq<real>) {
    && |values| == |mask| && |short| == |shortMask| <= |mask|
    && (forall j :: 0 <= j < |short| ==> short[j] == values[j] && shortMask[j] == mask[j])
    && Vanishes(mask, |short|)
  }

  lemma {:induction false} SameReductions(values: seq<real>, mask: seq<real>, short: seq<real>, shortMask: seq<real>)
    requires Agree(values, mask, short, shortMask)
    ensures MaskedSum(values, mask) == MaskedSum(short, shortMask) && SumReals(mask) == SumReals(shortMask)
    ensures MaskedMin(values, mask) == MaskedMin(short, shortMask) && MaskedMax(values, mask) == MaskedMax(short, shortMask)
  {
    var n := |values| - 1;
    if |short| == |values| {
      assert short == values && shortMask == mask;
    } else {
      SameReductions(values[..n], mask[..n], short, shortMask);
      assert Times(values[n], mask[n]) == 0.0;
    }
  }

  // ---- Reductions over a batch ----

  /** One sequence as the loss sees it: the values and mask of each next token, the sample's mask and importance weight. */
  datatype RowData = Row(values: seq<TokenValues>, tokenMask: seq<real>, sample: real, weight: real)

  type Row = r: RowData | |r.values| == |r.tokenMask| witness Row([], [], 0.0, 0.0)

  function Column(r: Row, pick: TokenValues -> real): seq<real> {
    seq(|r.values|, j requires 0 <= j < |r.values| => pick(r.values[j]))
  }

  /** Token mask times sample mask. */
  function FullMask(r: Row): seq<real> {
    seq(|r.tokenMask|, j requires 0 <= j < |r.tokenMask| => Times(r.tokenMask[j], r.sample))
  }

  function SumRows(rows: seq<Row>, pick: TokenValues -> real): real
  {
    if rows == [] then 0.0
    else
      var r := rows[|rows| - 1];
      SumRows(rows[..|rows| - 1], pick) + MaskedSum(Column(r, pick), FullMask(r))
  }

  function CountRows(rows: seq<Row>): real {
    if rows == [] then 0.0 else CountRows(rows[..|rows| - 1]) + SumReals(FullMask(rows[|rows| - 1]))
  }

  function MinRows(rows: seq<Row>, pick: TokenValues -> real): Number
  {
    if rows == [] then PosInf
    else
      var r := rows[|rows| - 1];
      MinOf(MinRows(rows[..|rows| - 1], pick), MaskedMin(Column(r, pick), FullMask(r)))
  }

  function MaxRows(rows: seq<Row>, pick: TokenValues -> real): Number
  {
    if rows == [] then NegInf
    else
      var r := rows[|rows| - 1];
      MaxNumber(MaxRows(rows[..|rows| - 1], pick), MaskedMax(Column(r, pick), FullMask(r)))
  }

  /** The rows' own means, weighted by the sample masks. */
  function SampleSum(rows: seq<Row>, pick: TokenValues -> real): real
  {
    if rows == [] then 0.0
    else
      var r := rows[|rows| - 1];
      SampleSum(rows[..|rows| - 1], pick) + Times(MaskedMean(Column(r, pick), r.tokenMask, None), r.sample)
  }

  function SampleCount(rows: seq<Row>): real {
    if rows == [] then 0.0 else SampleCount(rows[..|rows| - 1]) + rows[|rows| - 1].sample
  }

  function WeightSum(rows: seq<Row>): real {
    if rows == [] then 0.0 else WeightSum(rows[..|rows| - 1]) + rows[|rows| - 1].weight
  }

  function LossOf(v: TokenValues): real { v.loss }

  function KlOf(v: TokenValues): real { v.kl }

  function RatioOf(v: TokenValues): real { v.ratio }

  function ClampedOf(v: TokenValues): real { v.clampedRatio }

  function ErrorOf(v: TokenValues): real { v.multProbError }

  function GenKlOf(v: TokenValues): real { v.genKl }

  function PolicyKlOf(v: TokenValues): real { v.policyKl }

  function DivergenceOf(v: TokenValues): real { v.jsDivergence }

  function EntropyOf(v: TokenValues): real { v.entropy }

  function ImportanceOf(v: TokenValues): real { v.importance }

  function GetOr(normaliser: Option<real>, default: real): real {
    if normaliser.Some? then normaliser.value else default
  }

  /** A mean over all valid tokens. */
  function TokenMean(rows: seq<Row>, pick: TokenValues -> real, validToks: Option<real>): real {
    Over(SumRows(rows, pick), GetOr(validToks, CountRows(rows)))
  }

  /** A mean as the level has it: over tokens, or over the sequences' own means. */
  function LevelMean(rows: seq<Row>, pick: TokenValues -> real, level: Level, validSeqs: Option<real>,
                     validToks: Option<real>): real
  {
    match level
    case TokenLevel => TokenMean(rows, pick, validToks)
    case SequenceLevel(_) => Over(SampleSum(rows, pick), GetOr(validSeqs, SampleCount(rows)))
  }

  /** The wrapped loss on a batch. */
  function LossOn(rows: seq<Row>, level: Level, validSeqs: Option<real>, validToks: Option<real>): real {
    LevelMean(rows, LossOf, level, validSeqs, validToks)
  }

  function MeansOn(rows: seq<Row>, validToks: Option<real>): Means {
    Means(TokenMean(rows, RatioOf, validToks), TokenMean(rows, ClampedOf, validToks), TokenMean(rows, ErrorOf, validToks),
          TokenMean(rows, GenKlOf, validToks), TokenMean(rows, PolicyKlOf, validToks),
          TokenMean(rows, DivergenceOf, validToks), TokenMean(rows, EntropyOf, validToks))
  }

  /**
   * `sampling_importance_ratio`. With ratios of whole sequences the weights are a column and the sample mask a row, so
   * that their product is a square: every weight is multiplied with every sample's mask.
   */
  function ImportanceOn(rows: seq<Row>, level: Level, validSeqs: Option<real>, validToks: Option<real>): real {
    if level == SequenceLevel(true) then Over(Times(WeightSum(rows), SampleCount(rows)), GetOr(validSeqs, SampleCount(rows)))
    else TokenMean(rows, ImportanceOf, validToks)
  }

  /** The metrics that the wrapped loss returns beside it. */
  function MetricsOn(rows: seq<Row>, level: Level, validSeqs: Option<real>, validToks: Option<real>): Metrics
  {
    Metrics(LossOn(rows, level, validSeqs, validToks), LevelMean(rows, KlOf, level, validSeqs, validToks),
            MeansOn(rows, validToks),
            MinRows(rows, RatioOf), MaxRows(rows, RatioOf), MinRows(rows, ClampedOf), MaxRows(rows, ClampedOf),
            ImportanceOn(rows, level, validSeqs, validToks), SampleCount(rows), CountRows(rows))
  }

  // ---- What the wrapped loss and its metrics mean ----

  /** Masks of zeros and ones. */
  ghost predicate IsBinary(mask: seq<real>) { forall j :: 0 <= j < |mask| ==> mask[j] == 0.0 || mask[j] == 1.0 }

  ghost predicate AreBinary(rows: seq<Row>) {
    forall i :: 0 <= i < |rows| ==> IsBinary([rows[i].sample]) && IsBinary(rows[i].tokenMask)
  }

  /** The valid tokens of the valid samples. */
  function ValidTokens(rows: seq<Row>): seq<TokenValues> {
    if rows == [] then []
    else
      var r := rows[|rows| - 1];
      ValidTokens(rows[..|rows| - 1]) + if r.sample == 0.0 then [] else Valid(r.values, r.tokenMask)
  }

  /** Tokens added up, value by value. */
  function Totals(tokens: seq<TokenValues>): TokenValues {
    if tokens == [] then TokenValues(0.0, 0.0, 0.0, 0.0, 0.0, 0.0, 0.0, 0.0, 0.0, 0.0)
    else
      var t, v := Totals(tokens[..|tokens| - 1]), tokens[|tokens| - 1];
      TokenValues(t.loss + v.loss, t.kl + v.kl, t.ratio + v.ratio, t.clampedRatio + v.clampedRatio,
                  t.multProbError + v.multProbError, t.genKl + v.genKl, t.policyKl + v.policyKl,
                  t.jsDivergence + v.jsDivergence, t.entropy + v.entropy, t.importance + v.importance)
  }

  function Mapped<T>(s: seq<T>, g: T -> real): (r: seq<real>)
    ensures |r| == |s|
  {
    seq(|s|, j requires 0 <= j < |s| => g(s[j]))
  }

  /** `x` is the mean of `n` values that add up to `total`, up to a hundred-millionth in the count. */
  ghost predicate IsMean(x: real, total: real, n: real) { Times(x, Scaled(n)) == 100000000.0 * total }

  /** `m` is the least of the values, or infinite when there are none. */
  ghost predicate IsLeast(m: Number, values: seq<real>) {
    && (values == [] ==> m == PosInf)
    && (values != [] ==> m.Fin? && m.value in values && forall x :: x in values ==> m.value <= x)
  }

  ghost predicate IsGreatest(m: Number, values: seq<real>) {
    && (values == [] ==> m == NegInf)
    && (values != [] ==> m.Fin? && m.value in values && forall x :: x in values ==> x <= m.value)
  }

  lemma MappedJoins<T>(a: seq<T>, b: seq<T>, pick: T -> real)
    ensures Mapped(a + b, pick) == Mapped(a, pick) + Mapped(b, pick)
  {
  }

  lemma {:induction false} ValidMapped<T>(values: seq<T>, mask: seq<real>, pick: T -> real)
    requires |values| == |mask|
    ensures Valid(Mapped(values, pick), mask) == Mapped(Valid(values, mask), pick)
  {
    if values != [] {
      var n := |values| - 1;
      ValidMapped(values[..n], mask[..n], pick);
      assert Mapped(values, pick)[..n] == Mapped(values[..n], pick);
      MappedJoins(Valid(values[..n], mask[..n]), if mask[n] != 0.0 then [values[n]] else [], pick);
    }
  }

  lemma {:induction false} NothingValid<T>(values: seq<T>, mask: seq<real>)
    requires |values| == |mask| && Vanishes(mask, 0)
    ensures Valid(values, mask) == []
  {
    if values != [] {
      NothingValid(values[..|values| - 1], mask[..|values| - 1]);
    }
  }

  /** What one row contributes. */
  lemma RowMeans(r: Row, pick: TokenValues -> real)
    requires IsBinary([r.sample]) && IsBinary(r.tokenMask)
    ensures IsBinary(FullMask(r))
    ensures Valid(Column(r, pick), FullMask(r)) == Mapped(ValidTokens([r]), pick)
  {
    assert [r][..0] == [] && r.sample == [r.sample][0];
    if r.sample == 0.0 {
      assert Vanishes(FullMask(r), 0);
      NothingValid(Column(r, pick), FullMask(r));
    } else {
      assert FullMask(r) == r.tokenMask;
      assert Column(r, pick) == Mapped(r.values, pick);
      ValidMapped(r.values, r.tokenMask, pick);
      assert [] + Valid(r.values, r.tokenMask) == Valid(r.values, r.tokenMask);
    }
  }

  lemma ValidNext(rows: seq<Row>)
    requires rows != []
    ensures ValidTokens(rows) == ValidTokens(rows[..|rows| - 1]) + ValidTokens([rows[|rows| - 1]])
  {
    var r := rows[|rows| - 1];
    assert [r][..0] == [];
    assert ValidTokens([r]) == if r.sample == 0.0 then [] else Valid(r.values, r.tokenMask);
  }

  /** A sum over the batch adds up its valid tokens, and the count is their number. */
  lemma {:induction false} SumRowsMeans(rows: seq<Row>, pick: TokenValues -> real)
    requires AreBinary(rows)
    ensures SumRows(rows, pick) == SumReals(Mapped(ValidTokens(rows), pick))
    ensures CountRows(rows) == |ValidTokens(rows)| as real
  {
    if rows != [] {
      var before, r := rows[..|rows| - 1], rows[|rows| - 1];
      SumRowsMeans(before, pick);
      RowSumMeans(r, pick);
      ValidNext(rows);
      MappedJoins(ValidTokens(before), ValidTokens([r]), pick);
      SumSplit(Mapped(ValidTokens(before), pick), Mapped(ValidTokens([r]), pick));
    }
  }

  lemma RowSumMeans(r: Row, pick: TokenValues -> real)
    requires IsBinary([r.sample]) && IsBinary(r.tokenMask)
    ensures MaskedSum(Column(r, pick), FullMask(r)) == SumReals(Mapped(ValidTokens([r]), pick))
    ensures SumReals(FullMask(r)) == |ValidTokens([r])| as real
  {
    RowMeans(r, pick);
    MaskedSumMeans(Column(r, pick), FullMask(r));
  }

  lemma LeastJoins(m: Number, a: seq<real>, n: Number, b: seq<real>)
    requires IsLeast(m, a) && IsLeast(n, b)
    ensures IsLeast(MinOf(m, n), a + b)
  {
  }

  lemma GreatestJoins(m: Number, a: seq<real>, n: Number, b: seq<real>)
    requires IsGreatest(m, a) && IsGreatest(n, b)
    ensures IsGreatest(MaxNumber(m, n), a + b)
  {
  }

  /** A masked minimum is the least valid value, or infinite when there is none, and a maximum the greatest. */
  lemma {:induction false} MaskedExtremesMean(values: seq<real>, mask: seq<real>)
    requires |values| == |mask|
    ensures IsLeast(MaskedMin(values, mask), Valid(values, mask))
    ensures IsGreatest(MaskedMax(values, mask), Valid(values, mask))
  {
    if values != [] {
      var n := |values| - 1;
      MaskedExtremesMean(values[..n], mask[..n]);
      var before, last := Valid(values[..n], mask[..n]), Fin(values[n]);
      assert before + [] == before;
      LeastJoins(MaskedMin(values[..n], mask[..n]), before, last, [values[n]]);
      GreatestJoins(MaskedMax(values[..n], mask[..n]), before, last, [values[n]]);
    }
  }

  /** The minimum over the batch is that of its valid tokens, and so is the maximum. */
  lemma {:induction false} ExtremesMean(rows: seq<Row>, pick: TokenValues -> real)
    requires AreBinary(rows)
    ensures IsLeast(MinRows(rows, pick), Mapped(ValidTokens(rows), pick))
    ensures IsGreatest(MaxRows(rows, pick), Mapped(ValidTokens(rows), pick))
  {
    if rows != [] {
      var before, r := rows[..|rows| - 1], rows[|rows| - 1];
      ExtremesMean(before, pick);
      RowMeans(r, pick);
      MaskedExtremesMean(Column(r, pick), FullMask(r));
      ValidNext(rows);
      MappedJoins(ValidTokens(before), ValidTokens([r]), pick);
      LeastJoins(MinRows(before, pick), Mapped(ValidTokens(before), pick), MaskedMin(Column(r, pick), FullMask(r)),
                 Mapped(ValidTokens([r]), pick));
      GreatestJoins(MaxRows(before, pick), Mapped(ValidTokens(before), pick), MaskedMax(Column(r, pick), FullMask(r)),
                    Mapped(ValidTokens([r]), pick));
    }
  }

  /** Picking a value and adding up is adding up tokens and picking that value. */
  lemma {:induction false} PickedTotals(tokens: seq<TokenValues>)
    ensures SumReals(Mapped(tokens, LossOf)) == Totals(tokens).loss && SumReals(Mapped(tokens, KlOf)) == Totals(tokens).kl
    ensures SumReals(Mapped(tokens, RatioOf)) == Totals(tokens).ratio
    ensures SumReals(Mapped(tokens, ClampedOf)) == Totals(tokens).clampedRatio
    ensures SumReals(Mapped(tokens, ErrorOf)) == Totals(tokens).multProbError
    ensures SumReals(Mapped(tokens, GenKlOf)) == Totals(tokens).genKl
    ensures SumReals(Mapped(tokens, PolicyKlOf)) == Totals(tokens).policyKl
    ensures SumReals(Mapped(tokens, DivergenceOf)) == Totals(tokens).jsDivergence
    ensures SumReals(Mapped(tokens, EntropyOf)) == Totals(tokens).entropy
    ensures SumReals(Mapped(tokens, ImportanceOf)) == Totals(tokens).importance
  {
    if tokens != [] {
      PickedTotals(tokens[..|tokens| - 1]);
      PickedNext(tokens, LossOf);
      PickedNext(tokens, KlOf);
      PickedNext(tokens, RatioOf);
      PickedNext(tokens, ClampedOf);
      PickedNext(tokens, ErrorOf);
      PickedNext(tokens, GenKlOf);
      PickedNext(tokens, PolicyKlOf);
      PickedNext(tokens, DivergenceOf);
      PickedNext(tokens, EntropyOf);
      PickedNext(tokens, ImportanceOf);
    }
  }

  lemma PickedNext(tokens: seq<TokenValues>, pick: TokenValues -> real)
    requires tokens != []
    ensures var n := |tokens| - 1; SumReals(Mapped(tokens, pick)) == SumReals(Mapped(tokens[..n], pick)) + pick(tokens[n])
  {
    assert Mapped(tokens, pick)[..|tokens| - 1] == Mapped(tokens[..|tokens| - 1], pick);
  }

  lemma TokenMeanMeans(rows: seq<Row>, pick: TokenValues -> real, validToks: Option<real>)
    requires AreBinary(rows) && (validToks.Some? ==> validToks.value >= 0.0)
    ensures IsMean(TokenMean(rows, pick, validToks), SumReals(Mapped(ValidTokens(rows), pick)),
                   if validToks.Some? then validToks.value else |ValidTokens(rows)| as real)
  {
    SumRowsMeans(rows, pick);
    OverMeans(SumRows(rows, pick), GetOr(validToks, CountRows(rows)));
  }

  ghost predicate AreMeans(m: Means, total: TokenValues, n: real) {
    && IsMean(m.ratio, total.ratio, n) && IsMean(m.clampedRatio, total.clampedRatio, n)
    && IsMean(m.multProbError, total.multProbError, n) && IsMean(m.genKl, total.genKl, n)
    && IsMean(m.policyKl, total.policyKl, n) && IsMean(m.jsDivergence, total.jsDivergence, n)
    && IsMean(m.entropy, total.entropy, n)
  }

  ghost predicate AreExtremes(m: Metrics, valid: seq<TokenValues>) {
    && IsLeast(m.ratioMin, Mapped(valid, (v: TokenValues) => v.ratio))
    && IsGreatest(m.ratioMax, Mapped(valid, (v: TokenValues) => v.ratio))
    && IsLeast(m.clampedMin, Mapped(valid, (v: TokenValues) => v.clampedRatio))
    && IsGreatest(m.clampedMax, Mapped(valid, (v: TokenValues) => v.clampedRatio))
  }

  lemma MeansMean(rows: seq<Row>, validToks: Option<real>)
    requires AreBinary(rows) && (validToks.Some? ==> validToks.value >= 0.0)
    ensures AreMeans(MeansOn(rows, validToks), Totals(ValidTokens(rows)),
                     if validToks.Some? then validToks.value else |ValidTokens(rows)| as real)
  {
    PickedTotals(ValidTokens(rows));
    TokenMeanMeans(rows, RatioOf, validToks);
    TokenMeanMeans(rows, ClampedOf, validToks);
    TokenMeanMeans(rows, ErrorOf, validToks);
    TokenMeanMeans(rows, GenKlOf, validToks);
    TokenMeanMeans(rows, PolicyKlOf, validToks);
    TokenMeanMeans(rows, DivergenceOf, validToks);
    TokenMeanMeans(rows, EntropyOf, validToks);
  }

  lemma MetricsExtremes(rows: seq<Row>, level: Level, validSeqs: Option<real>, validToks: Option<real>)
    requires AreBinary(rows)
    ensures AreExtremes(MetricsOn(rows, level, validSeqs, validToks), ValidTokens(rows))
  {
    var valid := ValidTokens(rows);
    ExtremesMean(rows, RatioOf);
    ExtremesMean(rows, ClampedOf);
    assert Mapped(valid, RatioOf) == Mapped(valid, (v: TokenValues) => v.ratio);
    assert Mapped(valid, ClampedOf) == Mapped(valid, (v: TokenValues) => v.clampedRatio);
  }

  /**
   * Every metric of the clipped loss at token level: over the valid tokens of the batch, the means of their values, the
   * least and the greatest ratios, and how many there are.
   */
  lemma MetricsMean(rows: seq<Row>, validSeqs: Option<real>, validToks: Option<real>)
    requires AreBinary(rows) && (validToks.Some? ==> validToks.value >= 0.0)
    ensures var valid, m := ValidTokens(rows), MetricsOn(rows, TokenLevel, validSeqs, validToks);
      var total, n := Totals(valid), if validToks.Some? then validToks.value else |valid| as real;
      && IsMean(m.loss, total.loss, n) && IsMean(m.kl, total.kl, n) && IsMean(m.importance, total.importance, n)
      && AreMeans(m.means, total, n) && AreExtremes(m, valid) && m.numValidTokens == |valid| as real
  {
    SumRowsMeans(rows, LossOf);
    PickedTotals(ValidTokens(rows));
    TokenMeanMeans(rows, LossOf, validToks);
    TokenMeanMeans(rows, KlOf, validToks);
    TokenMeanMeans(rows, ImportanceOf, validToks);
    MeansMean(rows, validToks);
    MetricsExtremes(rows, TokenLevel, validSeqs, validToks);
  }

  /** The samples that count. */
  function ValidRows(rows: seq<Row>): seq<Row> {
    if rows == [] then []
    else ValidRows(rows[..|rows| - 1]) + if rows[|rows| - 1].sample == 0.0 then [] else [rows[|rows| - 1]]
  }

  /** The mean over each row's own valid tokens. */
  function OwnMeans(rows: seq<Row>, pick: TokenValues -> real): seq<real> {
    seq(|rows|, i requires 0 <= i < |rows| =>
      var valid := Mapped(Valid(rows[i].values, rows[i].tokenMask), pick);
      Over(SumReals(valid), |valid| as real))
  }

  lemma OwnMean(r: Row, pick: TokenValues -> real)
    requires IsBinary(r.tokenMask)
    ensures [MaskedMean(Column(r, pick), r.tokenMask, None)] == OwnMeans([r], pick)
  {
    assert Column(r, pick) == Mapped(r.values, pick);
    ValidMapped(r.values, r.tokenMask, pick);
    MaskedSumMeans(Column(r, pick), r.tokenMask);
  }

  lemma OwnMeansJoin(a: seq<Row>, b: seq<Row>, pick: TokenValues -> real)
    ensures OwnMeans(a + b, pick) == OwnMeans(a, pick) + OwnMeans(b, pick)
  {
  }

  lemma OwnMeanNext(rows: seq<Row>, r: Row, pick: TokenValues -> real)
    requires IsBinary(r.tokenMask)
    ensures SumReals(OwnMeans(rows + [r], pick))
         == SumReals(OwnMeans(rows, pick)) + MaskedMean(Column(r, pick), r.tokenMask, None)
  {
    OwnMean(r, pick);
    OwnMeansJoin(rows, [r], pick);
    var mean := MaskedMean(Column(r, pick), r.tokenMask, None);
    assert (OwnMeans(rows, pick) + [mean])[..|rows|] == OwnMeans(rows, pick);
  }

  /** At sequence level the rows' own means are added up, and the count is that of the valid samples. */
  lemma {:induction false} SampleSumMeans(rows: seq<Row>, pick: TokenValues -> real)
    requires AreBinary(rows)
    ensures SampleSum(rows, pick) == SumReals(OwnMeans(ValidRows(rows), pick))
    ensures SampleCount(rows) == |ValidRows(rows)| as real
  {
    if rows != [] {
      var before, r := rows[..|rows| - 1], rows[|rows| - 1];
      SampleSumMeans(before, pick);
      OwnMeanNext(ValidRows(before), r, pick);
      assert ValidRows(before) + [] == ValidRows(before) && r.sample == [r.sample][0];
      var mean := MaskedMean(Column(r, pick), r.tokenMask, None);
      assert Times(mean, 0.0) == 0.0 && Times(mean, 1.0) == mean;
    }
  }

  function Weights(rows: seq<Row>): seq<real> { seq(|rows|, i requires 0 <= i < |rows| => rows[i].weight) }

  lemma {:induction false} WeightSumMeans(rows: seq<Row>)
    ensures WeightSum(rows) == SumReals(Weights(rows))
  {
    if rows != [] {
      WeightSumMeans(rows[..|rows| - 1]);
      assert Weights(rows)[..|rows| - 1] == Weights(rows[..|rows| - 1]);
    }
  }

  /**
   * The loss and the metrics that differ at sequence level: means over the valid samples of their own means, and with
   * ratios of whole sequences all importance weights, once for every valid sample.
   */
  lemma SequenceMetricsMean(rows: seq<Row>, ratios: bool, validSeqs: Option<real>, validToks: Option<real>)
    requires AreBinary(rows) && (validSeqs.Some? ==> validSeqs.value >= 0.0)
    ensures var valid, m := ValidRows(rows), MetricsOn(rows, SequenceLevel(ratios), validSeqs, validToks);
      var n := if validSeqs.Some? then validSeqs.value else |valid| as real;
      && IsMean(m.loss, SumReals(OwnMeans(valid, LossOf)), n) && IsMean(m.kl, SumReals(OwnMeans(valid, KlOf)), n)
      && (ratios ==> IsMean(m.importance, Times(SumReals(Weights(rows)), |valid| as real), n))
      && m.numValidSamples == |valid| as real
  {
    SampleSumMeans(rows, LossOf);
    SampleSumMeans(rows, KlOf);
    WeightSumMeans(rows);
    OverMeans(SampleSum(rows, LossOf), GetOr(validSeqs, SampleCount(rows)));
    OverMeans(SampleSum(rows, KlOf), GetOr(validSeqs, SampleCount(rows)));
    OverMeans(Times(WeightSum(rows), SampleCount(rows)), GetOr(validSeqs, SampleCount(rows)));
  }

  // ---- Accumulating over sequences ----

  /** `metrics_accum` before the first sequence. */
  const NO_METRICS: Metrics :=
    Metrics(0.0, 0.0, Means(0.0, 0.0, 0.0, 0.0, 0.0, 0.0, 0.0), PosInf, NegInf, PosInf, NegInf, 0.0, 0.0, 0.0)

  function AddMeans(a: Means, m: Means): Means {
    Means(a.ratio + m.ratio, a.clampedRatio + m.clampedRatio, a.multProbError + m.multProbError, a.genKl + m.genKl,
          a.policyKl + m.policyKl, a.jsDivergence + m.jsDivergence, a.entropy + m.entropy)
  }

  /** Minima and maxima are combined unless the sequence had no valid token; everything else is added. */
  function Accumulate(a: Metrics, m: Metrics): Metrics {
    Metrics(a.loss + m.loss, a.kl + m.kl, AddMeans(a.means, m.means),
            if IsInf(m.ratioMin) then a.ratioMin else MinOf(a.ratioMin, m.ratioMin),
            if IsInf(m.ratioMax) then a.ratioMax else MaxNumber(a.ratioMax, m.ratioMax),
            if IsInf(m.clampedMin) then a.clampedMin else MinOf(a.clampedMin, m.clampedMin),
            if IsInf(m.clampedMax) then a.clampedMax else MaxNumber(a.clampedMax, m.clampedMax),
            a.importance + m.importance, a.numValidSamples + m.numValidSamples, a.numValidTokens + m.numValidTokens)
  }

  /** One call of the wrapped loss. */
  datatype CallResult = CallResult(loss: real, metrics: Metrics)

  function CallOn(rows: seq<Row>, level: Level, validSeqs: Option<real>, validToks: Option<real>): CallResult {
    CallResult(LossOn(rows, level, validSeqs, validToks), MetricsOn(rows, level, validSeqs, validToks))
  }

  /** The wrapped loss on one sequence. */
  function LossFn(level: Level, validSeqs: Option<real>, validToks: Option<real>): Row -> CallResult {
    (r: Row) => CallOn([r], level, validSeqs, validToks)
  }

  /** The accumulators after the sequences `rows`, for any wrapped loss. */
  function Accumulated<P>(rows: seq<P>, lossFn: P -> CallResult): CallResult {
    if rows == [] then CallResult(0.0, NO_METRICS)
    else
      var n := |rows| - 1;
      Joined(Accumulated(rows[..n], lossFn), lossFn(rows[n]))
  }

  lemma OverAdds(a: real, b: real, n: real)
    ensures Over(a + b, n) == Over(a, n) + Over(b, n)
  {
  }

  /** The reductions of a single row. */
  lemma OneRow(r: Row, pick: TokenValues -> real)
    ensures SumRows([r], pick) == MaskedSum(Column(r, pick), FullMask(r))
    ensures SampleSum([r], pick) == Times(MaskedMean(Column(r, pick), r.tokenMask, None), r.sample)
    ensures SampleCount([r]) == r.sample && WeightSum([r]) == r.weight && CountRows([r]) == SumReals(FullMask(r))
    ensures MinRows([r], pick) == MaskedMin(Column(r, pick), FullMask(r))
    ensures MaxRows([r], pick) == MaskedMax(Column(r, pick), FullMask(r))
  {
    assert [r][..0] == [];
    MaskedMinMeans(Column(r, pick), FullMask(r));
    MaskedMaxMeans(Column(r, pick), FullMask(r));
  }

  /** Row `s` is row `r` cut where `r`'s token mask has vanished. */
  ghost predicate CutsRow(r: Row, s: Row) {
    && |s.values| <= |r.values| && s.sample == r.sample && s.weight == r.weight
    && s.values == r.values[..|s.values|] && s.tokenMask == r.tokenMask[..|s.values|]
    && Vanishes(r.tokenMask, |s.values|)
  }

  lemma CutRowReductions(r: Row, s: Row, pick: TokenValues -> real)
    requires CutsRow(r, s)
    ensures MaskedSum(Column(r, pick), FullMask(r)) == MaskedSum(Column(s, pick), FullMask(s))
    ensures MaskedMin(Column(r, pick), FullMask(r)) == MaskedMin(Column(s, pick), FullMask(s))
    ensures MaskedMax(Column(r, pick), FullMask(r)) == MaskedMax(Column(s, pick), FullMask(s))
    ensures MaskedMean(Column(r, pick), r.tokenMask, None) == MaskedMean(Column(s, pick), s.tokenMask, None)
    ensures SumReals(FullMask(r)) == SumReals(FullMask(s))
  {
    assert Agree(Column(r, pick), FullMask(r), Column(s, pick), FullMask(s));
    SameReductions(Column(r, pick), FullMask(r), Column(s, pick), FullMask(s));
    assert Agree(Column(r, pick), r.tokenMask, Column(s, pick), s.tokenMask);
    SameReductions(Column(r, pick), r.tokenMask, Column(s, pick), s.tokenMask);
  }

  ghost predicate CutsRows(rows: seq<Row>, shorts: seq<Row>) {
    |rows| == |shorts| && forall i :: 0 <= i < |rows| ==> CutsRow(rows[i], shorts[i])
  }

  /** Adding a row adds the reductions of its cut. */
  lemma NextRow(rows: seq<Row>, s: Row, pick: TokenValues -> real)
    requires rows != [] && CutsRow(rows[|rows| - 1], s)
    ensures SumRows(rows, pick) == SumRows(rows[..|rows| - 1], pick) + SumRows([s], pick)
    ensures MinRows(rows, pick) == MinOf(MinRows(rows[..|rows| - 1], pick), MinRows([s], pick))
    ensures MaxRows(rows, pick) == MaxNumber(MaxRows(rows[..|rows| - 1], pick), MaxRows([s], pick))
  {
    OneRow(s, pick);
    CutRowReductions(rows[|rows| - 1], s, pick);
  }

  lemma NextSample(rows: seq<Row>, s: Row, pick: TokenValues -> real)
    requires rows != [] && CutsRow(rows[|rows| - 1], s)
    ensures SampleSum(rows, pick) == SampleSum(rows[..|rows| - 1], pick) + SampleSum([s], pick)
    ensures SampleCount(rows) == SampleCount(rows[..|rows| - 1]) + SampleCount([s])
    ensures WeightSum(rows) == WeightSum(rows[..|rows| - 1]) + WeightSum([s])
    ensures CountRows(rows) == CountRows(rows[..|rows| - 1]) + CountRows([s])
  {
    OneRow(s, pick);
    CutRowReductions(rows[|rows| - 1], s, pick);
  }

  lemma OverZero(n: real)
    ensures Over(0.0, n) == 0.0
  {
  }

  /** The normaliser that the loss divides by at this level. */
  function LossNormaliser(level: Level, validSeqs: Option<real>, validToks: Option<real>): Option<real> {
    if level.TokenLevel? then validToks else validSeqs
  }

  lemma OverSplits(total: real, a: real, b: real, n: real)
    requires total == a + b
    ensures Over(total, n) == Over(a, n) + Over(b, n)
  {
    OverAdds(a, b, n);
  }

  lemma NextMean(rows: seq<Row>, s: Row, pick: TokenValues -> real, validToks: real)
    requires rows != [] && CutsRow(rows[|rows| - 1], s)
    ensures TokenMean(rows, pick, Some(validToks))
         == TokenMean(rows[..|rows| - 1], pick, Some(validToks)) + TokenMean([s], pick, Some(validToks))
  {
    NextRow(rows, s, pick);
    OverSplits(SumRows(rows, pick), SumRows(rows[..|rows| - 1], pick), SumRows([s], pick), validToks);
  }

  lemma NextLevelMean(rows: seq<Row>, s: Row, pick: TokenValues -> real, level: Level, validSeqs: Option<real>,
                      validToks: Option<real>)
    requires rows != [] && CutsRow(rows[|rows| - 1], s) && LossNormaliser(level, validSeqs, validToks).Some?
    ensures LevelMean(rows, pick, level, validSeqs, validToks)
         == LevelMean(rows[..|rows| - 1], pick, level, validSeqs, validToks)
            + LevelMean([s], pick, level, validSeqs, validToks)
  {
    if level.TokenLevel? {
      NextMean(rows, s, pick, validToks.value);
    } else {
      NextSample(rows, s, pick);
      OverSplits(SampleSum(rows, pick), SampleSum(rows[..|rows| - 1], pick), SampleSum([s], pick), validSeqs.value);
    }
  }

  /** Skipping an infinite value is the same as combining it: a minimum is never `-inf`, a maximum never `inf`. */
  lemma NextExtremes(rows: seq<Row>, s: Row, pick: TokenValues -> real)
    requires rows != [] && CutsRow(rows[|rows| - 1], s)
    ensures var before, one := MinRows(rows[..|rows| - 1], pick), MinRows([s], pick);
      MinRows(rows, pick) == if IsInf(one) then before else MinOf(before, one)
    ensures var before, one := MaxRows(rows[..|rows| - 1], pick), MaxRows([s], pick);
      MaxRows(rows, pick) == if IsInf(one) then before else MaxNumber(before, one)
  {
    NextRow(rows, s, pick);
    OneRow(s, pick);
    MaskedMinMeans(Column(s, pick), FullMask(s));
    MaskedMaxMeans(Column(s, pick), FullMask(s));
  }

  lemma NextMeans(rows: seq<Row>, s: Row, validToks: real)
    requires rows != [] && CutsRow(rows[|rows| - 1], s)
    ensures MeansOn(rows, Some(validToks))
         == AddMeans(MeansOn(rows[..|rows| - 1], Some(validToks)), MeansOn([s], Some(validToks)))
  {
    NextMean(rows, s, RatioOf, validToks);
    NextMean(rows, s, ClampedOf, validToks);
    NextMean(rows, s, ErrorOf, validToks);
    NextMean(rows, s, GenKlOf, validToks);
    NextMean(rows, s, PolicyKlOf, validToks);
    NextMean(rows, s, DivergenceOf, validToks);
    NextMean(rows, s, EntropyOf, validToks);
  }

  lemma NextSums(rows: seq<Row>, s: Row, level: Level, validSeqs: Option<real>, validToks: Option<real>)
    requires rows != [] && CutsRow(rows[|rows| - 1], s)
    requires LossNormaliser(level, validSeqs, validToks).Some? && validToks.Some?
    ensures var added := Accumulate(MetricsOn(rows[..|rows| - 1], level, validSeqs, validToks),
                                    MetricsOn([s], level, validSeqs, validToks));
      var m := MetricsOn(rows, level, validSeqs, validToks);
      && m.loss == added.loss && m.kl == added.kl && m.means == added.means
      && m.numValidSamples == added.numValidSamples && m.numValidTokens == added.numValidTokens
  {
    NextLevelMean(rows, s, LossOf, level, validSeqs, validToks);
    NextLevelMean(rows, s, KlOf, level, validSeqs, validToks);
    NextMeans(rows, s, validToks.value);
    NextSample(rows, s, LossOf);
  }

  lemma NextExtremeMetrics(rows: seq<Row>, s: Row, level: Level, validSeqs: Option<real>, validToks: Option<real>)
    requires rows != [] && CutsRow(rows[|rows| - 1], s)
    ensures var added := Accumulate(MetricsOn(rows[..|rows| - 1], level, validSeqs, validToks),
                                    MetricsOn([s], level, validSeqs, validToks));
      var m := MetricsOn(rows, level, validSeqs, validToks);
      && m.ratioMin == added.ratioMin && m.ratioMax == added.ratioMax
      && m.clampedMin == added.clampedMin && m.clampedMax == added.clampedMax
  {
    NextExtremes(rows, s, RatioOf);
    NextExtremes(rows, s, ClampedOf);
  }

  lemma SameFields(m: Metrics, added: Metrics)
    requires m.loss == added.loss && m.kl == added.kl && m.means == added.means
    requires m.numValidSamples == added.numValidSamples && m.numValidTokens == added.numValidTokens
    requires m.ratioMin == added.ratioMin && m.ratioMax == added.ratioMax
    requires m.clampedMin == added.clampedMin && m.clampedMax == added.clampedMax
    ensures m.(importance := added.importance) == added
  {
  }

  /** One more sequence adds its metrics, save the importance ratio of whole sequences. */
  lemma NextMetrics(rows: seq<Row>, s: Row, level: Level, validSeqs: Option<real>, validToks: Option<real>)
    requires rows != [] && CutsRow(rows[|rows| - 1], s)
    requires LossNormaliser(level, validSeqs, validToks).Some? && validToks.Some?
    ensures var added := Accumulate(MetricsOn(rows[..|rows| - 1], level, validSeqs, validToks),
                                    MetricsOn([s], level, validSeqs, validToks));
      && MetricsOn(rows, level, validSeqs, validToks).(importance := added.importance) == added
      && (level != SequenceLevel(true) ==> added.importance == ImportanceOn(rows, level, validSeqs, validToks))
  {
    NextSums(rows, s, level, validSeqs, validToks);
    NextExtremeMetrics(rows, s, level, validSeqs, validToks);
    SameFields(MetricsOn(rows, level, validSeqs, validToks),
               Accumulate(MetricsOn(rows[..|rows| - 1], level, validSeqs, validToks),
                          MetricsOn([s], level, validSeqs, validToks)));
    NextMean(rows, s, ImportanceOf, validToks.value);
  }

  lemma NoMean(pick: TokenValues -> real, validToks: real)
    ensures TokenMean([], pick, Some(validToks)) == 0.0
  {
    OverZero(validToks);
  }

  lemma NoMeans(validToks: real)
    ensures MeansOn([], Some(validToks)) == Means(0.0, 0.0, 0.0, 0.0, 0.0, 0.0, 0.0)
  {
    NoMean(RatioOf, validToks);
    NoMean(ClampedOf, validToks);
    NoMean(ErrorOf, validToks);
    NoMean(GenKlOf, validToks);
    NoMean(PolicyKlOf, validToks);
    NoMean(DivergenceOf, validToks);
    NoMean(EntropyOf, validToks);
  }

  lemma NoLevelMean(pick: TokenValues -> real, level: Level, validSeqs: Option<real>, validToks: Option<real>)
    requires LossNormaliser(level, validSeqs, validToks).Some?
    ensures LevelMean([], pick, level, validSeqs, validToks) == 0.0
  {
    OverZero(LossNormaliser(level, validSeqs, validToks).value);
  }

  lemma NoImportance(level: Level, validSeqs: Option<real>, validToks: real)
    ensures ImportanceOn([], level, validSeqs, Some(validToks)) == 0.0
  {
    assert Times(0.0, 0.0) == 0.0;
    OverZero(GetOr(validSeqs, 0.0));
    NoMean(ImportanceOf, validToks);
  }

  lemma NoRows(level: Level, validSeqs: Option<real>, validToks: real)
    requires LossNormaliser(level, validSeqs, Some(validToks)).Some?
    ensures MetricsOn([], level, validSeqs, Some(validToks)) == NO_METRICS
  {
    NoLevelMean(LossOf, level, validSeqs, Some(validToks));
    NoLevelMean(KlOf, level, validSeqs, Some(validToks));
    NoMeans(validToks);
    NoImportance(level, validSeqs, validToks);
  }

  /** The same loss and metrics; an importance ratio of whole sequences may be another one. */
  predicate SameSave(packed: CallResult, whole: CallResult, level: Level) {
    && packed.loss == whole.loss && packed.metrics == whole.metrics.(importance := packed.metrics.importance)
    && (level != SequenceLevel(true) ==> packed == whole)
  }

  /** One more call, its results accumulated. */
  function Joined(before: CallResult, one: CallResult): CallResult {
    CallResult(before.loss + one.loss, Accumulate(before.metrics, one.metrics))
  }

  lemma JoinSame(before: CallResult, wholeBefore: CallResult, one: CallResult, whole: CallResult, level: Level)
    requires SameSave(before, wholeBefore, level) && SameSave(Joined(wholeBefore, one), whole, level)
    ensures SameSave(Joined(before, one), whole, level)
  {
  }

  lemma NextCall(rows: seq<Row>, s: Row, level: Level, validSeqs: Option<real>, validToks: Option<real>)
    requires rows != [] && CutsRow(rows[|rows| - 1], s)
    requires LossNormaliser(level, validSeqs, validToks).Some? && validToks.Some?
    ensures SameSave(Joined(CallOn(rows[..|rows| - 1], level, validSeqs, validToks), CallOn([s], level, validSeqs, validToks)),
                     CallOn(rows, level, validSeqs, validToks), level)
  {
    NextMetrics(rows, s, level, validSeqs, validToks);
  }

  lemma AccumulatedSnoc(shorts: seq<Row>, lossFn: Row -> CallResult)
    requires shorts != []
    ensures Accumulated(shorts, lossFn) == Joined(Accumulated(shorts[..|shorts| - 1], lossFn), lossFn(shorts[|shorts| - 1]))
  {
  }

  lemma NoCalls(level: Level, validSeqs: Option<real>, validToks: real)
    requires LossNormaliser(level, validSeqs, Some(validToks)).Some?
    ensures CallOn([], level, validSeqs, Some(validToks)) == CallResult(0.0, NO_METRICS)
  {
    NoRows(level, validSeqs, validToks);
    NoLevelMean(LossOf, level, validSeqs, Some(validToks));
  }

  /**
   * With global normalisers the accumulated loss and metrics are those of the batch; the minima and maxima are over all
   * its valid tokens. Only the importance ratio of whole sequences is another one.
   */
  lemma {:induction false} SequencesAddUp(rows: seq<Row>, shorts: seq<Row>, level: Level, validSeqs: Option<real>,
                                          validToks: Option<real>)
    requires CutsRows(rows, shorts) && LossNormaliser(level, validSeqs, validToks).Some? && validToks.Some?
    ensures SameSave(Accumulated(shorts, LossFn(level, validSeqs, validToks)), CallOn(rows, level, validSeqs, validToks),
                     level)
  {
    if rows == [] {
      NoCalls(level, validSeqs, validToks.value);
    } else {
      var n, lossFn := |rows| - 1, LossFn(level, validSeqs, validToks);
      SequencesAddUp(rows[..n], shorts[..n], level, validSeqs, validToks);
      NextCall(rows, shorts[n], level, validSeqs, validToks);
      AccumulatedSnoc(shorts, lossFn);
      JoinSame(Accumulated(shorts[..n], lossFn), CallOn(rows[..n], level, validSeqs, validToks), lossFn(shorts[n]),
               CallOn(rows, level, validSeqs, validToks), level);
    }
  }

  // ---- Exactly which normalisers are needed ----

  /** The loss needs only its own normaliser. */
  lemma {:induction false} LossesAddUp(rows: seq<Row>, shorts: seq<Row>, level: Level, validSeqs: Option<real>,
                                       validToks: Option<real>)
    requires CutsRows(rows, shorts) && LossNormaliser(level, validSeqs, validToks).Some?
    ensures Accumulated(shorts, LossFn(level, validSeqs, validToks)).loss == LossOn(rows, level, validSeqs, validToks)
  {
    if rows == [] {
      OverZero(LossNormaliser(level, validSeqs, validToks).value);
    } else {
      var n := |rows| - 1;
      LossesAddUp(rows[..n], shorts[..n], level, validSeqs, validToks);
      NextLevelMean(rows, shorts[n], LossOf, level, validSeqs, validToks);
    }
  }

  lemma {:induction false} RatiosAddUp(rows: seq<Row>, shorts: seq<Row>, level: Level, validSeqs: Option<real>,
                                       validToks: real)
    requires CutsRows(rows, shorts)
    ensures Accumulated(shorts, LossFn(level, validSeqs, Some(validToks))).metrics.means.ratio
         == TokenMean(rows, RatioOf, Some(validToks))
  {
    if rows == [] {
      OverZero(validToks);
    } else {
      var n := |rows| - 1;
      RatiosAddUp(rows[..n], shorts[..n], level, validSeqs, validToks);
      NextMean(rows, shorts[n], RatioOf, validToks);
    }
  }

  /** A sequence with one valid token, of which everything is one. */
  const UNIT_ROW: Row := Row([TokenValues(1.0, 1.0, 1.0, 1.0, 1.0, 1.0, 1.0, 1.0, 1.0, 1.0)], [1.0], 1.0, 1.0)

  lemma UnitRow()
    ensures SumRows([UNIT_ROW], LossOf) == SumRows([UNIT_ROW], RatioOf) == CountRows([UNIT_ROW]) == 1.0
    ensures SampleSum([UNIT_ROW], LossOf) == Over(1.0, 1.0) && SampleCount([UNIT_ROW]) == WeightSum([UNIT_ROW]) == 1.0
  {
    UnitSums(LossOf);
    UnitSums(RatioOf);
  }

  lemma UnitSums(pick: TokenValues -> real)
    requires pick(UNIT_ROW.values[0]) == 1.0
    ensures SumRows([UNIT_ROW], pick) == CountRows([UNIT_ROW]) == 1.0
    ensures SampleSum([UNIT_ROW], pick) == Over(1.0, 1.0) && SampleCount([UNIT_ROW]) == WeightSum([UNIT_ROW]) == 1.0
  {
    UnitColumn(pick);
    OnesSums(UNIT_ROW, pick);
  }

  lemma OnesSums(r: Row, pick: TokenValues -> real)
    requires Column(r, pick) == FullMask(r) == r.tokenMask == [1.0] && r.sample == r.weight == 1.0
    ensures SumRows([r], pick) == CountRows([r]) == 1.0
    ensures SampleSum([r], pick) == Over(1.0, 1.0) && SampleCount([r]) == WeightSum([r]) == 1.0
  {
    OneRow(r, pick);
    UnitMean();
  }

  lemma UnitColumn(pick: TokenValues -> real)
    requires pick(UNIT_ROW.values[0]) == 1.0
    ensures Column(UNIT_ROW, pick) == FullMask(UNIT_ROW) == [1.0]
  {
    assert Times(1.0, 1.0) == 1.0;
  }

  lemma UnitMean()
    ensures MaskedSum([1.0], [1.0]) == 1.0 && SumReals([1.0]) == 1.0
    ensures MaskedMean([1.0], [1.0], None) == Over(1.0, 1.0) && Times(Over(1.0, 1.0), 1.0) == Over(1.0, 1.0)
  {
    assert Times(1.0, 1.0) == 1.0 && [1.0][..0] == [];
  }

  lemma TwoUnitRows()
    ensures var rows := [UNIT_ROW, UNIT_ROW];
      && SumRows(rows, LossOf) == SumRows(rows, RatioOf) == CountRows(rows) == 2.0
      && SampleSum(rows, LossOf) == Over(1.0, 1.0) + Over(1.0, 1.0) && SampleCount(rows) == 2.0
  {
    UnitRow();
    var rows := [UNIT_ROW, UNIT_ROW];
    assert rows[..1] == [UNIT_ROW];
    NextRow(rows, UNIT_ROW, LossOf);
    NextRow(rows, UNIT_ROW, RatioOf);
    NextSample(rows, UNIT_ROW, LossOf);
  }

  /** Two calls on one unit row each. */
  lemma TwoUnitCalls(lossFn: Row -> CallResult)
    ensures Accumulated([UNIT_ROW, UNIT_ROW], lossFn).loss == lossFn(UNIT_ROW).loss + lossFn(UNIT_ROW).loss
    ensures Accumulated([UNIT_ROW, UNIT_ROW], lossFn).metrics.means.ratio
         == lossFn(UNIT_ROW).metrics.means.ratio + lossFn(UNIT_ROW).metrics.means.ratio
  {
    var one, two := [UNIT_ROW], [UNIT_ROW, UNIT_ROW];
    assert two[..1] == one && one[..0] == [];
    assert Accumulated(one, lossFn).loss == lossFn(UNIT_ROW).loss;
    assert Accumulated(one, lossFn).metrics.means.ratio == lossFn(UNIT_ROW).metrics.means.ratio;
  }

  /** Twice the mean of one is not the mean of two, whatever is averaged. */
  lemma MeansDiffer(x: real)
    requires x > 0.0
    ensures Over(x, 1.0) + Over(x, 1.0) != Over(x + x, 2.0)
  {
    var a, b := Over(x, 1.0), Over(x + x, 2.0);
    assert a * (1.0 + EPSILON) == x && b * (2.0 + EPSILON) == x + x;
    assert (a + a) * (1.0 + EPSILON) == b * (2.0 + EPSILON);
    assert a * (1.0 + EPSILON) > 0.0;
  }

  /** Two unit rows on which the loss without its normaliser, or the ratio without its, does not add up. */
  lemma UnitRowsDoNotAddUp(level: Level, validSeqs: Option<real>, validToks: Option<real>)
    ensures var rows := [UNIT_ROW, UNIT_ROW]; var total := Accumulated(rows, LossFn(level, validSeqs, validToks));
      && (LossNormaliser(level, validSeqs, validToks) == None ==> total.loss != LossOn(rows, level, validSeqs, validToks))
      && (validToks == None ==> total.metrics.means.ratio != MetricsOn(rows, level, validSeqs, validToks).means.ratio)
  {
    UnitRow();
    TwoUnitRows();
    TwoUnitCalls(LossFn(level, validSeqs, validToks));
    MeansDiffer(1.0);
    assert Over(1.0, 1.0) > 0.0;
    MeansDiffer(Over(1.0, 1.0));
  }

  ghost predicate LossAlwaysAddsUp(level: Level, validSeqs: Option<real>, validToks: Option<real>) {
    forall rows: seq<Row>, shorts: seq<Row> :: CutsRows(rows, shorts) ==>
      Accumulated(shorts, LossFn(level, validSeqs, validToks)).loss == LossOn(rows, level, validSeqs, validToks)
  }

  ghost predicate RatioAlwaysAddsUp(level: Level, validSeqs: Option<real>, validToks: Option<real>) {
    forall rows: seq<Row>, shorts: seq<Row> :: CutsRows(rows, shorts) ==>
      Accumulated(shorts, LossFn(level, validSeqs, validToks)).metrics.means.ratio
        == MetricsOn(rows, level, validSeqs, validToks).means.ratio
  }

  ghost predicate AllAlwaysAddsUp(level: Level, validSeqs: Option<real>, validToks: Option<real>) {
    forall rows: seq<Row>, shorts: seq<Row> :: CutsRows(rows, shorts) ==>
      Accumulated(shorts, LossFn(level, validSeqs, validToks)) == CallOn(rows, level, validSeqs, validToks)
  }

  /** The accumulated loss is the batch's on all inputs exactly when the normaliser of its level is global. */
  lemma LossAddsUpIff(level: Level, validSeqs: Option<real>, validToks: Option<real>)
    ensures LossAlwaysAddsUp(level, validSeqs, validToks) <==> LossNormaliser(level, validSeqs, validToks).Some?
  {
    if LossNormaliser(level, validSeqs, validToks).Some? {
      forall rows: seq<Row>, shorts: seq<Row> | CutsRows(rows, shorts)
        ensures Accumulated(shorts, LossFn(level, validSeqs, validToks)).loss == LossOn(rows, level, validSeqs, validToks)
      {
        LossesAddUp(rows, shorts, level, validSeqs, validToks);
      }
    } else {
      UnitRowsDoNotAddUp(level, validSeqs, validToks);
      assert CutsRows([UNIT_ROW, UNIT_ROW], [UNIT_ROW, UNIT_ROW]);
    }
  }

  /** The accumulated `probs_ratio` is the batch's on all inputs exactly when the token count is global, at either level. */
  lemma RatioAddsUpIff(level: Level, validSeqs: Option<real>, validToks: Option<real>)
    ensures RatioAlwaysAddsUp(level, validSeqs, validToks) <==> validToks.Some?
  {
    if validToks.Some? {
      forall rows: seq<Row>, shorts: seq<Row> | CutsRows(rows, shorts)
        ensures Accumulated(shorts, LossFn(level, validSeqs, validToks)).metrics.means.ratio
             == MetricsOn(rows, level, validSeqs, validToks).means.ratio
      {
        RatiosAddUp(rows, shorts, level, validSeqs, validToks.value);
      }
    } else {
      UnitRowsDoNotAddUp(level, validSeqs, validToks);
      assert CutsRows([UNIT_ROW, UNIT_ROW], [UNIT_ROW, UNIT_ROW]);
    }
  }

  // ---- The importance ratio of whole sequences ----

  /** On batches of `k` sequences the accumulated importance ratio of whole sequences is that of the batch. */
  ghost predicate ImportanceAddsUpFor(k: nat, validSeqs: Option<real>, validToks: Option<real>) {
    forall rows: seq<Row>, shorts: seq<Row> :: |rows| == k && CutsRows(rows, shorts) ==>
      Accumulated(shorts, LossFn(SequenceLevel(true), validSeqs, validToks)).metrics.importance
        == ImportanceOn(rows, SequenceLevel(true), validSeqs, validToks)
  }

  function UnitRows(k: nat): (r: seq<Row>)
    ensures |r| == k
  {
    seq(k, _ => UNIT_ROW)
  }

  lemma {:induction false} ManyUnitRows(k: nat, validSeqs: Option<real>, validToks: Option<real>)
    ensures WeightSum(UnitRows(k)) == SampleCount(UnitRows(k)) == k as real
    ensures Accumulated(UnitRows(k), LossFn(SequenceLevel(true), validSeqs, validToks)).metrics.importance
         == Times(k as real, Over(1.0, GetOr(validSeqs, 1.0)))
  {
    if k > 0 {
      ManyUnitRows(k - 1, validSeqs, validToks);
      assert UnitRows(k)[..k - 1] == UnitRows(k - 1) && UnitRows(k)[k - 1] == UNIT_ROW;
      UnitRow();
      assert ImportanceOn([UNIT_ROW], SequenceLevel(true), validSeqs, validToks) == Over(1.0, GetOr(validSeqs, 1.0)) by {
        assert Times(1.0, 1.0) == 1.0;
      }
      OneMoreTime(k, Over(1.0, GetOr(validSeqs, 1.0)));
    }
  }

  lemma OneMoreTime(k: nat, x: real)
    requires k > 0
    ensures Times(k as real, x) == Times((k - 1) as real, x) + x
  {
  }

  /** A sum of squares over the count is more than the sum: the square of weights and masks is too large. */
  lemma SquareIsMore(k: real, n: real)
    requires k >= 2.0 && n >= 0.0
    ensures Times(k, Over(1.0, n)) < Over(Times(k, k), n) && Times(k, Over(1.0, 1.0)) < Over(Times(k, k), k)
  {
    var x, y := Over(1.0, n), Over(Times(k, k), n);
    assert x * (n + EPSILON) == 1.0 && y * (n + EPSILON) == k * k;
    ScaledLess(k * x, y, n + EPSILON, k, k * k);
    var u, v := Over(1.0, 1.0), Over(Times(k, k), k);
    assert u * (1.0 + EPSILON) == 1.0 && v * (k + EPSILON) == k * k;
    ScaledLess(k * u * (k + EPSILON), k * k, 1.0 + EPSILON, k * (k + EPSILON), k * k * (1.0 + EPSILON));
    ScaledLess(k * u, v, k + EPSILON, k * u * (k + EPSILON), k * k);
  }

  lemma ScaledLess(x: real, y: real, d: real, a: real, b: real)
    requires d > 0.0 && x * d == a && y * d == b && a < b
    ensures x < y
  {
  }

  /**
   * With ratios of whole sequences, the accumulated `sampling_importance_ratio` is that of the batch exactly for batches
   * of at most one sequence: packed, every weight meets its own sample's mask only.
   */
  lemma SequenceImportanceAddsUpIff(k: nat, validSeqs: Option<real>, validToks: Option<real>)
    requires validSeqs.Some? ==> validSeqs.value >= 0.0
    ensures ImportanceAddsUpFor(k, validSeqs, validToks) <==> k <= 1
  {
    if k <= 1 {
      forall rows: seq<Row>, shorts: seq<Row> | |rows| == k && CutsRows(rows, shorts)
        ensures Accumulated(shorts, LossFn(SequenceLevel(true), validSeqs, validToks)).metrics.importance
             == ImportanceOn(rows, SequenceLevel(true), validSeqs, validToks)
      {
        OneSequenceAddsUp(rows, shorts, validSeqs, validToks);
      }
    } else {
      var rows := UnitRows(k);
      ManyUnitRows(k, validSeqs, validToks);
      SquareIsMore(k as real, GetOr(validSeqs, 1.0));
      assert CutsRows(rows, rows);
    }
  }

  lemma OneSequenceAddsUp(rows: seq<Row>, shorts: seq<Row>, validSeqs: Option<real>, validToks: Option<real>)
    requires |rows| <= 1 && CutsRows(rows, shorts)
    ensures Accumulated(shorts, LossFn(SequenceLevel(true), validSeqs, validToks)).metrics.importance
         == ImportanceOn(rows, SequenceLevel(true), validSeqs, validToks)
  {
    if rows == [] {
      assert Times(0.0, 0.0) == 0.0;
      OverZero(GetOr(validSeqs, 0.0));
    } else {
      var r, short := rows[0], shorts[0];
      assert rows == [r] && shorts == [short] && shorts[..0] == [];
      OneRow(r, LossOf);
      OneRow(short, LossOf);
    }
  }

  /**
   * Loss and metrics together add up on all inputs exactly when both normalisers that they use are global and the
   * importance ratios are not those of whole sequences.
   */
  lemma AllAddsUpIff(level: Level, validSeqs: Option<real>, validToks: Option<real>)
    requires validSeqs.Some? ==> validSeqs.value >= 0.0
    ensures AllAlwaysAddsUp(level, validSeqs, validToks)
       <==> LossNormaliser(level, validSeqs, validToks).Some? && validToks.Some? && level != SequenceLevel(true)
  {
    if level == SequenceLevel(true) {
      SequenceImportanceAddsUpIff(2, validSeqs, validToks);
    } else if LossNormaliser(level, validSeqs, validToks).Some? && validToks.Some? {
      forall rows: seq<Row>, shorts: seq<Row> | CutsRows(rows, shorts)
        ensures Accumulated(shorts, LossFn(level, validSeqs, validToks)) == CallOn(rows, level, validSeqs, validToks)
      {
        SequencesAddUp(rows, shorts, level, validSeqs, validToks);
      }
    } else {
      UnitRowsDoNotAddUp(level, validSeqs, validToks);
      assert CutsRows([UNIT_ROW, UNIT_ROW], [UNIT_ROW, UNIT_ROW]);
    }
  }

  // ---- The loop over the packed sequences ----

  /**
   * What the wrapped loss computes: a summary of the sequence from its tokens, their masks and the sample's mask, then
   * the values of each token with the summary at hand, and the sequence's importance weight.
   */
  datatype Evaluator<!L, !D, !C> =
    Evaluator(summary: (seq<(L, D)>, seq<real>, real) -> C, token: (C, (L, D), real) -> TokenValues, weight: C -> real)

  /** Logits at a position with the data of the next token. */
  function NextTokens<L, D>(logits: seq<L>, tokens: seq<D>): (r: seq<(L, D)>)
    requires |tokens| <= |logits| + 1
    ensures |r| == Max(|tokens| - 1, 0)
  {
    seq(Max(|tokens| - 1, 0), j requires 0 <= j < |tokens| - 1 => (logits[j], tokens[j + 1]))
  }

  function Evaluate<L, D, C>(pairs: seq<(L, D)>, mask: seq<real>, sample: real, f: Evaluator<L, D, C>): (r: Row)
    requires |pairs| == |mask|
  {
    var c := f.summary(pairs, mask, sample);
    Row(seq(|pairs|, j requires 0 <= j < |pairs| => f.token(c, pairs[j], Times(mask[j], sample))), mask, sample, f.weight(c))
  }

  function MakeRow<L, D, C>(logits: seq<L>, tokens: seq<D>, mask: seq<real>, sample: real, f: Evaluator<L, D, C>): (r: Row)
    requires |mask| == |tokens| <= |logits| + 1
  {
    Evaluate(NextTokens(logits, tokens), mask[Min(1, |mask|)..], sample, f)
  }

  /** Position j of a row is about token j + 1: its data, under its mask, with the logits at j. */
  lemma RowIsAboutNextTokens<L, D, C>(logits: seq<L>, tokens: seq<D>, mask: seq<real>, sample: real, f: Evaluator<L, D, C>,
                                      j: nat)
    requires |mask| == |tokens| <= |logits| + 1 && j + 1 < |tokens|
    ensures var r, c := MakeRow(logits, tokens, mask, sample, f), f.summary(NextTokens(logits, tokens), mask[1..], sample);
      && |r.values| == |r.tokenMask| == |tokens| - 1 && r.tokenMask[j] == mask[j + 1] && r.sample == sample
      && r.values[j] == f.token(c, (logits[j], tokens[j + 1]), mask[j + 1] * sample) && r.weight == f.weight(c)
      && NextTokens(logits, tokens)[j] == (logits[j], tokens[j + 1])
  {
    var pairs, rest := NextTokens(logits, tokens), mask[1..];
    assert mask[Min(1, |mask|)..] == rest && rest[j] == mask[j + 1];
    assert pairs[j] == (logits[j], tokens[j + 1]) && Times(mask[j + 1], sample) == mask[j + 1] * sample;
    assert MakeRow(logits, tokens, mask, sample, f) == Evaluate(pairs, rest, sample, f);
  }

  /** Tokens whose masks vanish at the sequence's end make no difference to the summary. */
  ghost predicate CutInvariant<L(!new), D(!new), C>(f: Evaluator<L, D, C>) {
    forall pairs: seq<(L, D)>, mask: seq<real>, sample: real, n: nat ::
      |pairs| == |mask| && n <= |mask| && Vanishes(mask, n) ==>
        f.summary(pairs, mask, sample) == f.summary(pairs[..n], mask[..n], sample)
  }

  lemma EvaluateCuts<L(!new), D(!new), C>(pairs: seq<(L, D)>, mask: seq<real>, sample: real, n: nat,
                                          f: Evaluator<L, D, C>)
    requires CutInvariant(f) && |pairs| == |mask| && n <= |mask| && Vanishes(mask, n)
    ensures CutsRow(Evaluate(pairs, mask, sample, f), Evaluate(pairs[..n], mask[..n], sample, f))
  {
  }

  /** A loss whose values come from one token alone. */
  function Tokenwise<L, D>(token: ((L, D), real) -> TokenValues): Evaluator<L, D, ()> {
    Evaluator((_, _, _) => (), (_, pair, mask) => token(pair, mask), _ => 1.0)
  }

  lemma TokenwiseIsCutInvariant<L(!new), D(!new)>(token: ((L, D), real) -> TokenValues)
    ensures CutInvariant(Tokenwise(token))
  {
  }

  /** What is computed for a sequence as a whole: the ratio to the former policy, and the weight against the generator. */
  datatype Ratios = Ratios(ratio: real, weight: real)

  /** Token mask times sample mask. */
  function Products(mask: seq<real>, sample: real): (r: seq<real>)
    ensures |r| == |mask|
  {
    seq(|mask|, j requires 0 <= j < |mask| => Times(mask[j], sample))
  }

  /**
   * Ratios of whole sequences: from the mean of the tokens' log ratios under the token mask, and the sum of their log
   * weights under both masks. `ratio` and `weight` are the exponential and what may follow it.
   */
  function SequenceRatios<L, D>(pairs: seq<(L, D)>, mask: seq<real>, sample: real, logRatio: ((L, D)) -> real,
                                logWeight: ((L, D)) -> real, ratio: real -> real, weight: real -> real): Ratios
  {
    if |pairs| != |mask| then Ratios(0.0, 0.0)
    else
      Ratios(ratio(MaskedMean(Mapped(pairs, logRatio), mask, None)),
             weight(MaskedSum(Mapped(pairs, logWeight), Products(mask, sample))))
  }

  function Sequencewise<L, D>(logRatio: ((L, D)) -> real, logWeight: ((L, D)) -> real, ratio: real -> real,
                              weight: real -> real, token: (Ratios, (L, D), real) -> TokenValues): Evaluator<L, D, Ratios>
  {
    Evaluator((pairs, mask, sample) => SequenceRatios(pairs, mask, sample, logRatio, logWeight, ratio, weight), token,
              (c: Ratios) => c.weight)
  }

  /**
   * With masks of zeros and ones: the ratio comes from the mean of the valid tokens' log ratios, whether the sample counts
   * or not, and the weight from the sum of their log weights, which is zero when it does not.
   */
  lemma SequenceRatiosMean<L, D>(pairs: seq<(L, D)>, mask: seq<real>, sample: real, logRatio: ((L, D)) -> real,
                                 logWeight: ((L, D)) -> real, ratio: real -> real, weight: real -> real)
    returns (mean: real)
    requires |pairs| == |mask| && IsBinary(mask) && IsBinary([sample])
    ensures var valid, r := Valid(pairs, mask), SequenceRatios(pairs, mask, sample, logRatio, logWeight, ratio, weight);
      && IsMean(mean, SumReals(Mapped(valid, logRatio)), |valid| as real) && r.ratio == ratio(mean)
      && r.weight == weight(if sample == 0.0 then 0.0 else SumReals(Mapped(valid, logWeight)))
  {
    mean := MaskedMean(Mapped(pairs, logRatio), mask, None);
    ValidMapped(pairs, mask, logRatio);
    MaskedMeanMeans(Mapped(pairs, logRatio), mask);
    ValidMapped(pairs, mask, logWeight);
    assert sample == [sample][0];
    MaskedSumMeans(Mapped(pairs, logWeight), Products(mask, sample));
    if sample == 0.0 {
      NothingValid(Mapped(pairs, logWeight), Products(mask, sample));
    } else {
      assert Products(mask, sample) == mask;
    }
  }

  lemma SequenceRatiosCut<L, D>(pairs: seq<(L, D)>, mask: seq<real>, sample: real, n: nat, logRatio: ((L, D)) -> real,
                                logWeight: ((L, D)) -> real, ratio: real -> real, weight: real -> real)
    requires |pairs| == |mask| && n <= |mask| && Vanishes(mask, n)
    ensures SequenceRatios(pairs, mask, sample, logRatio, logWeight, ratio, weight)
         == SequenceRatios(pairs[..n], mask[..n], sample, logRatio, logWeight, ratio, weight)
  {
    SameReductions(Mapped(pairs, logRatio), mask, Mapped(pairs[..n], logRatio), mask[..n]);
    SameReductions(Mapped(pairs, logWeight), Products(mask, sample), Mapped(pairs[..n], logWeight),
                   Products(mask[..n], sample));
  }

  lemma SequencewiseIsCutInvariant<L(!new), D(!new)>(logRatio: ((L, D)) -> real, logWeight: ((L, D)) -> real,
                                                     ratio: real -> real, weight: real -> real,
                                                     token: (Ratios, (L, D), real) -> TokenValues)
    ensures CutInvariant(Sequencewise(logRatio, logWeight, ratio, weight, token))
  {
    forall pairs: seq<(L, D)>, mask: seq<real>, sample: real, n: nat |
      |pairs| == |mask| && n <= |mask| && Vanishes(mask, n)
      ensures SequenceRatios(pairs, mask, sample, logRatio, logWeight, ratio, weight)
           == SequenceRatios(pairs[..n], mask[..n], sample, logRatio, logWeight, ratio, weight)
    {
      SequenceRatiosCut(pairs, mask, sample, n, logRatio, logWeight, ratio, weight);
    }
  }

  /** Tensors with a single column are left alone. */
  function Unpad<T>(row: seq<T>, length: nat): seq<T> {
    if |row| > 1 then row[..Min(length, |row|)] else row
  }

  /** Rows of one length with as many masks; cumulative lengths for each of them. */
  ghost predicate IsPacked<L, D>(logits: seq<L>, data: Batch<D>, cu: seq<nat>, padded: seq<nat>, width: nat) {
    && |data.tokens| == |data.tokenMask| == |data.sampleMask|
    && (forall i :: 0 <= i < |data.tokens| ==> |data.tokens[i]| == |data.tokenMask[i]| == width)
    && |cu| == |padded| == |data.tokens| + 1
    && (forall i, j :: 0 <= i <= j < |cu| ==> cu[i] <= cu[j] && padded[i] <= padded[j] <= |logits|)
    && (forall i, j :: 0 <= i && j == i + 1 < |cu| ==> cu[j] - cu[i] <= padded[j] - padded[i])
  }

  /** Sequence `i` when there is one rank: its slice of the logits and its unpadded data. */
  function PackedRow<L, D, C>(logits: seq<L>, data: Batch<D>, cu: seq<nat>, padded: seq<nat>, i: nat, f: Evaluator<L, D, C>)
    : (r: Row)
    requires i + 1 < |cu| == |padded| && i < |data.tokens| == |data.tokenMask| == |data.sampleMask|
    requires |data.tokens[i]| == |data.tokenMask[i]| && cu[i] <= cu[i + 1] && padded[i] <= padded[i + 1] <= |logits|
    requires cu[i + 1] - cu[i] <= padded[i + 1] - padded[i]
  {
    var length := cu[i + 1] - cu[i];
    MakeRow(logits[padded[i]..padded[i + 1]], Unpad(data.tokens[i], length), Unpad(data.tokenMask[i], length),
            data.sampleMask[i], f)
  }

  ghost function PackedRows<L, D, C>(logits: seq<L>, data: Batch<D>, cu: seq<nat>, padded: seq<nat>, width: nat,
                                     f: Evaluator<L, D, C>): seq<Row>
    requires IsPacked(logits, data, cu, padded, width)
  {
    seq(|data.tokens|, i requires 0 <= i < |data.tokens| => PackedRow(logits, data, cu, padded, i, f))
  }

  /** Sequence `i` as the wrapper hands it to the loss: every rank's slice of its logits, and its unpadded data. */
  datatype Piece<L, D> = Piece(slices: seq<seq<L>>, tokens: seq<D>, tokenMask: seq<real>, sample: real)

  /** Cumulative lengths for each sequence, which the ranks' logits reach. */
  ghost predicate IsCut<L, D>(locals: seq<seq<L>>, data: Batch<D>, cu: seq<nat>, padded: seq<nat>) {
    && 0 < |locals| && |data.tokens| == |data.tokenMask| == |data.sampleMask|
    && |cu| == |padded| == |data.tokens| + 1
    && (forall i, j :: 0 <= i <= j < |cu| ==> cu[i] <= cu[j] && padded[i] <= padded[j])
    && (forall i, j :: 0 <= i <= j < |cu| ==>
          PackedLogprobs.LocalOffset(padded[i], |locals|) <= PackedLogprobs.LocalOffset(padded[j], |locals|))
    && (forall i, r :: 0 <= i < |cu| && 0 <= r < |locals| ==> PackedLogprobs.LocalOffset(padded[i], |locals|) <= |locals[r]|)
  }

  ghost function Pieces<L, D>(locals: seq<seq<L>>, data: Batch<D>, cu: seq<nat>, padded: seq<nat>): (r: seq<Piece<L, D>>)
    requires IsCut(locals, data, cu, padded)
    ensures |r| == |data.tokens|
  {
    seq(|data.tokens|, i requires 0 <= i < |data.tokens| => PieceOf(locals, data, cu, padded, i))
  }

  function PieceOf<L, D>(locals: seq<seq<L>>, data: Batch<D>, cu: seq<nat>, padded: seq<nat>, i: nat): Piece<L, D>
    requires 0 < |locals| && i + 1 < |cu| == |padded| && i < |data.tokens| == |data.tokenMask| == |data.sampleMask|
    requires cu[i] <= cu[i + 1]
    requires PackedLogprobs.LocalOffset(padded[i], |locals|) <= PackedLogprobs.LocalOffset(padded[i + 1], |locals|)
    requires forall r :: 0 <= r < |locals| ==> PackedLogprobs.LocalOffset(padded[i + 1], |locals|) <= |locals[r]|
  {
    var length := cu[i + 1] - cu[i];
    var start, end := PackedLogprobs.LocalOffset(padded[i], |locals|), PackedLogprobs.LocalOffset(padded[i + 1], |locals|);
    Piece(PackedLogprobs.RankSlices(locals, start, end), Unpad(data.tokens[i], length), Unpad(data.tokenMask[i], length),
          data.sampleMask[i])
  }

  lemma AccumulatedNext<P>(pieces: seq<P>, i: nat, lossFn: P -> CallResult)
    requires i < |pieces|
    ensures Accumulated(pieces[..i + 1], lossFn) == Joined(Accumulated(pieces[..i], lossFn), lossFn(pieces[i]))
  {
    assert pieces[..i + 1][..i] == pieces[..i];
  }

  /**
   * `SequencePackingLossWrapper.__call__`, on all ranks: one call of the wrapped loss for each sequence, its results
   * accumulated. The logits are cut at the padded starts divided by the number of ranks.
   */
  method Call<L, D>(locals: seq<seq<L>>, data: Batch<D>, cu: seq<nat>, cuPadded: Option<seq<nat>>,
                    lossFn: Piece<L, D> -> CallResult)
    returns (lossAccum: real, metricsAccum: Metrics)
    requires IsCut(locals, data, cu, Padded(cu, cuPadded))
    ensures cuPadded == None ==> CallResult(lossAccum, metricsAccum) == Accumulated(Pieces(locals, data, cu, cu), lossFn)
    ensures cuPadded.Some? ==>
      CallResult(lossAccum, metricsAccum) == Accumulated(Pieces(locals, data, cu, cuPadded.value), lossFn)
  {
    var padded := Padded(cu, cuPadded);
    ghost var pieces := Pieces(locals, data, cu, padded);
    lossAccum, metricsAccum := 0.0, NO_METRICS;
    for i := 0 to |padded| - 1
      invariant CallResult(lossAccum, metricsAccum) == Accumulated(pieces[..i], lossFn)
    {
      var piece := PieceOf(locals, data, cu, padded, i);
      AccumulatedNext(pieces, i, lossFn);
      var result := lossFn(piece);
      lossAccum := lossAccum + result.loss;
      metricsAccum := Accumulate(metricsAccum, result.metrics);
    }
    assert pieces[..|pieces|] == pieces;
  }

  function Padded(cu: seq<nat>, cuPadded: Option<seq<nat>>): seq<nat> {
    if cuPadded.Some? then cuPadded.value else cu
  }

  // ---- Against the unpacked batch ----

  /** The unpacked logits hold each sequence's logits from its start on; what lies beyond its length is padding. */
  ghost predicate Unpacks<L, D>(unpacked: seq<seq<L>>, logits: seq<L>, data: Batch<D>, cu: seq<nat>, padded: seq<nat>,
                                width: nat)
    requires IsPacked(logits, data, cu, padded, width)
  {
    && |unpacked| == |data.tokens|
    && (forall i :: 0 <= i < |unpacked| ==> |unpacked[i]| == width)
    && (forall i, j :: 0 <= i < |unpacked| && 0 <= j < width && j < cu[i + 1] - cu[i] ==>
          unpacked[i][j] == logits[padded[i] + j])
  }

  ghost predicate MasksVanish<D>(data: Batch<D>, cu: seq<nat>)
    requires |cu| == |data.tokenMask| + 1
  {
    forall i, j :: 0 <= i < |data.tokenMask| && 0 <= j < |data.tokenMask[i]| && cu[i + 1] - cu[i] <= j ==>
                     data.tokenMask[i][j] == 0.0
  }

  ghost function UnpackedRows<L, D, C>(unpacked: seq<seq<L>>, data: Batch<D>, width: nat, f: Evaluator<L, D, C>)
    : seq<Row>
    requires |unpacked| == |data.tokens| == |data.tokenMask| == |data.sampleMask|
    requires forall i :: 0 <= i < |unpacked| ==> |unpacked[i]| == |data.tokens[i]| == |data.tokenMask[i]| == width
  {
    seq(|unpacked|, i requires 0 <= i < |unpacked| =>
      MakeRow(unpacked[i], data.tokens[i], data.tokenMask[i], data.sampleMask[i], f))
  }

  lemma UnpackedRowIsCut<L(!new), D(!new), C>(unpacked: seq<seq<L>>, logits: seq<L>, data: Batch<D>, cu: seq<nat>, padded: seq<nat>,
                               width: nat, f: Evaluator<L, D, C>, i: nat)
    requires IsPacked(logits, data, cu, padded, width) && Unpacks(unpacked, logits, data, cu, padded, width)
    requires MasksVanish(data, cu) && i < |data.tokens| && CutInvariant(f)
    ensures CutsRow(MakeRow(unpacked[i], data.tokens[i], data.tokenMask[i], data.sampleMask[i], f),
                    PackedRow(logits, data, cu, padded, i, f))
  {
    var length := cu[i + 1] - cu[i];
    var slice, tokens, mask := logits[padded[i]..padded[i + 1]], Unpad(data.tokens[i], length), Unpad(data.tokenMask[i], length);
    var n := Max(|tokens| - 1, 0);
    var pairs, masks := NextTokens(unpacked[i], data.tokens[i]), data.tokenMask[i][Min(1, width)..];
    assert NextTokens(slice, tokens) == pairs[..n];
    assert mask[Min(1, |mask|)..] == masks[..n];
    EvaluateCuts(pairs, masks, data.sampleMask[i], n, f);
  }

  /** On one rank, the accumulated calls are the batch's. */
  lemma PackedRowsAddUp<L(!new), D(!new), C>(unpacked: seq<seq<L>>, logits: seq<L>, data: Batch<D>, cu: seq<nat>,
                                             padded: seq<nat>, width: nat, level: Level, validSeqs: Option<real>,
                                             validToks: Option<real>, f: Evaluator<L, D, C>)
    requires LossNormaliser(level, validSeqs, validToks).Some? && validToks.Some?
    requires IsPacked(logits, data, cu, padded, width) && Unpacks(unpacked, logits, data, cu, padded, width)
    requires MasksVanish(data, cu) && CutInvariant(f)
    ensures SameSave(Accumulated(PackedRows(logits, data, cu, padded, width, f), LossFn(level, validSeqs, validToks)),
                     CallOn(UnpackedRows(unpacked, data, width, f), level, validSeqs, validToks), level)
  {
    var rows := PackedRows(logits, data, cu, padded, width, f);
    var whole := UnpackedRows(unpacked, data, width, f);
    forall i | 0 <= i < |whole| ensures CutsRow(whole[i], rows[i]) {
      UnpackedRowIsCut(unpacked, logits, data, cu, padded, width, f, i);
    }
    SequencesAddUp(whole, rows, level, validSeqs, validToks);
  }

  // ---- The wrapped loss over ranks ----

  /** A sequence's logits and unpadded data. */
  ghost predicate FitsLoss<L, D>(logits: seq<L>, tokens: seq<D>, mask: seq<real>) { |mask| == |tokens| <= |logits| + 1 }

  /**
   * On the ranks' shards of a sequence the wrapped loss is what `f` makes of the whole sequence: it gathers what the ranks
   * computed.
   */
  ghost predicate OverRanks<L(!new), D(!new), C>(lossFn: Piece<L, D> -> CallResult, f: Evaluator<L, D, C>, ranks: nat,
                                                 level: Level, validSeqs: Option<real>, validToks: Option<real>)
  {
    forall x: seq<L>, tokens: seq<D>, mask: seq<real>, sample: real ::
      PackedLogprobs.Divisible(|x|, ranks) && FitsLoss(x, tokens, mask) ==>
        lossFn(Piece(ContextParallel.Sharded(x, ranks), tokens, mask, sample))
          == LossFn(level, validSeqs, validToks)(MakeRow(x, tokens, mask, sample, f))
  }

  // ---- Losses that see the logits through log-probabilities ----

  /** Each token with its score, such as its log-probability, in place of its logits. */
  function Scored<L, D>(pairs: seq<(L, D)>, score: (L, D) -> real): (r: seq<(real, D)>)
    ensures |r| == |pairs|
  {
    seq(|pairs|, j requires 0 <= j < |pairs| => (score(pairs[j].0, pairs[j].1), pairs[j].1))
  }

  /** The evaluator that sees logits only through their scores. */
  function Through<L, D, C>(score: (L, D) -> real, f: Evaluator<real, D, C>): Evaluator<L, D, C> {
    Evaluator((pairs, mask, sample) => f.summary(Scored(pairs, score), mask, sample),
              (c, pair: (L, D), mask) => f.token(c, (score(pair.0, pair.1), pair.1), mask), f.weight)
  }

  lemma ThroughIsCutInvariant<L(!new), D(!new), C>(score: (L, D) -> real, f: Evaluator<real, D, C>)
    requires CutInvariant(f)
    ensures CutInvariant(Through(score, f))
  {
    forall pairs: seq<(L, D)>, mask: seq<real>, sample: real, n: nat |
      |pairs| == |mask| && n <= |mask| && Vanishes(mask, n)
      ensures f.summary(Scored(pairs, score), mask, sample) == f.summary(Scored(pairs[..n], score), mask[..n], sample)
    {
      assert Scored(pairs[..n], score) == Scored(pairs, score)[..n];
    }
  }

  /** The tokens rolled by one and padded to the length of the logits. */
  function RolledTokens<D>(tokens: seq<D>, n: nat, pad: D): (r: seq<D>)
    ensures |r| == n
  {
    seq(n, j requires 0 <= j < n =>
      if j + 1 < |tokens| then tokens[j + 1] else if j + 1 == |tokens| then tokens[0] else pad)
  }

  /** What every rank computes for its tokens. */
  function RankScores<L, D>(slices: seq<seq<L>>, tokens: seq<D>, score: (L, D) -> real, pad: D): (r: seq<seq<real>>)
    ensures |r| == |slices|
  {
    var ranks := |slices|;
    seq(ranks, r requires 0 <= r < ranks =>
      var own := ContextParallel.TokensOnRank(RolledTokens(tokens, |slices[0]| * ranks, pad), r, ranks);
      if |own| == |slices[r]| then ContextParallel.Pointwise(score, slices[r], own) else [])
  }

  /** The wrapped loss as the program computes it: scores rank by rank, then gathered. */
  function ScoringOnRanks<L, D, C>(score: (L, D) -> real, pad: D, f: Evaluator<real, D, C>, level: Level,
                                   validSeqs: Option<real>, validToks: Option<real>): Piece<L, D> -> CallResult
  {
    (p: Piece<L, D>) =>
      var scores := ContextParallel.Gathered(RankScores(p.slices, p.tokens, score, pad));
      if |p.tokenMask| == |p.tokens| <= |scores| + 1
      then LossFn(level, validSeqs, validToks)(MakeRow(scores, p.tokens, p.tokenMask, p.sample, f))
      else CallResult(0.0, NO_METRICS)
  }

  lemma RankScoresAreShards<L, D>(x: seq<L>, tokens: seq<D>, score: (L, D) -> real, pad: D, ranks: nat)
    requires 0 < ranks && PackedLogprobs.Divisible(|x|, ranks)
    ensures var whole := ContextParallel.Pointwise(score, x, RolledTokens(tokens, |x|, pad));
      RankScores(ContextParallel.Sharded(x, ranks), tokens, score, pad) == ContextParallel.Sharded(whole, ranks)
  {
    PackedLogprobs.ShardedLength(x, ranks);
    var rolled := RolledTokens(tokens, |x|, pad);
    var slices := ContextParallel.Sharded(x, ranks);
    var whole := ContextParallel.Pointwise(score, x, rolled);
    forall r | 0 <= r < ranks
      ensures RankScores(slices, tokens, score, pad)[r] == ContextParallel.TokensOnRank(whole, r, ranks)
    {
      ContextParallel.PointwiseOnRank(score, x, rolled, r, ranks);
    }
  }

  /** A row built from scores is the row that sees the logits through them. */
  lemma ScoredRow<L, D, C>(x: seq<L>, scores: seq<real>, tokens: seq<D>, mask: seq<real>, sample: real,
                           score: (L, D) -> real, f: Evaluator<real, D, C>)
    requires |mask| == |tokens| <= |x| + 1 && |scores| == |x|
    requires forall j :: 0 <= j < |tokens| - 1 ==> scores[j] == score(x[j], tokens[j + 1])
    ensures MakeRow(scores, tokens, mask, sample, f) == MakeRow(x, tokens, mask, sample, Through(score, f))
  {
    var pairs := NextTokens(x, tokens);
    assert NextTokens(scores, tokens) == Scored(pairs, score);
  }

  /** Scoring on the ranks and gathering the scores is the loss of the whole sequence. */
  lemma ScoringIsOverRanks<L(!new), D(!new), C>(score: (L, D) -> real, pad: D, f: Evaluator<real, D, C>, ranks: nat,
                                                level: Level, validSeqs: Option<real>, validToks: Option<real>)
    requires 0 < ranks
    ensures OverRanks(ScoringOnRanks(score, pad, f, level, validSeqs, validToks), Through(score, f), ranks, level, validSeqs,
                      validToks)
  {
    forall x: seq<L>, tokens: seq<D>, mask: seq<real>, sample: real |
      PackedLogprobs.Divisible(|x|, ranks) && FitsLoss(x, tokens, mask)
      ensures ScoringOnRanks(score, pad, f, level, validSeqs, validToks)(
                Piece(ContextParallel.Sharded(x, ranks), tokens, mask, sample))
           == LossFn(level, validSeqs, validToks)(MakeRow(x, tokens, mask, sample, Through(score, f)))
    {
      var whole := ContextParallel.Pointwise(score, x, RolledTokens(tokens, |x|, pad));
      RankScoresAreShards(x, tokens, score, pad, ranks);
      ContextParallel.GatherUndoesShard(whole, ranks);
      ScoredRow(x, whole, tokens, mask, sample, score, f);
    }
  }

  /** Each rank holds its shard of every padded sequence, one after the other. */
  ghost predicate HeldByRanks<L>(locals: seq<seq<L>>, logits: seq<L>, padded: seq<nat>) {
    && 0 < |locals| && PackedLogprobs.IsCumulative(padded, |logits|, |locals|)
    && PackedLogprobs.AllRanksHold(locals, PackedLogprobs.Sequences(logits, padded), padded, |locals|)
  }

  /** The slices of a sequence are its shards. */
  lemma PieceIsSharded<L, D>(locals: seq<seq<L>>, logits: seq<L>, data: Batch<D>, cu: seq<nat>, padded: seq<nat>, width: nat,
                             i: nat)
    requires IsPacked(logits, data, cu, padded, width) && HeldByRanks(locals, logits, padded)
    requires IsCut(locals, data, cu, padded) && i < |data.tokens|
    ensures PieceOf(locals, data, cu, padded, i).slices == ContextParallel.Sharded(logits[padded[i]..padded[i + 1]], |locals|)
    ensures PackedLogprobs.Divisible(|logits[padded[i]..padded[i + 1]]|, |locals|)
  {
    PackedLogprobs.SlicesAreShards(locals, PackedLogprobs.Sequences(logits, padded), padded, |locals|, i);
    if |locals| > 1 {
      var half := PackedLogprobs.EvenShards(logits[padded[i]..padded[i + 1]], padded[i], padded[i + 1], |locals|);
    }
  }

  /** The call for a sequence is the call on its row. */
  lemma PieceCall<L(!new), D(!new), C>(locals: seq<seq<L>>, logits: seq<L>, data: Batch<D>, cu: seq<nat>, padded: seq<nat>,
                                       width: nat, level: Level, validSeqs: Option<real>, validToks: Option<real>,
                                       f: Evaluator<L, D, C>, lossFn: Piece<L, D> -> CallResult, i: nat)
    requires IsPacked(logits, data, cu, padded, width) && HeldByRanks(locals, logits, padded)
    requires IsCut(locals, data, cu, padded) && i < |data.tokens|
    requires OverRanks(lossFn, f, |locals|, level, validSeqs, validToks)
    ensures lossFn(PieceOf(locals, data, cu, padded, i))
         == LossFn(level, validSeqs, validToks)(PackedRow(logits, data, cu, padded, i, f))
  {
    PieceIsSharded(locals, logits, data, cu, padded, width, i);
    var piece := PieceOf(locals, data, cu, padded, i);
    assert FitsLoss(logits[padded[i]..padded[i + 1]], piece.tokens, piece.tokenMask);
  }

  lemma {:induction false} SameCalls<P, Q>(a: seq<P>, f: P -> CallResult, b: seq<Q>, g: Q -> CallResult)
    requires |a| == |b| && forall i :: 0 <= i < |a| ==> f(a[i]) == g(b[i])
    ensures Accumulated(a, f) == Accumulated(b, g)
  {
    if a != [] {
      SameCalls(a[..|a| - 1], f, b[..|b| - 1], g);
    }
  }

  /**
   * Packing refines the batch loss, for any number of ranks: with global normalisers, and masks that vanish beyond each
   * unpadded length, the wrapper's loss and metrics are those of one call on the unpacked batch, save the importance ratio
   * of whole sequences.
   */
  lemma PackedIsUnpacked<L(!new), D(!new), C>(locals: seq<seq<L>>, unpacked: seq<seq<L>>, logits: seq<L>, data: Batch<D>,
                                              cu: seq<nat>, padded: seq<nat>, width: nat, level: Level,
                                              validSeqs: Option<real>, validToks: Option<real>, f: Evaluator<L, D, C>,
                                              lossFn: Piece<L, D> -> CallResult)
    requires LossNormaliser(level, validSeqs, validToks).Some? && validToks.Some?
    requires IsPacked(logits, data, cu, padded, width) && Unpacks(unpacked, logits, data, cu, padded, width)
    requires HeldByRanks(locals, logits, padded) && IsCut(locals, data, cu, padded)
    requires MasksVanish(data, cu) && CutInvariant(f) && OverRanks(lossFn, f, |locals|, level, validSeqs, validToks)
    ensures SameSave(Accumulated(Pieces(locals, data, cu, padded), lossFn),
                     CallOn(UnpackedRows(unpacked, data, width, f), level, validSeqs, validToks), level)
  {
    var pieces, rows := Pieces(locals, data, cu, padded), PackedRows(logits, data, cu, padded, width, f);
    forall i | 0 <= i < |pieces| ensures lossFn(pieces[i]) == LossFn(level, validSeqs, validToks)(rows[i]) {
      PieceCall(locals, logits, data, cu, padded, width, level, validSeqs, validToks, f, lossFn, i);
    }
    SameCalls(pieces, lossFn, rows, LossFn(level, validSeqs, validToks));
    PackedRowsAddUp(unpacked, logits, data, cu, padded, width, level, validSeqs, validToks, f);
  }
}
