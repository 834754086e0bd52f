/**
 * Top-k over a sharded vocabulary: each rank selects its own top entries, the candidates are gathered, and the top of
 * the candidates is the top of the whole row, however ties are broken.
 */
module VocabTopK {
  import opened Seqs
  import opened Lists

  /** `k` distinct positions of `x`, largest value first, that leave nothing larger behind. */
  ghost predicate IsTopK(x: seq<real>, k: nat, values: seq<real>, indices: seq<nat>) {
    && |values| == |indices| == k <= |x|
    && (forall i :: 0 <= i < k ==> indices[i] < |x| && values[i] == x[indices[i]])
    && (forall i, j :: 0 <= i < j < k ==> indices[i] != indices[j])
    && (forall i, j :: 0 <= i < j < k ==> values[i] >= values[j])
    && (forall j :: 0 <= j < |x| && j !in indices ==> k > 0 ==> x[j] <= values[k - 1])
  }

  lemma {:induction false} DistinctCount(s: seq<nat>, bag: set<nat>)
    requires forall i, j :: 0 <= i < j < |s| ==> s[i] != s[j]
    requires forall i :: 0 <= i < |s| ==> s[i] in bag
    ensures |s| <= |bag|
  {
    if s != [] {
      var n := |s| - 1;
      DistinctCount(s[..n], bag - {s[n]});
    }
  }

  function Elements(s: seq<nat>): set<nat> { set i | 0 <= i < |s| :: s[i] }

  lemma {:induction false} ElementsAtMost(s: seq<nat>)
    ensures |Elements(s)| <= |s|
  {
    if s != [] {
      var n := |s| - 1;
      ElementsAtMost(s[..n]);
      assert Elements(s) == Elements(s[..n]) + {s[n]};
    }
  }

  /** More distinct values cannot all occur in a shorter list. */
  lemma Pigeonhole(many: seq<nat>, few: seq<nat>)
    requires |few| < |many|
    requires forall i, j :: 0 <= i < j < |many| ==> many[i] != many[j]
    ensures exists i :: 0 <= i < |many| && many[i] !in few
  {
    if forall i :: 0 <= i < |many| ==> many[i] in few {
      DistinctCount(many, Elements(few));
      ElementsAtMost(few);
    }
  }

  /** Anything larger than the `i`-th selected value was selected before it. */
  lemma LargerIsEarlier(x: seq<real>, k: nat, values: seq<real>, indices: seq<nat>, i: nat, q: nat)
    requires IsTopK(x, k, values, indices) && i < k && q < |x| && x[q] > values[i]
    ensures q in indices[..i]
  {
    assert q in indices;
    var p :| 0 <= p < k && indices[p] == q;
    assert values[p] == x[q];
    assert indices[..i][p] == q;
  }

  /** The values of a top-k are determined; only the choice among equal values is free. */
  lemma TopKValueAtMost(x: seq<real>, k: nat, v: seq<real>, a: seq<nat>, w: seq<real>, b: seq<nat>, i: nat)
    requires IsTopK(x, k, v, a) && IsTopK(x, k, w, b) && i < k
    ensures w[i] <= v[i]
  {
    if v[i] < w[i] {
      var early := b[..i + 1];
      forall j | 0 <= j < i + 1 ensures early[j] in a[..i] {
        assert x[b[j]] == w[j] >= w[i];
        LargerIsEarlier(x, k, v, a, i, b[j]);
      }
      Pigeonhole(early, a[..i]);
    }
  }

  lemma TopKValuesAreUnique(x: seq<real>, k: nat, v: seq<real>, a: seq<nat>, w: seq<real>, b: seq<nat>)
    requires IsTopK(x, k, v, a) && IsTopK(x, k, w, b)
    ensures v == w
  {
    forall i | 0 <= i < k ensures v[i] == w[i] {
      TopKValueAtMost(x, k, v, a, w, b, i);
      TopKValueAtMost(x, k, w, b, v, a, i);
    }
  }

  // ---- The distributed selection ----

  /** What one rank contributes: its top entries, and their global positions. */
  datatype Candidates = Candidates(values: seq<real>, indices: seq<nat>)

  /** Rank `r` owns `size` entries from `r * size` on. */
  ghost predicate IsLocalTop(c: Candidates, local: seq<real>, k: nat, start: nat) {
    && |c.values| == |c.indices| == k
    && (forall i :: 0 <= i < k ==> start <= c.indices[i])
    && IsTopK(local, k, c.values, seq(k, i requires 0 <= i < k && start <= c.indices[i] && |c.indices| == k => c.indices[i] - start))
  }

  function ValueLists(cs: seq<Candidates>): (r: seq<seq<real>>)
    ensures |r| == |cs|
  {
    seq(|cs|, r requires 0 <= r < |cs| => cs[r].values)
  }

  function IndexLists(cs: seq<Candidates>): (r: seq<seq<nat>>)
    ensures |r| == |cs|
  {
    seq(|cs|, r requires 0 <= r < |cs| => cs[r].indices)
  }

  /** The gathered candidates, in rank order. */
  function AllValues(cs: seq<Candidates>): seq<real> { Flatten(ValueLists(cs)) }

  function AllIndices(cs: seq<Candidates>): seq<nat> { Flatten(IndexLists(cs)) }

  /** All ranks own `size` entries and contribute their top `k`. */
  ghost predicate Contributes(locals: seq<seq<real>>, cs: seq<Candidates>, size: nat, k: nat) {
    && 0 < size
    && |cs| == |locals|
    && (forall r :: 0 <= r < |locals| ==> |locals[r]| == size)
    && (forall r :: 0 <= r < |locals| ==> IsLocalTop(cs[r], locals[r], k, BlockStart(r, size)))
  }

  function BlockStart(r: nat, size: nat): nat { r * size }

  /** An entry of a list of equal parts, by part and offset. */
  lemma UniformAt<T>(parts: seq<seq<T>>, size: nat, r: nat, t: nat)
    requires r < |parts| && t < size && forall k :: 0 <= k < |parts| ==> |parts[k]| == size
    ensures BlockStart(r, size) + t < |Flatten(parts)|
    ensures Flatten(parts)[BlockStart(r, size) + t] == parts[r][t]
  {
    UniformSlice(parts, size, r);
    SliceAt(Flatten(parts), BlockStart(r, size), size, t);
  }

  lemma LocalTopAt(c: Candidates, local: seq<real>, k: nat, start: nat, i: nat)
    requires IsLocalTop(c, local, k, start) && i < k
    ensures start <= c.indices[i] < start + |local| && c.values[i] == local[c.indices[i] - start]
  {
    var offsets := seq(k, n requires 0 <= n < k && start <= c.indices[n] && |c.indices| == k => c.indices[n] - start);
    assert offsets[i] < |local| && c.values[i] == local[offsets[i]];
  }

  /** Candidate `i` of rank `r` in the gathered lists. */
  lemma GatheredAt(locals: seq<seq<real>>, cs: seq<Candidates>, size: nat, k: nat, r: nat, i: nat)
    requires Contributes(locals, cs, size, k) && r < |cs| && i < k
    ensures var p := BlockStart(r, k) + i;
      && p < |AllValues(cs)| && AllValues(cs)[p] == cs[r].values[i]
      && p < |AllIndices(cs)| && AllIndices(cs)[p] == cs[r].indices[i]
  {
    forall s | 0 <= s < |cs| ensures |ValueLists(cs)[s]| == k && |IndexLists(cs)[s]| == k {
      assert IsLocalTop(cs[s], locals[s], k, BlockStart(s, size));
    }
    UniformAt(ValueLists(cs), k, r, i);
    UniformAt(IndexLists(cs), k, r, i);
  }

  /** A candidate's index points at its value in the full row, within its rank's block. */
  lemma CandidateAt(locals: seq<seq<real>>, cs: seq<Candidates>, size: nat, k: nat, r: nat, i: nat)
    requires Contributes(locals, cs, size, k) && r < |cs| && i < k
    ensures |cs[r].indices| == |cs[r].values| == k
    ensures BlockStart(r, size) <= cs[r].indices[i] < BlockStart(r, size) + size
    ensures cs[r].indices[i] < |Flatten(locals)| && cs[r].values[i] == Flatten(locals)[cs[r].indices[i]]
  {
    assert IsLocalTop(cs[r], locals[r], k, BlockStart(r, size));
    LocalTopAt(cs[r], locals[r], k, BlockStart(r, size), i);
    UniformAt(locals, size, r, cs[r].indices[i] - BlockStart(r, size));
  }

  /** Every position below `n * size` is an offset in one block. */
  lemma Decompose(p: nat, n: nat, size: nat) returns (r: nat, i: nat)
    requires p < n * size
    ensures 0 < size && r < n && i < size && p == BlockStart(r, size) + i
  {
    assert size == 0 ==> n * size == 0;
    r, i := p / size, p % size;
    assert p == r * size + i;
    assert r >= n ==> r * size >= n * size;
  }

  lemma BlocksDisjoint(r: nat, s: nat, size: nat)
    requires r < s
    ensures BlockStart(r, size) + size <= BlockStart(s, size)
  {
    assert (r + 1) * size <= s * size;
  }

  /** Two different candidates are different entries of the row. */
  lemma CandidatesDiffer(locals: seq<seq<real>>, cs: seq<Candidates>, size: nat, k: nat, r: nat, i: nat, s: nat, j: nat)
    requires Contributes(locals, cs, size, k) && r < |cs| && s < |cs| && i < k && j < k && (r != s || i != j)
    ensures |cs[r].indices| == |cs[s].indices| == k && cs[r].indices[i] != cs[s].indices[j]
  {
    CandidateAt(locals, cs, size, k, r, i);
    CandidateAt(locals, cs, size, k, s, j);
    if r < s {
      BlocksDisjoint(r, s, size);
    } else if s < r {
      BlocksDisjoint(s, r, size);
    } else {
      assert IsLocalTop(cs[r], locals[r], k, BlockStart(r, size));
      SameRankDistinct(cs[r], locals[r], k, BlockStart(r, size), i, j);
    }
  }

  lemma CandidatesDistinct(locals: seq<seq<real>>, cs: seq<Candidates>, size: nat, k: nat, p: nat, q: nat, total: nat)
    requires Contributes(locals, cs, size, k) && total == |cs| * k && p < q < total
    ensures p < |AllIndices(cs)| && q < |AllIndices(cs)|
    ensures AllIndices(cs)[p] != AllIndices(cs)[q]
  {
    var r, i := Decompose(p, |cs|, k);
    var s, j := Decompose(q, |cs|, k);
    GatheredAt(locals, cs, size, k, r, i);
    GatheredAt(locals, cs, size, k, s, j);
    CandidatesDiffer(locals, cs, size, k, r, i, s, j);
  }

  lemma CandidatesDistinctAnyway(locals: seq<seq<real>>, cs: seq<Candidates>, size: nat, k: nat, p: nat, q: nat, total: nat)
    requires Contributes(locals, cs, size, k) && total == |cs| * k && p < total && q < total && p != q
    ensures p < |AllIndices(cs)| && q < |AllIndices(cs)| && AllIndices(cs)[p] != AllIndices(cs)[q]
  {
    if p < q {
      CandidatesDistinct(locals, cs, size, k, p, q, total);
    } else {
      CandidatesDistinct(locals, cs, size, k, q, p, total);
    }
  }

  lemma SameRankDistinct(c: Candidates, local: seq<real>, k: nat, start: nat, i: nat, j: nat)
    requires IsLocalTop(c, local, k, start) && i < k && j < k && i != j
    ensures c.indices[i] != c.indices[j]
  {
    var offsets := seq(k, n requires 0 <= n < k && start <= c.indices[n] && |c.indices| == k => c.indices[n] - start);
    assert offsets[i] != offsets[j];
  }

  /**
   * An entry that its own rank passed over is no larger than any of that rank's `k` candidates, so it is no larger
   * than the last of the `k` candidates selected overall.
   */
  lemma PassedOverIsSmall(locals: seq<seq<real>>, cs: seq<Candidates>, size: nat, k: nat,
                          values: seq<real>, positions: seq<nat>, r: nat, x: real)
    requires Contributes(locals, cs, size, k) && r < |cs| && 0 < k
    requires IsTopK(AllValues(cs), k, values, positions)
    requires forall i :: 0 <= i < k ==> x <= cs[r].values[i]
    ensures x <= values[k - 1]
  {
    if x > values[k - 1] {
      var all := AllValues(cs);
      var block := Range(BlockStart(r, k), k);
      forall i | 0 <= i < k ensures block[i] in positions[..k - 1] {
        GatheredAt(locals, cs, size, k, r, i);
        LargerIsEarlier(all, k, values, positions, k - 1, block[i]);
      }
      Pigeonhole(block, positions[..k - 1]);
    }
  }

  lemma GatheredLength(locals: seq<seq<real>>, cs: seq<Candidates>, size: nat, k: nat)
    requires Contributes(locals, cs, size, k)
    ensures |AllValues(cs)| == |AllIndices(cs)| == |cs| * k
    ensures |Flatten(locals)| == |locals| * size
  {
    forall s | 0 <= s < |cs| ensures |ValueLists(cs)[s]| == k && |IndexLists(cs)[s]| == k {
      assert IsLocalTop(cs[s], locals[s], k, BlockStart(s, size));
    }
    UniformOffset(ValueLists(cs), k, |cs|);
    UniformOffset(IndexLists(cs), k, |cs|);
    UniformOffset(locals, size, |cs|);
    assert ValueLists(cs)[..|cs|] == ValueLists(cs) && IndexLists(cs)[..|cs|] == IndexLists(cs) && locals[..|cs|] == locals;
  }

  /** Every gathered index points at its gathered value. */
  lemma GatheredPoints(locals: seq<seq<real>>, cs: seq<Candidates>, size: nat, k: nat, p: nat, total: nat)
    requires Contributes(locals, cs, size, k) && total == |cs| * k && p < total
    ensures p < |AllValues(cs)| && p < |AllIndices(cs)|
    ensures AllIndices(cs)[p] < |Flatten(locals)|
    ensures AllValues(cs)[p] == Flatten(locals)[AllIndices(cs)[p]]
  {
    var r, i := Decompose(p, |cs|, k);
    GatheredAt(locals, cs, size, k, r, i);
    CandidateAt(locals, cs, size, k, r, i);
  }

  /** An entry that its rank offered but that was not selected is no larger than the last selected one. */
  lemma OfferedIsSmall(locals: seq<seq<real>>, cs: seq<Candidates>, size: nat, k: nat, wanted: nat, values: seq<real>,
                       positions: seq<nat>, r: nat, i: nat)
    requires Contributes(locals, cs, size, k) && r < |cs| && i < k && 0 < wanted
    requires IsTopK(AllValues(cs), wanted, values, positions) && |AllValues(cs)| == |AllIndices(cs)|
    requires i < |cs[r].indices| && i < |cs[r].values|
    requires forall n :: 0 <= n < wanted ==> AllIndices(cs)[positions[n]] != cs[r].indices[i]
    ensures cs[r].values[i] <= values[wanted - 1]
  {
    GatheredAt(locals, cs, size, k, r, i);
  }

  /** An entry that was not selected in the end is no larger than the last selected one. */
  lemma UnselectedIsSmall(locals: seq<seq<real>>, cs: seq<Candidates>, size: nat, k: nat, limit: nat, wanted: nat,
                          values: seq<real>, positions: seq<nat>, j: nat)
    requires Contributes(locals, cs, size, k) && k == Min(limit, size) && 0 < wanted == Min(limit, |locals| * size)
    requires IsTopK(AllValues(cs), wanted, values, positions)
    requires forall n :: 0 <= n < wanted ==> positions[n] < |AllIndices(cs)|
    requires j < |Flatten(locals)| && forall n :: 0 <= n < wanted ==> AllIndices(cs)[positions[n]] != j
    ensures Flatten(locals)[j] <= values[wanted - 1]
  {
    GatheredLength(locals, cs, size, k);
    var r, t := Decompose(j, |locals|, size);
    UniformAt(locals, size, r, t);
    var c, start := cs[r], BlockStart(r, size);
    assert IsLocalTop(c, locals[r], k, start);
    if i: nat :| i < k && c.indices[i] == j {
      CandidateAt(locals, cs, size, k, r, i);
      OfferedIsSmall(locals, cs, size, k, wanted, values, positions, r, i);
    } else {
      PassedOverLocally(c, locals[r], k, start, t);
      EnoughCandidates(limit, size, |locals|, k, wanted);
      PassedOverIsSmall(locals, cs, size, k, values, positions, r, locals[r][t]);
    }
  }

  /** A rank that passes an entry over offers only candidates at least as large, and `k` of them is all it may offer. */
  lemma PassedOverLocally(c: Candidates, local: seq<real>, k: nat, start: nat, t: nat)
    requires IsLocalTop(c, local, k, start) && t < |local| && forall i :: 0 <= i < k ==> c.indices[i] != start + t
    ensures k < |local|
    ensures forall i :: 0 <= i < k ==> local[t] <= c.values[i]
  {
    var offsets := seq(k, n requires 0 <= n < k && start <= c.indices[n] && |c.indices| == k => c.indices[n] - start);
    assert t !in offsets;
    var seen := offsets + [t];
    forall i | 0 <= i < |seen| ensures seen[i] in Range(0, |local|) {
      assert Range(0, |local|)[seen[i]] == seen[i];
    }
    if k >= |local| {
      Pigeonhole(seen, Range(0, |local|));
    }
  }

  lemma EnoughCandidates(limit: nat, size: nat, ranks: nat, k: nat, wanted: nat)
    requires k == Min(limit, size) < size && 0 < ranks && 0 < wanted == Min(limit, ranks * size)
    ensures k == limit == wanted
  {
    assert ranks * size >= size;
  }

  /**
   * The second selection yields the top of the whole row: distinct global positions, pointing at the selected values,
   * in descending order, with nothing larger left out. Ties may have been broken in any way in both selections.
   */
  lemma TopOfCandidatesIsTop(locals: seq<seq<real>>, cs: seq<Candidates>, size: nat, limit: nat,
                             values: seq<real>, positions: seq<nat>)
    requires 0 < |locals| && Contributes(locals, cs, size, Min(limit, size))
    requires IsTopK(AllValues(cs), Min(limit, |locals| * size), values, positions)
    ensures forall n :: 0 <= n < |positions| ==> positions[n] < |AllIndices(cs)|
    ensures IsTopK(Flatten(locals), Min(limit, |locals| * size), values, Select(AllIndices(cs), positions))
  {
    var k, wanted := Min(limit, size), Min(limit, |locals| * size);
    GatheredLength(locals, cs, size, k);
    var chosen := Select(AllIndices(cs), positions);
    forall n | 0 <= n < wanted ensures chosen[n] < |Flatten(locals)| && values[n] == Flatten(locals)[chosen[n]] {
      GatheredPoints(locals, cs, size, k, positions[n], |cs| * k);
    }
    forall m, n | 0 <= m < n < wanted ensures chosen[m] != chosen[n] {
      CandidatesDistinctAnyway(locals, cs, size, k, positions[m], positions[n], |cs| * k);
    }
    if wanted > 0 {
      forall j | 0 <= j < |Flatten(locals)| && j !in chosen ensures Flatten(locals)[j] <= values[wanted - 1] {
        forall n | 0 <= n < wanted ensures AllIndices(cs)[positions[n]] != j {
          assert chosen[n] in chosen;
        }
        UnselectedIsSmall(locals, cs, size, k, limit, wanted, values, positions, j);
      }
    }
  }

  // ---- A selection, and the whole operation ----

  /** Positions from largest to smallest value, equal values in order of position. */
  function Descending(x: seq<real>): (r: seq<nat>)
    ensures |r| == |x| && forall i :: 0 <= i < |r| ==> r[i] < |x|
  {
    if x == [] then [] else PlaceDescending(Descending(x[..|x| - 1]), x, |x| - 1)
  }

  function PlaceDescending(order: seq<nat>, x: seq<real>, p: nat): (r: seq<nat>)
    requires p < |x| && forall i :: 0 <= i < |order| ==> order[i] < |x|
    ensures |r| == |order| + 1 && forall i :: 0 <= i < |r| ==> r[i] < |x|
  {
    if order == [] || x[order[|order| - 1]] >= x[p] then order + [p]
    else PlaceDescending(order[..|order| - 1], x, p) + [order[|order| - 1]]
  }

  lemma {:induction false} PlaceElements(order: seq<nat>, x: seq<real>, p: nat)
    requires p < |x| && forall i :: 0 <= i < |order| ==> order[i] < |x|
    ensures multiset(PlaceDescending(order, x, p)) == multiset(order) + multiset{p}
  {
    if order != [] {
      var n := |order| - 1;
      assert order == order[..n] + [order[n]];
      if x[order[n]] < x[p] {
        PlaceElements(order[..n], x, p);
      }
    }
  }

  ghost predicate Descends(order: seq<nat>, x: seq<real>) {
    && (forall i :: 0 <= i < |order| ==> order[i] < |x|)
    && (forall i, j :: 0 <= i < j < |order| ==> x[order[i]] >= x[order[j]])
  }

  lemma {:induction false} PlaceDescends(order: seq<nat>, x: seq<real>, p: nat)
    requires p < |x| && Descends(order, x)
    ensures Descends(PlaceDescending(order, x, p), x)
  {
    if order != [] {
      var n := |order| - 1;
      if x[order[n]] < x[p] {
        var r := PlaceDescending(order[..n], x, p);
        PlaceDescends(order[..n], x, p);
        PlaceElements(order[..n], x, p);
        forall i | 0 <= i < |r| ensures x[r[i]] >= x[order[n]] {
          assert r[i] in multiset(r);
          assert r[i] == p || r[i] in order[..n];
        }
      }
    }
  }

  lemma {:induction false} DescendingPermutes(x: seq<real>)
    ensures IsPermutation(Descending(x), |x|)
  {
    if x != [] {
      var n := |x| - 1;
      DescendingPermutes(x[..n]);
      PlaceElements(Descending(x[..n]), x, n);
      assert Range(0, n + 1) == Range(0, n) + [n];
    }
  }

  lemma {:induction false} DescendingSorts(x: seq<real>)
    ensures Descends(Descending(x), x)
  {
    if x != [] {
      var n := |x| - 1;
      DescendingSorts(x[..n]);
      assert Descends(Descending(x[..n]), x);
      PlaceDescends(Descending(x[..n]), x, n);
    }
  }

  /** One way of choosing a top-k. */
  function TopIndices(x: seq<real>, k: nat): seq<nat>
    requires k <= |x|
  {
    Descending(x)[..k]
  }

  lemma TopIndicesAreTop(x: seq<real>, k: nat)
    requires k <= |x|
    ensures forall i :: 0 <= i < k ==> TopIndices(x, k)[i] < |x|
    ensures IsTopK(x, k, Select(x, TopIndices(x, k)), TopIndices(x, k))
  {
    var order, top := Descending(x), TopIndices(x, k);
    DescendingSorts(x);
    DescendingPermutes(x);
    PermutationMeans(order, |x|);
    if k > 0 {
      forall j | 0 <= j < |x| ensures j in top || x[j] <= x[top[k - 1]] {
        TopOrBelow(order, x, k, j);
      }
    }
  }

  /** An index that is not among the first `k` of a descending order stands behind them. */
  lemma TopOrBelow(order: seq<nat>, x: seq<real>, k: nat, j: nat)
    requires 0 < k <= |x| == |order| && j < |x| && IsPermutation(order, |x|) && Descends(order, x)
    ensures order[k - 1] < |x|
    ensures j in order[..k] || x[j] <= x[order[k - 1]]
  {
    PermutationMeans(order, |x|);
    ArgSortInverts(order, j);
    var p := ArgSort(order)[j];
    assert order[p] == j;
    if p < k {
      assert order[..k][p] == j;
    }
  }

  /** `local_vals, local_idx_global` of one rank. */
  function LocalCandidates(local: seq<real>, k: nat, start: nat): Candidates
    requires k <= |local|
  {
    var top := TopIndices(local, k);
    Candidates(seq(k, i requires 0 <= i < k => local[top[i]]), seq(k, i requires 0 <= i < k => top[i] + start))
  }

  lemma LocalCandidatesAreTop(local: seq<real>, k: nat, start: nat)
    requires k <= |local|
    ensures IsLocalTop(LocalCandidates(local, k, start), local, k, start)
  {
    TopIndicesAreTop(local, k);
    var c := LocalCandidates(local, k, start);
    assert c.values == Select(local, TopIndices(local, k));
    assert seq(k, i requires 0 <= i < k && start <= c.indices[i] && |c.indices| == k => c.indices[i] - start)
        == TopIndices(local, k);
  }

  /** The top-k of one position, from all ranks' shares of its row. */
  method TopAtPosition(locals: seq<seq<real>>, size: nat, k: nat) returns (values: seq<real>, indices: seq<nat>)
    requires 0 < |locals| && 0 < size && forall r :: 0 <= r < |locals| ==> |locals[r]| == size
    ensures IsTopK(Flatten(locals), Min(k, |locals| * size), values, indices)
  {
    var cs: seq<Candidates> := [];
    for r := 0 to |locals|
      invariant |cs| == r
      invariant forall s :: 0 <= s < r ==> IsLocalTop(cs[s], locals[s], Min(k, size), BlockStart(s, size))
    {
      LocalCandidatesAreTop(locals[r], Min(k, size), BlockStart(r, size));
      cs := cs + [LocalCandidates(locals[r], Min(k, size), BlockStart(r, size))];
    }
    GatheredLength(locals, cs, size, Min(k, size));
    EnoughInAll(k, size, |locals|);
    var positions := TopIndices(AllValues(cs), Min(k, |locals| * size));
    TopIndicesAreTop(AllValues(cs), Min(k, |locals| * size));
    values := Select(AllValues(cs), positions);
    TopOfCandidatesIsTop(locals, cs, size, k, values, positions);
    indices := Select(AllIndices(cs), positions);
  }

  lemma EnoughInAll(k: nat, size: nat, ranks: nat)
    requires 0 < ranks
    ensures 0 <= Min(k, ranks * size) <= ranks * Min(k, size)
  {
    if k <= size {
      assert ranks * k >= k;
    }
  }

  /**
   * `distributed_vocab_topk`: the sequence is processed in chunks, each position on its own. Every position gets the
   * top-k of its whole row. It fails only for an empty sequence or an empty chunk.
   */
  method DistributedVocabTopK(positions: seq<seq<seq<real>>>, ranks: nat, size: nat, k: nat, chunkSize: Option<nat>)
    returns (r: Option<(seq<seq<real>>, seq<seq<nat>>)>)
    requires 0 < ranks && 0 < size
    requires forall p :: 0 <= p < |positions| ==> |positions[p]| == ranks
    requires forall p, s :: 0 <= p < |positions| && 0 <= s < ranks ==> |positions[p][s]| == size
    ensures r.Some? <==> positions != [] && chunkSize != Some(0)
    ensures r.Some? ==> |r.value.0| == |r.value.1| == |positions|
    ensures r.Some? ==> forall p :: 0 <= p < |positions| ==>
      IsTopK(Flatten(positions[p]), Min(k, ranks * size), r.value.0[p], r.value.1[p])
  {
    var step := if chunkSize.Some? then chunkSize.value else |positions|;
    if step == 0 {
      return None;
    }
    var values: seq<seq<real>>, indices: seq<seq<nat>> := [], [];
    var s0 := 0;
    while s0 < |positions|
      invariant |values| == |indices| == Min(s0, |positions|)
      invariant forall p :: 0 <= p < |values| ==> IsTopK(Flatten(positions[p]), Min(k, ranks * size), values[p], indices[p])
    {
      var s1 := Min(|positions|, s0 + step);
      for p := s0 to s1
        invariant |values| == |indices| == p
        invariant forall q :: 0 <= q < p ==> IsTopK(Flatten(positions[q]), Min(k, ranks * size), values[q], indices[q])
      {
        var top, at := TopAtPosition(positions[p], size, k);
        values, indices := values + [top], indices + [at];
      }
      s0 := s0 + step;
    }
    if positions == [] {
      return None;
    }
    return Some((values, indices));
  }
}
