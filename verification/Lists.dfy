/** Flattening, striding, selecting and permuting lists: the index vocabulary of batch sharding. */
module Lists {

  // ---- Flattening ----

  function Flatten<T>(parts: seq<seq<T>>): seq<T> {
    if parts == [] then [] else Flatten(parts[..|parts| - 1]) + parts[|parts| - 1]
  }

  lemma FlattenSnoc<T>(parts: seq<seq<T>>, part: seq<T>)
    ensures Flatten(parts + [part]) == Flatten(parts) + part
  {
    assert (parts + [part])[..|parts|] == parts;
  }

  lemma {:induction false} FlattenConcat<T>(a: seq<seq<T>>, b: seq<seq<T>>)
    ensures Flatten(a + b) == Flatten(a) + Flatten(b)
  {
    if b == [] {
      assert a + b == a;
    } else {
      var n := |b| - 1;
      assert (a + b)[..|a| + n] == a + b[..n];
      FlattenConcat(a, b[..n]);
    }
  }

  /** Where part `i` starts in the flattened list. */
  function Offset<T>(parts: seq<seq<T>>, i: nat): nat
    requires i <= |parts|
  {
    |Flatten(parts[..i])|
  }

  /** Cutting the flattened list at the offsets gives the parts back. */
  lemma {:induction false} FlattenSlice<T>(parts: seq<seq<T>>, i: nat)
    requires i < |parts|
    ensures 0 <= Offset(parts, i) <= Offset(parts, i + 1) <= |Flatten(parts)|
    ensures Flatten(parts)[Offset(parts, i)..Offset(parts, i + 1)] == parts[i]
    ensures Offset(parts, i + 1) == Offset(parts, i) + |parts[i]|
  {
    assert parts == parts[..i + 1] + parts[i + 1..];
    assert parts[..i + 1] == parts[..i] + [parts[i]];
    FlattenConcat(parts[..i + 1], parts[i + 1..]);
    FlattenSnoc(parts[..i], parts[i]);
  }

  /** With parts of equal size the offsets are multiples of that size. */
  lemma {:induction false} UniformOffset<T>(parts: seq<seq<T>>, size: nat, i: nat)
    requires i <= |parts| && forall k :: 0 <= k < |parts| ==> |parts[k]| == size
    ensures Offset(parts, i) == i * size
  {
    if i > 0 {
      UniformOffset(parts, size, i - 1);
      FlattenSlice(parts, i - 1);
      assert i * size == (i - 1) * size + size;
    }
  }

  /** Cutting a list of equal parts at a multiple of their size gives a part back. */
  lemma UniformSlice<T>(parts: seq<seq<T>>, size: nat, i: nat)
    requires i < |parts| && forall k :: 0 <= k < |parts| ==> |parts[k]| == size
    ensures |Flatten(parts)| == |parts| * size >= i * size + size
    ensures Flatten(parts)[i * size..i * size + size] == parts[i]
  {
    UniformOffset(parts, size, i);
    UniformOffset(parts, size, |parts|);
    FlattenSlice(parts, i);
    assert parts[..|parts|] == parts;
  }

  lemma {:induction false} FlattenMultisetUpdate<T>(parts: seq<seq<T>>, k: nat, x: T)
    requires k < |parts|
    ensures multiset(Flatten(parts[k := parts[k] + [x]])) == multiset(Flatten(parts)) + multiset{x}
  {
    var n := |parts| - 1;
    if k == n {
      assert parts[k := parts[k] + [x]] == parts[..n] + [parts[n] + [x]];
      FlattenSnoc(parts[..n], parts[n] + [x]);
    } else {
      FlattenMultisetUpdate(parts[..n], k, x);
      assert parts[k := parts[k] + [x]][..n] == parts[..n][k := parts[k] + [x]];
    }
  }

  // ---- Striding ----

  /** `x[start::step]`. */
  function EveryNth<T>(x: seq<T>, start: nat, step: nat): seq<T>
    requires 0 < step
    decreases |x| - start
  {
    if start >= |x| then [] else [x[start]] + EveryNth(x, start + step, step)
  }

  /** Counting up from `start` by `step` reaches `n`. */
  predicate Hits(start: nat, n: nat, step: nat)
    requires 0 < step
    decreases n - start
  {
    start == n || (start < n && Hits(start + step, n, step))
  }

  lemma {:induction false} EveryNthSnoc<T>(x: seq<T>, b: T, start: nat, step: nat)
    requires 0 < step
    ensures EveryNth(x + [b], start, step) == EveryNth(x, start, step) + (if Hits(start, |x|, step) then [b] else [])
    decreases |x| - start
  {
    if start < |x| {
      EveryNthSnoc(x, b, start + step, step);
    }
  }

  /** Row `i` of `n` rows of one size ends within them. */
  lemma RowWithin(i: nat, n: nat, size: nat)
    requires i < n
    ensures 0 <= i * size && i * size + size <= n * size
  {
    var rest := n - i - 1;
    assert n * size == i * size + size + rest * size;
  }

  lemma ModUnique(a: int, q: int, r: int, n: int)
    requires 0 <= r < n && a == q * n + r
    ensures a / n == q && a % n == r
  {
    var d := a / n - q;
    assert d * n == r - a % n;
    assert d >= 1 ==> d * n >= n;
    assert d <= -1 ==> d * n <= -n;
  }

  lemma {:induction false} HitsByResidue(start: nat, n: nat, step: nat)
    requires 0 < step
    ensures Hits(start, n, step) <==> start <= n && (n - start) % step == 0
    decreases n - start
  {
    if start < n {
      HitsByResidue(start + step, n, step);
      var q, r := (n - start) / step, (n - start) % step;
      if start + step <= n {
        assert n - (start + step) == (q - 1) * step + r;
        ModUnique(n - (start + step), q - 1, r, step);
      } else {
        ModUnique(n - start, 0, n - start, step);
      }
    }
  }

  predicate IsMultiple(x: nat, multiple: nat)
    requires 0 < multiple
  {
    x % multiple == 0
  }

  /** The least multiple that is not below `length`. */
  ghost predicate IsLeastMultiple(x: nat, length: nat, multiple: nat)
    requires 0 < multiple
  {
    IsMultiple(x, multiple) && length <= x && forall y: nat :: IsMultiple(y, multiple) && length <= y ==> x <= y
  }

  /** Rounding up gives it. */
  lemma RoundedUpIsLeast(length: nat, multiple: nat)
    requires 0 < multiple
    ensures IsLeastMultiple((length + multiple - 1) / multiple * multiple, length, multiple)
  {
    var m := length + multiple - 1;
    var q := m / multiple;
    assert m == q * multiple + m % multiple;
    ModUnique(q * multiple, q, 0, multiple);
    forall y: nat | IsMultiple(y, multiple) && length <= y ensures q * multiple <= y {
      MultipleAbove(y, y / multiple, q, length, multiple);
    }
  }

  lemma MultipleAbove(y: nat, p: nat, q: nat, length: nat, multiple: nat)
    requires 0 < multiple && y == p * multiple + y % multiple && y % multiple == 0 && length <= y
    requires q * multiple <= length + multiple - 1
    ensures q * multiple <= y
  {
    if p < q {
      RowWithin(p, q, multiple);
    } else {
      assert p * multiple >= q * multiple by {
        assert p * multiple == q * multiple + (p - q) * multiple;
      }
    }
  }

  /** Of the starts below the step exactly one reaches `n`: its residue. */
  lemma HitsOnce(s: nat, n: nat, step: nat)
    requires s < step
    ensures Hits(s, n, step) <==> s == n % step
  {
    HitsByResidue(s, n, step);
    var q, r := n / step, n % step;
    assert n == q * step + r;
    if s <= r {
      ModUnique(n - s, q, r - s, step);
    } else {
      assert n - s == (q - 1) * step + (step + r - s);
      ModUnique(n - s, q - 1, step + r - s, step);
    }
  }

  /** The `step` strided sublists of a list. */
  function Strides<T>(x: seq<T>, step: nat): seq<seq<T>>
    requires 0 < step
  {
    seq(step, s requires 0 <= s => EveryNth(x, s, step))
  }

  /** The next element of a list goes to the stride numbered by its position modulo the step. */
  lemma StridesSnoc<T>(x: seq<T>, b: T, step: nat, k: nat)
    requires 0 < step && k == |x| % step
    ensures Strides(x + [b], step) == Strides(x, step)[k := Strides(x, step)[k] + [b]]
  {
    var before := Strides(x, step);
    forall s: nat | s < step ensures Strides(x + [b], step)[s] == before[k := before[k] + [b]][s] {
      EveryNthSnoc(x, b, s, step);
      HitsOnce(s, |x|, step);
      assert before[s] + [] == before[s];
    }
  }

  /** Striding loses and duplicates nothing. */
  lemma {:induction false} StridesConserve<T>(x: seq<T>, step: nat)
    requires 0 < step
    ensures multiset(Flatten(Strides(x, step))) == multiset(x)
  {
    if x == [] {
      AllEmpty(Strides(x, step));
    } else {
      var n := |x| - 1;
      assert x == x[..n] + [x[n]];
      StridesConserve(x[..n], step);
      StridesSnoc(x[..n], x[n], step, n % step);
      FlattenMultisetUpdate(Strides(x[..n], step), n % step, x[n]);
    }
  }

  lemma {:induction false} AllEmpty<T>(parts: seq<seq<T>>)
    requires forall k :: 0 <= k < |parts| ==> parts[k] == []
    ensures Flatten(parts) == []
  {
    if parts != [] {
      AllEmpty(parts[..|parts| - 1]);
    }
  }

  lemma {:induction false} EveryNthShift<T>(x: seq<T>, start: nat, step: nat)
    requires 0 < step <= |x|
    ensures EveryNth(x, start + step, step) == EveryNth(x[step..], start, step)
    decreases |x| - start
  {
    if start + step < |x| {
      EveryNthShift(x, start + step, step);
    }
  }

  /** When the step divides the length, all strides have the same length, and stride `s` holds positions `s + i * step`. */
  lemma {:induction false} EveryNthAt<T>(x: seq<T>, start: nat, step: nat, size: nat)
    requires start < step && |x| == size * step
    ensures |EveryNth(x, start, step)| == size
    ensures forall i {:trigger EveryNth(x, start, step)[i]} :: 0 <= i < size ==>
              0 <= start + i * step < |x| && EveryNth(x, start, step)[i] == x[start + i * step]
    decreases size
  {
    if size > 0 {
      var rest := x[step..];
      assert |rest| == (size - 1) * step;
      EveryNthShift(x, start, step);
      EveryNthAt(rest, start, step, size - 1);
      forall i | 0 <= i < size ensures 0 <= start + i * step < |x| && EveryNth(x, start, step)[i] == x[start + i * step] {
        if i > 0 {
          assert EveryNth(x, start, step)[i] == EveryNth(rest, start, step)[i - 1];
          assert start + i * step == step + (start + (i - 1) * step);
        }
      }
    }
  }

  lemma EveryNthIndex<T>(x: seq<T>, start: nat, step: nat, size: nat, i: nat)
    requires start < step && |x| == size * step && i < size
    ensures 0 <= start + i * step < |x| && i < |EveryNth(x, start, step)|
    ensures EveryNth(x, start, step)[i] == x[start + i * step]
  {
    EveryNthAt(x, start, step, size);
    assert EveryNth(x, start, step)[i] == EveryNth(x, start, step)[i];
  }

  lemma StridesAreUniform<T>(x: seq<T>, step: nat, size: nat)
    requires |x| == size * step && 0 < step
    ensures forall k :: 0 <= k < step ==> |Strides(x, step)[k]| == size
    ensures |Flatten(Strides(x, step))| == |x|
  {
    forall k: nat | k < step ensures |Strides(x, step)[k]| == size {
      EveryNthAt(x, k, step, size);
    }
    UniformSlice(Strides(x, step), size, 0);
  }

  /** Flattening the strides moves position `s + i * step` to `s * size + i`. */
  lemma StridesAt<T>(x: seq<T>, step: nat, size: nat, s: nat, i: nat)
    requires |x| == size * step && s < step && i < size
    ensures 0 <= s + i * step < |x|
    ensures 0 <= s * size + i < |Flatten(Strides(x, step))| == |x|
    ensures Flatten(Strides(x, step))[s * size + i] == x[s + i * step]
  {
    StridesAreUniform(x, step, size);
    UniformSlice(Strides(x, step), size, s);
    EveryNthIndex(x, s, step, size, i);
    SliceAt(Flatten(Strides(x, step)), s * size, size, i);
  }

  lemma SliceAt<T>(x: seq<T>, start: nat, size: nat, i: nat)
    requires start + size <= |x| && i < size
    ensures x[start..start + size][i] == x[start + i]
  {
  }

  // ---- Selecting and permuting ----

  function Range(start: nat, n: nat): (r: seq<nat>)
    ensures |r| == n
  {
    seq(n, i requires 0 <= i => start + i)
  }

  /** The rows at the given positions. */
  function Select<T>(rows: seq<T>, indices: seq<nat>): (r: seq<T>)
    requires forall k :: 0 <= k < |indices| ==> indices[k] < |rows|
    ensures |r| == |indices|
  {
    seq(|indices|, k requires 0 <= k < |indices| => rows[indices[k]])
  }

  /** Every position below `n` occurs exactly once. */
  ghost predicate IsPermutation(p: seq<nat>, n: nat) { multiset(p) == multiset(Range(0, n)) }

  function SumOf(s: seq<nat>): nat { if s == [] then 0 else SumOf(s[..|s| - 1]) + s[|s| - 1] }

  function MaxOf(s: seq<nat>): nat {
    if s == [] then 0
    else
      var m := MaxOf(s[..|s| - 1]);
      if m < s[|s| - 1] then s[|s| - 1] else m
  }

  lemma {:induction false} MaxOfBounds(s: seq<nat>, k: nat)
    requires k < |s|
    ensures s[k] <= MaxOf(s)
  {
    if k < |s| - 1 {
      MaxOfBounds(s[..|s| - 1], k);
    }
  }

  lemma {:induction false} MaxOfPrefix(s: seq<nat>, k: nat)
    requires k <= |s|
    ensures MaxOf(s[..k]) <= MaxOf(s)
  {
    if k < |s| {
      MaxOfPrefix(s[..|s| - 1], k);
      assert s[..|s| - 1][..k] == s[..k];
    } else {
      assert s[..k] == s;
    }
  }

  lemma {:induction false} RangeCount(start: nat, n: nat, x: nat)
    ensures multiset(Range(start, n))[x] == if start <= x < start + n then 1 else 0
  {
    if n > 0 {
      assert Range(start, n) == Range(start, n - 1) + [start + n - 1];
      RangeCount(start, n - 1, x);
    }
  }

  lemma PermutationMeans(p: seq<nat>, n: nat)
    requires IsPermutation(p, n)
    ensures |p| == n
    ensures forall k :: 0 <= k < n ==> p[k] < n
    ensures forall j, k :: 0 <= j < k < n ==> p[j] != p[k]
  {
    assert |p| == |multiset(p)| == |multiset(Range(0, n))| == n;
    forall k | 0 <= k < n ensures p[k] < n {
      assert p[k] in multiset(p);
      RangeCount(0, n, p[k]);
    }
    forall j, k | 0 <= j < k < n ensures p[j] != p[k] {
      RangeCount(0, n, p[j]);
      if p[j] == p[k] {
        OccursTwice(p, j, k);
      }
    }
  }

  lemma OccursTwice(p: seq<nat>, j: nat, k: nat)
    requires j < k < |p| && p[j] == p[k]
    ensures multiset(p)[p[j]] >= 2
  {
    assert p == p[..k] + p[k..];
    assert p[j] in multiset(p[..k]) by {
      assert p[..k][j] == p[j];
    }
    assert p[k] in multiset(p[k..]) by {
      assert p[k..][0] == p[k];
    }
  }

  /** The positions of `keys` in ascending order of key, equal keys in their original order. */
  function ArgSort(keys: seq<int>): (r: seq<nat>)
    ensures |r| == |keys| && forall k :: 0 <= k < |r| ==> r[k] < |keys|
  {
    if keys == [] then []
    else
      var n := |keys| - 1;
      InsertIndex(ArgSort(keys[..n]), keys, n)
  }

  function InsertIndex(order: seq<nat>, keys: seq<int>, x: nat): (r: seq<nat>)
    requires x < |keys| && forall k :: 0 <= k < |order| ==> order[k] < |keys|
    ensures |r| == |order| + 1 && forall k :: 0 <= k < |r| ==> r[k] < |keys|
  {
    if order == [] || keys[order[|order| - 1]] <= keys[x] then order + [x]
    else InsertIndex(order[..|order| - 1], keys, x) + [order[|order| - 1]]
  }

  /** Ascending by key; equal keys ascending by position. */
  ghost predicate SortedStably(order: seq<nat>, keys: seq<int>) {
    && (forall k :: 0 <= k < |order| ==> order[k] < |keys|)
    && (forall i, j :: 0 <= i < j < |order| ==>
          keys[order[i]] < keys[order[j]] || (keys[order[i]] == keys[order[j]] && order[i] < order[j]))
  }

  lemma {:induction false} InsertIndexElements(order: seq<nat>, keys: seq<int>, x: nat)
    requires x < |keys| && forall k :: 0 <= k < |order| ==> order[k] < |keys|
    ensures multiset(InsertIndex(order, keys, x)) == multiset(order) + multiset{x}
  {
    if order != [] {
      var n := |order| - 1;
      assert order == order[..n] + [order[n]];
      if keys[order[n]] > keys[x] {
        InsertIndexElements(order[..n], keys, x);
      }
    }
  }

  lemma {:induction false} InsertIndexSorts(order: seq<nat>, keys: seq<int>, x: nat)
    requires x < |keys| && SortedStably(order, keys) && forall k :: 0 <= k < |order| ==> order[k] < x
    ensures SortedStably(InsertIndex(order, keys, x), keys)
  {
    if order != [] {
      var n := |order| - 1;
      if keys[order[n]] > keys[x] {
        var r := InsertIndex(order[..n], keys, x);
        InsertIndexSorts(order[..n], keys, x);
        InsertIndexElements(order[..n], keys, x);
        forall i | 0 <= i < |r| ensures Precedes(r[i], order[n], keys) {
          assert r[i] in multiset(r);
          assert r[i] == x || r[i] in order[..n];
        }
        SortedSnoc(r, order[n], keys);
      } else {
        forall i | 0 <= i < |order| ensures Precedes(order[i], x, keys) {
          assert i < n ==> Precedes(order[i], order[n], keys);
        }
        SortedSnoc(order, x, keys);
      }
    }
  }

  ghost predicate Precedes(i: nat, j: nat, keys: seq<int>)
    requires i < |keys| && j < |keys|
  {
    keys[i] < keys[j] || (keys[i] == keys[j] && i < j)
  }

  lemma SortedSnoc(order: seq<nat>, x: nat, keys: seq<int>)
    requires x < |keys| && SortedStably(order, keys)
    requires forall i :: 0 <= i < |order| ==> Precedes(order[i], x, keys)
    ensures SortedStably(order + [x], keys)
  {
  }

  lemma {:induction false} ArgSortPermutes(keys: seq<int>)
    ensures IsPermutation(ArgSort(keys), |keys|)
  {
    if keys != [] {
      var n := |keys| - 1;
      ArgSortPermutes(keys[..n]);
      InsertIndexElements(ArgSort(keys[..n]), keys, n);
      assert Range(0, n + 1) == Range(0, n) + [n];
    }
  }

  lemma {:induction false} ArgSortSorts(keys: seq<int>)
    ensures SortedStably(ArgSort(keys), keys)
  {
    if keys != [] {
      var n := |keys| - 1;
      var order := ArgSort(keys[..n]);
      ArgSortSorts(keys[..n]);
      assert SortedStably(order, keys);
      InsertIndexSorts(order, keys, n);
    }
  }

  lemma {:induction false} AscendingIsIdentity(a: seq<nat>, k: nat)
    requires forall i, j :: 0 <= i < j < |a| ==> a[i] < a[j]
    requires forall i :: 0 <= i < |a| ==> a[i] < |a|
    requires k < |a|
    ensures a[k] == k
  {
    AscendingFloor(a, k);
    AscendingCeiling(a, k);
  }

  lemma {:induction false} AscendingFloor(a: seq<nat>, k: nat)
    requires forall i, j :: 0 <= i < j < |a| ==> a[i] < a[j]
    requires k < |a|
    ensures a[k] >= k
  {
    if k > 0 {
      AscendingFloor(a, k - 1);
    }
  }

  lemma {:induction false} AscendingCeiling(a: seq<nat>, k: nat)
    requires forall i, j :: 0 <= i < j < |a| ==> a[i] < a[j]
    requires forall i :: 0 <= i < |a| ==> a[i] < |a|
    requires k < |a|
    ensures a[k] <= k
    decreases |a| - k
  {
    if k + 1 < |a| {
      AscendingCeiling(a, k + 1);
    }
  }

  /** Sorting the positions of a permutation by its values inverts it, on both sides. */
  lemma ArgSortInverts(p: seq<nat>, k: nat)
    requires IsPermutation(p, |p|) && k < |p|
    ensures p[k] < |p|
    ensures p[ArgSort(p)[k]] == k
    ensures ArgSort(p)[p[k]] == k
  {
    PermutationMeans(p, |p|);
    var order := ArgSort(p);
    SortedValues(p);
    assert p[order[k]] == k && p[order[p[k]]] == p[k];
  }

  lemma SortedValues(p: seq<nat>)
    requires IsPermutation(p, |p|)
    ensures forall k :: 0 <= k < |p| ==> p[ArgSort(p)[k]] == k
  {
    PermutationMeans(p, |p|);
    ArgSortSorts(p);
    ArgSortPermutes(p);
    var order := ArgSort(p);
    PermutationMeans(order, |p|);
    SortedDistinctIsIdentity(p, order);
  }

  /** Distinct numbers below their count, listed in ascending order, are all of them in order. */
  lemma SortedDistinctIsIdentity(p: seq<nat>, order: seq<nat>)
    requires |order| == |p| && SortedStably(order, p)
    requires forall k :: 0 <= k < |p| ==> p[k] < |p|
    requires forall j, k :: 0 <= j < k < |p| ==> p[j] != p[k]
    requires forall j, k :: 0 <= j < k < |p| ==> order[j] != order[k]
    ensures forall k :: 0 <= k < |p| ==> p[order[k]] == k
  {
    var sorted := Select(p, order);
    forall i, j | 0 <= i < j < |sorted| ensures sorted[i] < sorted[j] {
      assert order[i] != order[j];
    }
    forall i | 0 <= i < |p| ensures p[order[i]] == i {
      AscendingIsIdentity(sorted, i);
    }
  }

  lemma {:induction false} SelectConcat<T>(rows: seq<T>, a: seq<nat>, b: seq<nat>)
    requires forall k :: 0 <= k < |a| ==> a[k] < |rows|
    requires forall k :: 0 <= k < |b| ==> b[k] < |rows|
    ensures Select(rows, a + b) == Select(rows, a) + Select(rows, b)
  {
  }

  /** Selecting by a permutation keeps every row once. */
  lemma SelectPermutation<T>(rows: seq<T>, p: seq<nat>)
    requires IsPermutation(p, |rows|)
    ensures forall k :: 0 <= k < |p| ==> p[k] < |rows|
    ensures multiset(Select(rows, p)) == multiset(rows)
  {
    PermutationMeans(p, |rows|);
    SameIndicesSameRows(rows, p, Range(0, |rows|));
    assert Select(rows, Range(0, |rows|)) == rows;
  }

  lemma SelectWithout<T>(rows: seq<T>, b: seq<nat>, i: nat)
    requires i < |b| && forall k :: 0 <= k < |b| ==> b[k] < |rows|
    ensures var rest := b[..i] + b[i + 1..];
      && multiset(rest) == multiset(b) - multiset{b[i]}
      && (forall k :: 0 <= k < |rest| ==> rest[k] < |rows|)
      && multiset(Select(rows, b)) == multiset(Select(rows, rest)) + multiset{rows[b[i]]}
  {
    var front, back := b[..i], b[i + 1..];
    assert b == front + [b[i]] + back;
    SelectAround(rows, front, b[i], back);
  }

  lemma SelectAround<T>(rows: seq<T>, front: seq<nat>, x: nat, back: seq<nat>)
    requires x < |rows| && forall k :: 0 <= k < |front| ==> front[k] < |rows|
    requires forall k :: 0 <= k < |back| ==> back[k] < |rows|
    ensures forall k :: 0 <= k < |front + back| ==> (front + back)[k] < |rows|
    ensures forall k :: 0 <= k < |front + [x] + back| ==> (front + [x] + back)[k] < |rows|
    ensures multiset(front + [x] + back) == multiset(front + back) + multiset{x}
    ensures multiset(Select(rows, front + [x] + back)) == multiset(Select(rows, front + back)) + multiset{rows[x]}
  {
    SelectConcat(rows, front, back);
    SelectConcat(rows, front, [x]);
    SelectConcat(rows, front + [x], back);
    assert Select(rows, [x]) == [rows[x]];
  }

  /** Selecting the same positions in another order gives the same rows in another order. */
  lemma {:induction false} SameIndicesSameRows<T>(rows: seq<T>, a: seq<nat>, b: seq<nat>)
    requires multiset(a) == multiset(b)
    requires forall k :: 0 <= k < |a| ==> a[k] < |rows|
    requires forall k :: 0 <= k < |b| ==> b[k] < |rows|
    ensures multiset(Select(rows, a)) == multiset(Select(rows, b))
    decreases |a|
  {
    assert |a| == |multiset(a)| == |multiset(b)| == |b|;
    if a != [] {
      assert a[0] in multiset(b);
      var i :| 0 <= i < |b| && b[i] == a[0];
      SelectWithout(rows, a, 0);
      SelectWithout(rows, b, i);
      SameIndicesSameRows(rows, a[..0] + a[1..], b[..i] + b[i + 1..]);
    }
  }
}
