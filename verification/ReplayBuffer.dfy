/**
 * The replay buffer of asynchronous GRPO: three parallel lists that hold one prompt group per position,
 * the weight version that generated it and the training step it is intended for.
 */
module ReplayBuffers {
  import opened Seqs

  /** One position of the three parallel lists. */
  datatype Entry<T> = Entry(group: T, version: int, target: int)

  datatype PushStatus = Success | Full

  /** What `sample` returns, or the exception it raises. */
  datatype SampleOutcome<T> =
    | NotReady
    | Sampled(items: seq<T>, averageAge: real)
    | StaleError(count: nat, minValidVersion: int)
    | ZeroDivisionError

  function MinValidVersion(current: int, maxAge: int): int { Max(0, current - maxAge) }

  function OlderThan<T>(version: int): Entry<T> -> bool { (e: Entry<T>) => e.version < version }

  function InAgeWindow<T>(low: int, current: int): Entry<T> -> bool {
    (e: Entry<T>) => low <= e.version <= current
  }

  /** In the age window, and intended for exactly this training step. */
  function ReadyFor<T>(low: int, current: int): Entry<T> -> bool {
    (e: Entry<T>) => low <= e.version <= current && e.target == current
  }

  function VersionSum<T>(s: seq<Entry<T>>): int {
    if s == [] then 0 else VersionSum(s[..|s| - 1]) + s[|s| - 1].version
  }

  function AverageAge<T>(s: seq<Entry<T>>, current: int): real
    requires s != []
  {
    current as real - VersionSum(s) as real / |s| as real
  }

  function GroupsOf<T>(s: seq<Entry<T>>): seq<T> {
    seq(|s|, i requires 0 <= i < |s| => s[i].group)
  }

  /** The ages of all groups together. */
  function TotalAge<T>(s: seq<Entry<T>>, current: int): int {
    if s == [] then 0 else TotalAge(s[..|s| - 1], current) + (current - s[|s| - 1].version)
  }

  /** The average age is the mean of the groups' ages. */
  lemma AverageAgeIsMean<T>(s: seq<Entry<T>>, current: int)
    requires s != []
    ensures AverageAge(s, current) * |s| as real == TotalAge(s, current) as real
  {
    AgesAddUp(s, current);
    MeanTimes(current as real, VersionSum(s) as real, |s| as real);
    assert (|s| * current) as real == |s| as real * current as real;
  }

  lemma MeanTimes(current: real, v: real, n: real)
    requires n > 0.0
    ensures (current - v / n) * n == n * current - v
  {
    assert v / n * n == v;
  }

  lemma {:induction false} AgesAddUp<T>(s: seq<Entry<T>>, current: int)
    ensures TotalAge(s, current) == |s| * current - VersionSum(s)
  {
    if s != [] {
      AgesAddUp(s[..|s| - 1], current);
      assert |s| * current == (|s| - 1) * current + current;
    }
  }

  /** `s` without its first `n` elements that satisfy `p`; everything else keeps its order. */
  function DropMatches<T>(s: seq<T>, p: T -> bool, n: nat): seq<T> {
    if s == [] then []
    else
      var i := |s| - 1;
      if p(s[i]) && |Filter(s[..i], p)| < n then DropMatches(s[..i], p, n)
      else DropMatches(s[..i], p, n) + [s[i]]
  }

  /**
   * What sampling `n` groups for step `current` may return, and what it leaves behind: the oldest `n` groups
   * that are ready, or nothing.
   */
  function SampleResult<T>(s: seq<Entry<T>>, n: nat, current: int, maxAge: int): SampleOutcome<T> {
    var low := MinValidVersion(current, maxAge);
    var stale := Filter(s, OlderThan(low));
    var ready := Filter(s, ReadyFor(low, current));
    if stale != [] then StaleError(|stale|, low)
    else if Filter(s, InAgeWindow(low, current)) == [] || |ready| < n then NotReady
    else if n == 0 then ZeroDivisionError
    else Sampled(GroupsOf(ready[..n]), AverageAge(ready[..n], current))
  }

  function SampleRest<T>(s: seq<Entry<T>>, n: nat, current: int, maxAge: int): seq<Entry<T>> {
    if SampleResult(s, n, current, maxAge).Sampled?
    then DropMatches(s, ReadyFor(MinValidVersion(current, maxAge), current), n)
    else s
  }

  /** Deleting the positions `positions` (ascending) from the highest down, one `pop` at a time. */
  function PopAll<T>(s: seq<T>, positions: seq<nat>): seq<T>
    requires Ascending(positions, |s|)
    decreases |positions|
  {
    if positions == [] then s
    else
      var k := |positions| - 1;
      PopAll(RemoveAt(s, positions[k]), positions[..k])
  }

  lemma {:induction false} IndicesSelect<T>(s: seq<T>, p: T -> bool, k: nat)
    requires k < |Filter(s, p)|
    ensures s[IndicesWhere(s, p)[k]] == Filter(s, p)[k]
  {
    var n := |s| - 1;
    if k < |Filter(s[..n], p)| {
      IndicesSelect(s[..n], p, k);
    }
  }

  lemma {:induction false} IndicesCover<T>(s: seq<T>, p: T -> bool, q: nat)
    requires q < |s| && p(s[q])
    ensures q in IndicesWhere(s, p)
  {
    if q < |s| - 1 {
      IndicesCover(s[..|s| - 1], p, q);
    }
  }

  /** Generated for step `current`, not after it and at most `maxAge` versions before. */
  predicate Serves<T>(e: Entry<T>, current: int, maxAge: int) {
    e.target == current && 0 <= e.version && current - maxAge <= e.version <= current
  }

  lemma StaleIff<T(!new)>(s: seq<Entry<T>>, low: int)
    ensures Filter(s, OlderThan(low)) != [] <==> exists e :: e in s && e.version < low
  {
    var stale := Filter(s, OlderThan(low));
    FilterElements(s, OlderThan(low));
    if stale != [] {
      assert stale[0] in stale;
    }
  }

  /** The first `n` positions that serve the step. */
  ghost predicate FirstServing<T>(s: seq<Entry<T>>, at: seq<nat>, n: nat, current: int, maxAge: int) {
    && |at| == n && Ascending(at, |s|)
    && (forall k :: 0 <= k < n ==> Serves(s[at[k]], current, maxAge))
    && (forall q: nat :: q < |s| && 0 < n && q < at[n - 1] && Serves(s[q], current, maxAge) ==> q in at)
  }

  function EntriesAt<T>(s: seq<T>, at: seq<nat>): (r: seq<T>)
    requires forall k :: 0 <= k < |at| ==> at[k] < |s|
    ensures |r| == |at|
  {
    seq(|at|, k requires 0 <= k < |at| => s[at[k]])
  }

  lemma ReadyServes<T(!new)>(current: int, maxAge: int)
    ensures forall e: Entry<T> :: ReadyFor(MinValidVersion(current, maxAge), current)(e) <==> Serves(e, current, maxAge)
  {
  }

  lemma FirstReady<T(!new)>(s: seq<Entry<T>>, n: nat, current: int, maxAge: int) returns (at: seq<nat>)
    requires n <= |Filter(s, ReadyFor(MinValidVersion(current, maxAge), current))|
    ensures FirstServing(s, at, n, current, maxAge)
    ensures EntriesAt(s, at) == Filter(s, ReadyFor(MinValidVersion(current, maxAge), current))[..n]
  {
    var ready := ReadyFor<T>(MinValidVersion(current, maxAge), current);
    ReadyServes<T>(current, maxAge);
    var all := IndicesWhere(s, ready);
    at := all[..n];
    IndicesAscend(s, ready);
    forall k: nat | k < n ensures s[at[k]] == Filter(s, ready)[k] {
      IndicesSelect(s, ready, k);
    }
    forall q: nat | q < |s| && 0 < n && q < at[n - 1] && Serves(s[q], current, maxAge) ensures q in at {
      IndicesCover(s, ready, q);
      var i :| 0 <= i < |all| && all[i] == q;
      assert at[n - 1] == all[n - 1] && i < n;
      assert at[i] == q;
    }
  }

  /** The groups at these positions, in order, with the mean of their ages. */
  ghost predicate ReturnsAt<T(!new)>(r: SampleOutcome<T>, s: seq<Entry<T>>, at: seq<nat>, n: nat, current: int, maxAge: int)
    requires r.Sampled?
  {
    && FirstServing(s, at, n, current, maxAge)
    && |r.items| == n && (forall k :: 0 <= k < n ==> r.items[k] == s[at[k]].group)
    && r.averageAge * n as real == TotalAge(EntriesAt(s, at), current) as real
  }

  /** Entries that were picked by position give their groups and their mean age. */
  lemma PickedReturns<T(!new)>(s: seq<Entry<T>>, at: seq<nat>, n: nat, current: int, maxAge: int)
    requires 0 < n && FirstServing(s, at, n, current, maxAge)
    ensures var picked := EntriesAt(s, at); ReturnsAt(Sampled(GroupsOf(picked), AverageAge(picked, current)), s, at, n, current, maxAge)
  {
    AverageAgeIsMean(EntriesAt(s, at), current);
  }

  /**
   * What a successful sample returns: the groups at the first `n` positions that serve the step. It raises for too old a
   * group exactly when there is one.
   */
  lemma SampleMeans<T(!new)>(s: seq<Entry<T>>, n: nat, current: int, maxAge: int) returns (at: seq<nat>)
    ensures SampleResult(s, n, current, maxAge).StaleError?
       <==> exists e :: e in s && e.version < Max(0, current - maxAge)
    ensures var r := SampleResult(s, n, current, maxAge); r.Sampled? ==> 0 < n && ReturnsAt(r, s, at, n, current, maxAge)
  {
    StaleIff(s, MinValidVersion(current, maxAge));
    at := [];
    if SampleResult(s, n, current, maxAge).Sampled? {
      at := FirstReady(s, n, current, maxAge);
      PickedReturns(s, at, n, current, maxAge);
    }
  }

  lemma {:induction false} PopAllKeepsTail<T>(s: seq<T>, x: T, positions: seq<nat>)
    requires Ascending(positions, |s|)
    ensures Ascending(positions, |s + [x]|)
    ensures PopAll(s + [x], positions) == PopAll(s, positions) + [x]
    decreases |positions|
  {
    if positions == [] {
      assert s + [x] == PopAll(s, positions) + [x];
    } else {
      var k := |positions| - 1;
      assert RemoveAt(s + [x], positions[k]) == RemoveAt(s, positions[k]) + [x];
      PopAllKeepsTail(RemoveAt(s, positions[k]), x, positions[..k]);
    }
  }

  /** Popping the first `n` matching positions from the highest down removes exactly the first `n` matches. */
  lemma {:induction false} PopAllDropsMatches<T>(s: seq<T>, p: T -> bool, n: nat)
    requires n <= |Filter(s, p)|
    ensures Ascending(IndicesWhere(s, p)[..n], |s|)
    ensures PopAll(s, IndicesWhere(s, p)[..n]) == DropMatches(s, p, n)
  {
    IndicesAscend(s, p);
    if s != [] {
      var t, x := s[..|s| - 1], s[|s| - 1];
      assert s == t + [x];
      IndicesAscend(t, p);
      if n <= |Filter(t, p)| {
        PopAllDropsMatches(t, p, n);
        assert IndicesWhere(s, p)[..n] == IndicesWhere(t, p)[..n];
        PopAllKeepsTail(t, x, IndicesWhere(t, p)[..n]);
      } else {
        var m := n - 1;
        assert IndicesWhere(s, p)[..n] == IndicesWhere(t, p) + [|t|];
        assert RemoveAt(s, |t|) == t;
        assert IndicesWhere(t, p)[..m] == IndicesWhere(t, p);
        assert (IndicesWhere(t, p) + [|t|])[..m] == IndicesWhere(t, p);
        PopAllDropsMatches(t, p, m);
        DropEnough(t, p, m, n);
      }
    }
  }

  lemma {:induction false} DropEnough<T>(s: seq<T>, p: T -> bool, m: nat, n: nat)
    requires |Filter(s, p)| <= m && |Filter(s, p)| <= n
    ensures DropMatches(s, p, m) == DropMatches(s, p, n)
  {
    if s != [] {
      DropEnough(s[..|s| - 1], p, m, n);
    }
  }

  /** Removing the first `n` matches: the matches that stay are the later ones, in order. */
  lemma {:induction false} DropMatchesKeepsLater<T>(s: seq<T>, p: T -> bool, n: nat)
    requires n <= |Filter(s, p)|
    ensures Filter(DropMatches(s, p, n), p) == Filter(s, p)[n..]
  {
    if s != [] {
      var t, x := s[..|s| - 1], s[|s| - 1];
      if n <= |Filter(t, p)| {
        DropMatchesKeepsLater(t, p, n);
        FilterSnoc(DropMatches(t, p, n), x, p);
      } else {
        DropMatchesKeepsLater(t, p, n - 1);
        DropEnough(t, p, n - 1, n);
      }
    }
  }

  /** Removing the first `n` matches loses and duplicates nothing. */
  lemma {:induction false} DropMatchesConserves<T>(s: seq<T>, p: T -> bool, n: nat)
    requires n <= |Filter(s, p)|
    ensures multiset(s) == multiset(DropMatches(s, p, n)) + multiset(Filter(s, p)[..n])
  {
    if s != [] {
      var t, x := s[..|s| - 1], s[|s| - 1];
      assert s == t + [x];
      if n <= |Filter(t, p)| {
        DropMatchesConserves(t, p, n);
        assert Filter(s, p)[..n] == Filter(t, p)[..n];
        SnocConserves(t, DropMatches(t, p, n), Filter(t, p)[..n], x);
      } else {
        DropMatchesConserves(t, p, n - 1);
        DropEnough(t, p, n - 1, n);
        assert Filter(t, p)[..n - 1] == Filter(t, p);
        assert Filter(s, p)[..n] == Filter(t, p) + [x];
        SnocConserves(t, DropMatches(t, p, n), Filter(t, p), x);
      }
    }
  }

  /** One more element on either side. */
  lemma SnocConserves<T>(whole: seq<T>, rest: seq<T>, taken: seq<T>, x: T)
    requires multiset(whole) == multiset(rest) + multiset(taken)
    ensures multiset(whole + [x]) == multiset(rest + [x]) + multiset(taken)
    ensures multiset(whole + [x]) == multiset(rest) + multiset(taken + [x])
  {
  }

  lemma {:induction false} DropMatchesKeepsOthers<T>(s: seq<T>, p: T -> bool, n: nat, q: T -> bool)
    requires forall x :: x in s && p(x) ==> !q(x)
    ensures Filter(DropMatches(s, p, n), q) == Filter(s, q)
  {
    if s != [] {
      var t, x := s[..|s| - 1], s[|s| - 1];
      DropMatchesKeepsOthers(t, p, n, q);
      FilterSnoc(DropMatches(t, p, n), x, q);
    }
  }

  function Zip<T>(groups: seq<T>, versions: seq<int>, targets: seq<int>): seq<Entry<T>>
    requires |groups| == |versions| == |targets|
  {
    seq(|groups|, i requires 0 <= i < |groups| => Entry(groups[i], versions[i], targets[i]))
  }

  /** Popping one position off each list keeps the lists aligned. */
  lemma ZipRemoveAt<T>(groups: seq<T>, versions: seq<int>, targets: seq<int>, i: nat)
    requires |groups| == |versions| == |targets| && i < |groups|
    ensures Zip(RemoveAt(groups, i), RemoveAt(versions, i), RemoveAt(targets, i))
         == RemoveAt(Zip(groups, versions, targets), i)
  {
  }

  class ReplayBuffer<T> {
    const maxSize: int
    var trajectories: seq<T>
    var trajectoryVersions: seq<int>
    var targetWeightVersions: seq<int>
    var lastTargetWeightAlreadyGenerated: int

    /** The three lists are aligned, and the buffer is never over its size. */
    ghost predicate Valid()
      reads this
    {
      && |trajectoryVersions| == |targetWeightVersions| == |trajectories| <= maxSize
      && 0 < maxSize
    }

    function Entries(): (s: seq<Entry<T>>)
      requires Valid()
      reads this
      ensures |s| == |trajectories|
    {
      Zip(trajectories, trajectoryVersions, targetWeightVersions)
    }

    constructor (maxSize: int)
      requires 0 < maxSize
      ensures Valid() && this.maxSize == maxSize
      ensures Entries() == [] && lastTargetWeightAlreadyGenerated == -1
    {
      this.maxSize := maxSize;
      trajectories, trajectoryVersions, targetWeightVersions := [], [], [];
      lastTargetWeightAlreadyGenerated := -1;
    }

    /** Construction with the check on `max_size` that the program makes. */
    static method Create(maxSize: int) returns (r: Result<ReplayBuffer<T>, string>)
      ensures r.Ok? <==> 0 < maxSize
      ensures r.Ok? ==> fresh(r.value) && r.value.Valid() && r.value.maxSize == maxSize && r.value.Entries() == []
    {
      if maxSize <= 0 {
        return Err("max_size must be positive");
      }
      var buffer := new ReplayBuffer<T>(maxSize);
      return Ok(buffer);
    }

    method PushWithWaitSignal(trajectory: T, weightVersion: int, targetWeightVersion: int) returns (status: PushStatus)
      requires Valid()
      modifies this
      ensures Valid()
      ensures status.Full? <==> |old(Entries())| == maxSize
      ensures status.Full? ==> Entries() == old(Entries()) && lastTargetWeightAlreadyGenerated == old(lastTargetWeightAlreadyGenerated)
      ensures status.Success? ==>
        && Entries() == old(Entries()) + [Entry(trajectory, weightVersion, targetWeightVersion)]
        && lastTargetWeightAlreadyGenerated == Max(old(lastTargetWeightAlreadyGenerated), targetWeightVersion)
    {
      if |trajectories| >= maxSize {
        return Full;
      }
      trajectories := trajectories + [trajectory];
      trajectoryVersions := trajectoryVersions + [weightVersion];
      targetWeightVersions := targetWeightVersions + [targetWeightVersion];
      lastTargetWeightAlreadyGenerated := Max(lastTargetWeightAlreadyGenerated, targetWeightVersion);
      return Success;
    }

    method Sample(numPromptGroups: nat, currentWeightVersion: int, maxAgeSteps: int) returns (outcome: SampleOutcome<T>)
      requires Valid()
      modifies this
      ensures Valid() && lastTargetWeightAlreadyGenerated == old(lastTargetWeightAlreadyGenerated)
      ensures outcome == SampleResult(old(Entries()), numPromptGroups, currentWeightVersion, maxAgeSteps)
      ensures Entries() == SampleRest(old(Entries()), numPromptGroups, currentWeightVersion, maxAgeSteps)
    {
      ghost var before := Entries();
      var entries := Entries();
      var minValidVersion := MinValidVersion(currentWeightVersion, maxAgeSteps);
      var oldTrajectories := Filter(entries, OlderThan(minValidVersion));
      if oldTrajectories != [] {
        return StaleError(|oldTrajectories|, minValidVersion);
      }
      var validIndices := IndicesWhere(entries, InAgeWindow(minValidVersion, currentWeightVersion));
      ReadyAreInWindow(entries, minValidVersion, currentWeightVersion);
      if validIndices == [] || |validIndices| < numPromptGroups {
        return NotReady;
      }
      var ready := ReadyFor<T>(minValidVersion, currentWeightVersion);
      var intendedIndices := IndicesWhere(entries, ready);
      if |intendedIndices| < numPromptGroups {
        return NotReady;
      }
      if numPromptGroups == 0 {
        return ZeroDivisionError;
      }
      var selected := intendedIndices[..numPromptGroups];
      var sampled := seq(|selected|, k requires 0 <= k < |selected| => entries[selected[k]]);
      assert sampled == Filter(entries, ready)[..numPromptGroups] by {
        forall k: nat | k < numPromptGroups ensures sampled[k] == Filter(entries, ready)[k] {
          IndicesSelect(entries, ready, k);
        }
      }
      outcome := Sampled(GroupsOf(sampled), AverageAge(sampled, currentWeightVersion));
      PopAllDropsMatches(entries, ready, numPromptGroups);
      RemoveSelected(selected);
    }

    /** Pops the selected positions off all three lists, highest first so that the lower positions stay correct. */
    method RemoveSelected(selected: seq<nat>)
      requires Valid() && Ascending(selected, |Entries()|)
      modifies this
      ensures Valid() && lastTargetWeightAlreadyGenerated == old(lastTargetWeightAlreadyGenerated)
      ensures Entries() == PopAll(old(Entries()), selected)
    {
      var k := |selected|;
      assert selected[..k] == selected;
      while k > 0
        invariant 0 <= k <= |selected|
        invariant Valid() && lastTargetWeightAlreadyGenerated == old(lastTargetWeightAlreadyGenerated)
        invariant Ascending(selected[..k], |Entries()|)
        invariant PopAll(Entries(), selected[..k]) == PopAll(old(Entries()), selected)
      {
        k := k - 1;
        var position := selected[k];
        ZipRemoveAt(trajectories, trajectoryVersions, targetWeightVersions, position);
        assert selected[..k + 1][k] == position && selected[..k + 1][..k] == selected[..k];
        trajectoryVersions := RemoveAt(trajectoryVersions, position);
        targetWeightVersions := RemoveAt(targetWeightVersions, position);
        trajectories := RemoveAt(trajectories, position);
      }
    }
  }

  lemma {:induction false} ReadyAreInWindow<T>(s: seq<Entry<T>>, low: int, current: int)
    ensures |Filter(s, ReadyFor(low, current))| <= |Filter(s, InAgeWindow(low, current))|
  {
    if s != [] {
      ReadyAreInWindow(s[..|s| - 1], low, current);
    }
  }
}
