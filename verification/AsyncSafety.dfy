/**
 * Safety of the asynchronous GRPO protocol over every run whose reservations are fresh: the buffer's age check
 * never fires, the buffer is never full, and each step trains on all the groups made for it and no others.
 */
module AsyncSafety {
  import opened Seqs
  import opened Lists
  import opened ReplayBuffers
  import opened AsyncProtocol

  function TargetIs(t: int): Group -> bool { (e: Group) => e.target == t }

  function TargetFrom(t: int): Group -> bool { (e: Group) => e.target >= t }

  function TargetBelow(t: int): Group -> bool { (e: Group) => e.target < t }

  function Count(s: seq<Group>, t: int): nat { |Filter(s, TargetIs(t))| }

  /** How many groups for step `t` the collector still has to spawn. */
  function Unspawned(c: Config, s: State, t: int): int {
    if s.phase.Spawning? && s.phase.target == t then c.promptsPerStep - s.phase.nextPrompt else 0
  }

  /** The next step to be sampled. */
  function NextStep(c: Config, s: State): int { c.start + |s.consumed| }

  /** Generated no more than `maxAge` versions before its step, and never after it. */
  ghost predicate WithinAge(c: Config, s: State, e: Group) {
    c.start <= e.version <= s.collectorVersion && e.version <= e.target <= e.version + c.maxAge
  }

  /** A reserved step is owed exactly one group per prompt: pushed, in flight or still to be spawned. */
  ghost predicate Budget(c: Config, s: State, t: int) {
    Count(s.pushed, t) + Count(s.running, t) + Unspawned(c, s, t) == if t in s.reservations then c.promptsPerStep else 0
  }

  /** Sampled steps took every group pushed for them, in push order; the buffer holds the rest, in push order. */
  ghost predicate Ledger(c: Config, s: State) {
    && s.trainerVersion + (if s.sampled then 1 else 0) == NextStep(c, s)
    && s.entries == Filter(s.pushed, TargetFrom(NextStep(c, s)))
    && (forall k {:trigger s.consumed[k]} :: 0 <= k < |s.consumed| ==>
          s.consumed[k] == Filter(s.pushed, TargetIs(c.start + k)) && |s.consumed[k]| == c.promptsPerStep)
  }

  ghost predicate Ages(c: Config, s: State) {
    && (forall e :: e in s.pushed || e in s.running ==> WithinAge(c, s, e))
    && (s.phase.Spawning? ==> s.phase.generation <= s.phase.target <= s.phase.generation + c.maxAge)
  }

  ghost predicate Budgets(c: Config, s: State) { forall t :: Budget(c, s, t) }

  ghost predicate Safe(c: Config, s: State) {
    Inv(c, s) && !s.crashed && Budgets(c, s) && Ledger(c, s) && Ages(c, s)
  }

  lemma SampledIsComplete(c: Config, s: State, t: int)
    requires Ledger(c, s) && c.start <= t < NextStep(c, s)
    ensures Count(s.pushed, t) == c.promptsPerStep
  {
    var k := t - c.start;
    assert s.consumed[k] == Filter(s.pushed, TargetIs(c.start + k));
  }

  /** A step with a group still to come has not been sampled. */
  lemma PendingIsFuture(c: Config, s: State, t: int)
    requires Ledger(c, s) && c.start <= t && Count(s.pushed, t) != c.promptsPerStep
    ensures t >= NextStep(c, s)
  {
    if t < NextStep(c, s) {
      SampledIsComplete(c, s, t);
    }
  }

  lemma RunningIsFuture(c: Config, s: State, i: nat)
    requires Safe(c, s) && i < |s.running|
    ensures s.running[i].target >= NextStep(c, s)
    ensures Count(s.pushed, s.running[i].target) < c.promptsPerStep
  {
    var t := s.running[i].target;
    FilterElements(s.running, TargetIs(t));
    assert s.running[i] in Filter(s.running, TargetIs(t));
    assert Budget(c, s, t);
    PendingIsFuture(c, s, t);
  }

  lemma ReserveKeepsSafe(c: Config, s: State)
    requires c.Valid() && Safe(c, s) && s.phase.HasLast? && FreshStep(c, s, Reserve)
    ensures Safe(c, Reserved(c, s))
  {
    ReserveKeepsInv(c, s);
    var r := NextTarget(TargetWeights(c, s.phase.generation), s.phase.seenLast, s.generating);
    var s' := Reserved(c, s);
    if r.Some? {
      TargetWeightsWindow(c, s.phase.generation, r.value);
      assert r.value !in s.reservations;
    }
    forall t ensures Budget(c, s', t) {
      assert Budget(c, s, t);
    }
  }

  lemma RefreshKeepsSafe(c: Config, s: State)
    requires c.Valid() && Safe(c, s) && s.phase.Spawning?
    ensures Safe(c, Refreshed(s))
  {
    var t := s.phase.target;
    assert Budget(c, s, t);
    PendingIsFuture(c, s, t);
    var s' := Refreshed(s);
    forall u ensures Budget(c, s', u) {
      assert Budget(c, s, u);
    }
  }

  lemma SpawnKeepsBudgets(c: Config, s: State)
    requires c.Valid() && Safe(c, s) && s.phase.Spawning?
    ensures Budgets(c, Spawned(c, s))
  {
    var Spawning(generation, target, prompt) := s.phase;
    forall t ensures Budget(c, Spawned(c, s), t) {
      assert Budget(c, s, t);
      FilterSnoc(s.running, Entry(prompt, generation, target), TargetIs(t));
    }
  }

  lemma SpawnKeepsSafe(c: Config, s: State)
    requires c.Valid() && Safe(c, s) && s.phase.Spawning?
    ensures Safe(c, Spawned(c, s))
  {
    SpawnKeepsInv(c, s);
    SpawnKeepsBudgets(c, s);
  }

  lemma PushKeepsBudgets(c: Config, s: State, i: nat)
    requires c.Valid() && Safe(c, s) && i < |s.running|
    ensures Budgets(c, Pushed(c, s, i))
  {
    if |s.entries| < c.BufferSize() {
      forall t ensures Budget(c, Pushed(c, s, i), t) {
        assert Budget(c, s, t);
        FilterSnoc(s.pushed, s.running[i], TargetIs(t));
        FilterRemoveAt(s.running, i, TargetIs(t));
      }
    }
  }

  lemma PushKeepsLedger(c: Config, s: State, i: nat)
    requires c.Valid() && Safe(c, s) && i < |s.running|
    ensures Ledger(c, Pushed(c, s, i))
  {
    if |s.entries| < c.BufferSize() {
      RunningIsFuture(c, s, i);
      FilterSnoc(s.pushed, s.running[i], TargetFrom(NextStep(c, s)));
      LaterPushKeepsConsumed(c, s, s.running[i]);
    }
  }

  /** A group for a step still to come changes nothing for the steps that were sampled. */
  lemma LaterPushKeepsConsumed(c: Config, s: State, e: Group)
    requires Ledger(c, s) && e.target >= NextStep(c, s)
    ensures forall k {:trigger s.consumed[k]} :: 0 <= k < |s.consumed| ==>
              s.consumed[k] == Filter(s.pushed + [e], TargetIs(c.start + k))
  {
    forall k | 0 <= k < |s.consumed| ensures s.consumed[k] == Filter(s.pushed + [e], TargetIs(c.start + k)) {
      FilterSnoc(s.pushed, e, TargetIs(c.start + k));
    }
  }

  lemma PushKeepsSafe(c: Config, s: State, i: nat)
    requires c.Valid() && Safe(c, s) && i < |s.running|
    ensures Safe(c, Pushed(c, s, i))
  {
    PushKeepsInv(c, s, i);
    PushKeepsBudgets(c, s, i);
    PushKeepsLedger(c, s, i);
    assert s.running[i] in s.running;
    assert forall x :: x in Pushed(c, s, i).running ==> x in s.running;
  }

  // ---- Sampling ----

  lemma NoneStale(c: Config, s: State)
    requires c.Valid() && Safe(c, s)
    ensures Filter(s.entries, OlderThan(Low(c, s))) == []
  {
    var p := OlderThan<nat>(Low(c, s));
    FilterElements(s.pushed, TargetFrom(NextStep(c, s)));
    forall e | e in s.entries ensures !p(e) {
      assert e in s.pushed && WithinAge(c, s, e);
    }
    FilterNone(s.entries, p);
  }

  lemma {:induction false} FilterAgrees(s: seq<Group>, p: Group -> bool, q: Group -> bool)
    requires forall e :: e in s ==> (p(e) <==> q(e))
    ensures Filter(s, p) == Filter(s, q)
  {
    if s != [] {
      FilterAgrees(s[..|s| - 1], p, q);
    }
  }

  lemma {:induction false} FilterNested(s: seq<Group>, p: Group -> bool, q: Group -> bool)
    requires forall e :: p(e) ==> q(e)
    ensures Filter(Filter(s, q), p) == Filter(s, p)
  {
    if s != [] {
      var n := |s| - 1;
      FilterNested(s[..n], p, q);
      FilterSnoc(Filter(s[..n], q), s[n], p);
    }
  }

  /** The groups the buffer would hand out are all those pushed for the current step. */
  lemma ReadyIsTarget(c: Config, s: State)
    requires c.Valid() && Safe(c, s) && !s.sampled
    ensures Filter(s.entries, ReadyFor(Low(c, s), s.trainerVersion)) == Filter(s.pushed, TargetIs(s.trainerVersion))
  {
    var w := s.trainerVersion;
    FilterElements(s.pushed, TargetFrom(w));
    forall e | e in s.entries ensures ReadyFor(Low(c, s), w)(e) <==> TargetIs(w)(e) {
      assert WithinAge(c, s, e);
    }
    FilterAgrees(s.entries, ReadyFor(Low(c, s), w), TargetIs(w));
    FilterNested(s.pushed, TargetIs(w), TargetFrom(w));
  }

  lemma {:induction false} DropAllMatches(s: seq<Group>, p: Group -> bool, n: nat, q: Group -> bool)
    requires |Filter(s, p)| <= n
    requires forall e :: e in s ==> (q(e) <==> !p(e))
    ensures DropMatches(s, p, n) == Filter(s, q)
  {
    if s != [] {
      DropAllMatches(s[..|s| - 1], p, n, q);
      assert s[|s| - 1] in s;
    }
  }

  lemma DrawLeavesLaterSteps(c: Config, s: State)
    requires c.Valid() && Safe(c, s) && !s.sampled
    ensures DropMatches(s.entries, ReadyFor(Low(c, s), s.trainerVersion), c.promptsPerStep)
         == Filter(s.pushed, TargetFrom(s.trainerVersion + 1))
  {
    var w := s.trainerVersion;
    var p := ReadyFor<nat>(Low(c, s), w);
    ReadyIsTarget(c, s);
    assert Budget(c, s, w);
    FilterElements(s.pushed, TargetFrom(w));
    forall e | e in s.entries ensures TargetFrom(w + 1)(e) <==> !p(e) {
      assert WithinAge(c, s, e);
    }
    DropAllMatches(s.entries, p, c.promptsPerStep, TargetFrom(w + 1));
    FilterNested(s.pushed, TargetFrom(w + 1), TargetFrom(w));
  }

  /** Sampling takes all groups pushed for the current step at once, or nothing. */
  lemma DrawIsAllOrNothing(c: Config, s: State)
    requires c.Valid() && Safe(c, s) && !s.sampled
    ensures Drawn(c, s) ==
      if Count(s.pushed, s.trainerVersion) < c.promptsPerStep then s
      else s.(entries := Filter(s.pushed, TargetFrom(s.trainerVersion + 1)),
              consumed := s.consumed + [Filter(s.pushed, TargetIs(s.trainerVersion))],
              sampled := true)
  {
    var w, n := s.trainerVersion, c.promptsPerStep;
    NoneStale(c, s);
    ReadyIsTarget(c, s);
    assert Budget(c, s, w);
    ReadyAreInWindow(s.entries, Low(c, s), w);
    DrawLeavesLaterSteps(c, s);
    var ready := Filter(s.pushed, TargetIs(w));
    if |ready| >= n {
      assert ready[..n] == ready;
    }
  }

  lemma SampleKeepsSafe(c: Config, s: State)
    requires c.Valid() && Safe(c, s) && !s.sampled
    ensures Safe(c, Drawn(c, s))
  {
    SampleKeepsInv(c, s);
    DrawIsAllOrNothing(c, s);
    assert Budget(c, s, s.trainerVersion);
    QuietKeepsBudgets(c, s, Drawn(c, s));
  }

  /** Budgets depend only on what was reserved, spawned and pushed. */
  lemma QuietKeepsBudgets(c: Config, s: State, s': State)
    requires Budgets(c, s)
    requires s'.pushed == s.pushed && s'.running == s.running && s'.reservations == s.reservations
    requires s'.phase == s.phase || (!s.phase.Spawning? && !s'.phase.Spawning?)
    ensures Budgets(c, s')
  {
    forall t ensures Budget(c, s', t) {
      assert Budget(c, s, t);
    }
  }

  lemma StepKeepsSafe(c: Config, s: State, a: Action)
    requires c.Valid() && Safe(c, s) && Step(c, s, a).Some? && FreshStep(c, s, a)
    ensures Safe(c, Step(c, s, a).value)
  {
    StepKeepsInv(c, s, a);
    match a
    case Reserve => ReserveKeepsSafe(c, s);
    case RefreshVersion => RefreshKeepsSafe(c, s);
    case Spawn => SpawnKeepsSafe(c, s);
    case Push(i) => PushKeepsSafe(c, s, i);
    case Sample => SampleKeepsSafe(c, s);
    case _ => QuietStepKeepsSafe(c, s, a);
  }

  lemma QuietStepKeepsSafe(c: Config, s: State, a: Action)
    requires c.Valid() && Safe(c, s) && Step(c, s, a).Some?
    requires a.ReadVersion? || a.ReadLast? || a.ReleaseEarly? || a.Finish? || a.Bump? || a.DeliverVersion?
    requires Inv(c, Step(c, s, a).value)
    ensures Safe(c, Step(c, s, a).value)
  {
    QuietKeepsBudgets(c, s, Step(c, s, a).value);
  }

  lemma {:induction false} RunIsSafe(c: Config, schedule: seq<Action>)
    requires c.Valid() && Exec(c, schedule).Some? && FreshRun(c, schedule)
    ensures Safe(c, Exec(c, schedule).value)
  {
    if schedule == [] {
      forall t ensures Budget(c, Init(c), t) {
      }
    } else {
      var before := schedule[..|schedule| - 1];
      RunIsSafe(c, before);
      StepKeepsSafe(c, Exec(c, before).value, schedule[|schedule| - 1]);
    }
  }

  // ---- Main results, for every run whose reservations are fresh ----

  /** Some schedule without a stale reservation ends in this state. */
  ghost predicate FreshlyReachable(c: Config, s: State) { exists schedule :: ReachedFreshly(c, schedule, s) }

  ghost predicate ReachedFreshly(c: Config, schedule: seq<Action>, s: State) {
    Exec(c, schedule) == Some(s) && FreshRun(c, schedule)
  }

  lemma FreshlyReachableIsSafe(c: Config, s: State)
    requires c.Valid() && FreshlyReachable(c, s)
    ensures Safe(c, s)
  {
    var schedule :| ReachedFreshly(c, schedule, s);
    RunIsSafe(c, schedule);
  }

  /**
   * Sampling never raises. It waits until all the groups of the current step are in the buffer, and then returns
   * exactly those, in the order they were pushed, each between 0 and `maxAge` versions old.
   */
  lemma SampleServesItsStep(c: Config, s: State)
    requires c.Valid() && FreshlyReachable(c, s) && !s.sampled
    ensures !s.crashed
    ensures var group := Filter(s.pushed, TargetIs(s.trainerVersion));
      var outcome := SampleResult(s.entries, c.promptsPerStep, s.trainerVersion, c.maxAge);
      && (outcome.NotReady? <==> |group| < c.promptsPerStep)
      && (!outcome.NotReady? ==> |group| == c.promptsPerStep && outcome.Sampled? && outcome.items == GroupsOf(group))
      && (forall e :: e in group ==> 0 <= s.trainerVersion - e.version <= c.maxAge)
  {
    FreshlyReachableIsSafe(c, s);
    NoneStale(c, s);
    ReadyIsTarget(c, s);
    assert Budget(c, s, s.trainerVersion);
    ReadyAreInWindow(s.entries, Low(c, s), s.trainerVersion);
    var group := Filter(s.pushed, TargetIs(s.trainerVersion));
    FilterElements(s.pushed, TargetIs(s.trainerVersion));
    forall e | e in group ensures 0 <= s.trainerVersion - e.version <= c.maxAge {
      assert e in s.pushed && WithinAge(c, s, e);
    }
    if |group| >= c.promptsPerStep {
      assert group[..c.promptsPerStep] == group;
    }
  }

  lemma SafeOutstandingInWindow(c: Config, s: State, e: Group)
    requires Safe(c, s) && (e in s.entries || e in s.running)
    ensures s.trainerVersion <= e.target <= s.trainerVersion + c.maxAge
    ensures 0 <= e.target - e.version <= c.maxAge
  {
    FilterElements(s.pushed, TargetFrom(NextStep(c, s)));
    assert WithinAge(c, s, e);
    if e in s.running {
      var i :| 0 <= i < |s.running| && s.running[i] == e;
      RunningIsFuture(c, s, i);
    }
  }

  /** Every buffered or in-flight group is for a step still to come, at most `maxAge` ahead of trainer and model. */
  lemma OutstandingInWindow(c: Config, s: State, e: Group)
    requires c.Valid() && FreshlyReachable(c, s) && (e in s.entries || e in s.running)
    ensures s.trainerVersion <= e.target <= s.trainerVersion + c.maxAge
    ensures 0 <= e.target - e.version <= c.maxAge
  {
    FreshlyReachableIsSafe(c, s);
    SafeOutstandingInWindow(c, s, e);
  }

  /** Groups whose targets lie in `width` consecutive steps, at most `n` of each, number at most `n * width`. */
  lemma {:induction false} WindowHoldsAtMost(s: seq<Group>, low: int, width: nat, n: nat)
    requires forall e :: e in s ==> low <= e.target < low + width
    requires forall t :: Count(s, t) <= n
    ensures |s| <= n * width
    decreases width
  {
    if width == 0 {
      FilterNone(s, TargetBelow(low));
      FilterNone(s, TargetFrom(low));
      FilterPartition(s, TargetBelow(low), TargetFrom(low));
    } else {
      var later := TargetFrom(low + 1);
      var others := Filter(s, later);
      FilterPartition(s, TargetIs(low), later);
      FilterElements(s, later);
      forall t ensures Count(others, t) <= n {
        CountOfFilter(s, later, t);
        assert Count(s, t) <= n;
      }
      WindowHoldsAtMost(others, low + 1, width - 1, n);
      assert Count(s, low) <= n;
      assert n * width == n * (width - 1) + n;
    }
  }

  lemma {:induction false} CountOfFilter(s: seq<Group>, q: Group -> bool, t: int)
    ensures Count(Filter(s, q), t) <= Count(s, t)
  {
    if s != [] {
      var n := |s| - 1;
      CountOfFilter(s[..n], q, t);
      FilterSnoc(Filter(s[..n], q), s[n], TargetIs(t));
    }
  }

  lemma OutstandingPerStep(c: Config, s: State, t: int)
    requires Safe(c, s)
    ensures Count(s.entries + s.running, t) <= c.promptsPerStep
  {
    FilterConcat(s.entries, s.running, TargetIs(t));
    CountOfFilter(s.pushed, TargetFrom(NextStep(c, s)), t);
    assert Budget(c, s, t);
  }

  lemma SafeHasRoom(c: Config, s: State)
    requires c.Valid() && Safe(c, s)
    ensures |s.entries| + |s.running| <= c.BufferSize()
  {
    var n, width := c.promptsPerStep, c.maxAge + 1;
    var all := s.entries + s.running;
    assert |all| <= n * width by {
      forall e | e in all ensures s.trainerVersion <= e.target < s.trainerVersion + width {
        SafeOutstandingInWindow(c, s, e);
      }
      forall t ensures Count(all, t) <= n {
        OutstandingPerStep(c, s, t);
      }
      WindowHoldsAtMost(all, s.trainerVersion, width, n);
    }
    RoomForSlack(n, c.maxAge);
  }

  /** A worker that is ready to push always finds room: the buffer never reports that it is full. */
  lemma BufferNeverFull(c: Config, s: State)
    requires c.Valid() && FreshlyReachable(c, s)
    ensures |s.entries| + |s.running| <= c.BufferSize()
  {
    FreshlyReachableIsSafe(c, s);
    SafeHasRoom(c, s);
  }

  lemma RoomForSlack(n: nat, age: nat)
    requires 1 <= age
    ensures n * (age + 1) <= n * age * 2
  {
    assert n * (age + 1) == n * age + n;
    assert n <= n * age;
  }

  /**
   * A reserved step is owed exactly one group per prompt, pushed, in flight or still to be spawned; a step that was
   * not reserved has none.
   */
  lemma GroupsPerStep(c: Config, s: State, t: int)
    requires c.Valid() && FreshlyReachable(c, s)
    ensures Count(s.pushed, t) + Count(s.running, t) + Unspawned(c, s, t)
         == if t in s.reservations then c.promptsPerStep else 0
  {
    FreshlyReachableIsSafe(c, s);
    assert Budget(c, s, t);
  }

  /** Everything pushed is either still in the buffer or was consumed once, and nothing else was consumed. */
  lemma PushedOnceConsumedOnce(c: Config, s: State)
    requires c.Valid() && FreshlyReachable(c, s)
    ensures multiset(s.pushed) == multiset(s.entries) + multiset(Flatten(s.consumed))
  {
    assert Ledger(c, s) && Ages(c, s) by {
      FreshlyReachableIsSafe(c, s);
    }
    LedgerBalances(c, s);
  }

  lemma LedgerBalances(c: Config, s: State)
    requires Ledger(c, s) && Ages(c, s)
    ensures multiset(s.pushed) == multiset(s.entries) + multiset(Flatten(s.consumed))
  {
    NothingBelowStart(c, s);
    Balances(s.pushed, s.entries, s.consumed, c.start, NextStep(c, s));
  }

  lemma Balances(pushed: seq<Group>, entries: seq<Group>, consumed: seq<seq<Group>>, start: int, next: int)
    requires next == start + |consumed| && entries == Filter(pushed, TargetFrom(next))
    requires Filter(pushed, TargetBelow(start)) == []
    requires forall k :: 0 <= k < |consumed| ==> consumed[k] == Filter(pushed, TargetIs(start + k))
    ensures multiset(pushed) == multiset(entries) + multiset(Flatten(consumed))
  {
    ConsumedBelow(pushed, consumed, start);
    FilterPartition(pushed, TargetFrom(next), TargetBelow(next));
  }

  /** Each sampled step took all groups ever pushed for it, in push order, and the buffer holds later steps only. */
  lemma ConsumedAtIntendedStep(c: Config, s: State)
    requires c.Valid() && FreshlyReachable(c, s)
    ensures forall k {:trigger s.consumed[k]} :: 0 <= k < |s.consumed| ==>
              s.consumed[k] == Filter(s.pushed, TargetIs(c.start + k)) && |s.consumed[k]| == c.promptsPerStep
    ensures s.entries == Filter(s.pushed, TargetFrom(NextStep(c, s)))
    ensures s.trainerVersion + (if s.sampled then 1 else 0) == NextStep(c, s)
  {
    assert Ledger(c, s) by {
      FreshlyReachableIsSafe(c, s);
    }
  }

  lemma NothingBelowStart(c: Config, s: State)
    requires Ages(c, s)
    ensures Filter(s.pushed, TargetBelow(c.start)) == []
  {
    forall e | e in s.pushed ensures !TargetBelow(c.start)(e) {
      assert WithinAge(c, s, e);
    }
    FilterNone(s.pushed, TargetBelow(c.start));
  }

  /** Steps that each took what was pushed for them took, together, what was pushed for steps below the next. */
  lemma {:induction false} ConsumedBelow(pushed: seq<Group>, consumed: seq<seq<Group>>, start: int)
    requires Filter(pushed, TargetBelow(start)) == []
    requires forall k :: 0 <= k < |consumed| ==> consumed[k] == Filter(pushed, TargetIs(start + k))
    ensures multiset(Flatten(consumed)) == multiset(Filter(pushed, TargetBelow(start + |consumed|)))
  {
    if consumed != [] {
      var m := |consumed| - 1;
      ConsumedBelow(pushed, consumed[..m], start);
      SplitTop(pushed, start + m);
      SameMultisets(Flatten(consumed[..m]), consumed[m], Filter(pushed, TargetBelow(start + m)),
                    Filter(pushed, TargetIs(start + m)));
    }
  }

  lemma SameMultisets<T>(a: seq<T>, b: seq<T>, c: seq<T>, d: seq<T>)
    requires multiset(a) == multiset(c) && b == d
    ensures multiset(a + b) == multiset(c) + multiset(d)
  {
  }

  lemma {:induction false} SplitTop(s: seq<Group>, t: int)
    ensures multiset(Filter(s, TargetBelow(t + 1)))
         == multiset(Filter(s, TargetBelow(t))) + multiset(Filter(s, TargetIs(t)))
  {
    if s != [] {
      SplitTop(s[..|s| - 1], t);
    }
  }
}
