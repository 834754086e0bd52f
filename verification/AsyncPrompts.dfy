/**
 * Which prompts a training step gets, and with which version: every reservation makes one group for each prompt of its
 * batch, so that on a run without stale reservations every step trains on each prompt exactly once.
 */
module AsyncPrompts {
  import opened Seqs
  import opened Lists
  import opened ReplayBuffers
  import opened AsyncProtocol
  import opened AsyncSafety
  import opened AsyncProgress
  import opened AsyncStale

  /** The group of prompt `p` for step `t`. */
  function IsFor(t: int, p: nat): Group -> bool { (e: Group) => e.target == t && e.group == p }

  function CountFor(s: seq<Group>, t: int, p: nat): nat { |Filter(s, IsFor(t, p))| }

  /** Whether prompt `p` of step `t` is still to be spawned. */
  function ToSpawn(c: Config, s: State, t: int, p: nat): nat {
    if s.phase.Spawning? && s.phase.target == t && s.phase.nextPrompt <= p < c.promptsPerStep then 1 else 0
  }

  /** Every reservation of a step has made, or will make, exactly one group of each prompt. */
  ghost predicate PromptOwed(c: Config, s: State, t: int, p: nat) {
    CountFor(s.pushed, t, p) + CountFor(s.running, t, p) + ToSpawn(c, s, t, p)
      == if p < c.promptsPerStep then TimesReserved(s, t) else 0
  }

  lemma CountForSnoc(s: seq<Group>, e: Group, t: int, p: nat)
    ensures CountFor(s + [e], t, p) == CountFor(s, t, p) + (if e.target == t && e.group == p then 1 else 0)
  {
    FilterSnoc(s, e, IsFor(t, p));
  }

  lemma SpawnKeepsPrompts(c: Config, s: State, t: int, p: nat)
    requires s.phase.Spawning? && s.phase.nextPrompt < c.promptsPerStep && PromptOwed(c, s, t, p)
    ensures PromptOwed(c, Spawned(c, s), t, p)
  {
    CountForSnoc(s.running, Entry(s.phase.nextPrompt, s.phase.generation, s.phase.target), t, p);
  }

  lemma PushKeepsPrompts(c: Config, s: State, i: nat, t: int, p: nat)
    requires i < |s.running| && PromptOwed(c, s, t, p)
    ensures PromptOwed(c, Pushed(c, s, i), t, p)
  {
    CountForSnoc(s.pushed, s.running[i], t, p);
    FilterRemoveAt(s.running, i, IsFor(t, p));
  }

  lemma ReserveKeepsPrompts(c: Config, s: State, t: int, p: nat)
    requires c.Valid() && s.phase.HasLast? && PromptOwed(c, s, t, p)
    ensures PromptOwed(c, Reserved(c, s), t, p)
  {
  }

  lemma StepKeepsPrompts(c: Config, s: State, a: Action, t: int, p: nat)
    requires c.Valid() && Inv(c, s) && PromptOwed(c, s, t, p) && Step(c, s, a).Some?
    ensures PromptOwed(c, Step(c, s, a).value, t, p)
  {
    match a
    case Reserve => ReserveKeepsPrompts(c, s, t, p);
    case Spawn => SpawnKeepsPrompts(c, s, t, p);
    case Push(i) => PushKeepsPrompts(c, s, i, t, p);
    case _ =>
  }

  lemma {:induction false} RunKeepsPrompts(c: Config, schedule: seq<Action>, t: int, p: nat)
    requires c.Valid() && Exec(c, schedule).Some?
    ensures PromptOwed(c, Exec(c, schedule).value, t, p)
  {
    if schedule != [] {
      var before := schedule[..|schedule| - 1];
      RunKeepsPrompts(c, before, t, p);
      RunKeepsInv(c, before);
      StepKeepsPrompts(c, Exec(c, before).value, schedule[|schedule| - 1], t, p);
    }
  }

  /**
   * In every reachable state, stale or not: the groups of prompt `p` made for a step, pushed, in flight or still to be
   * spawned, are as many as the step's reservations, and there are none beyond the batch.
   */
  lemma PromptsPerReservation(c: Config, s: State, t: int, p: nat)
    requires c.Valid() && Reachable(c, s)
    ensures CountFor(s.pushed, t, p) + CountFor(s.running, t, p) + ToSpawn(c, s, t, p)
         == if p < c.promptsPerStep then TimesReserved(s, t) else 0
  {
    var schedule :| Reached(c, schedule, s);
    RunKeepsPrompts(c, schedule, t, p);
  }

  // ---- Runs without stale reservations ----

  lemma DistinctTimes(s: State, t: int)
    requires Distinct(s.reservations)
    ensures TimesReserved(s, t) == if t in s.reservations then 1 else 0
  {
    DistinctOnce(s.reservations, t);
  }

  lemma {:induction false} DistinctOnce(s: seq<int>, t: int)
    requires Distinct(s)
    ensures multiset(s)[t] == if t in s then 1 else 0
  {
    if s != [] {
      var n := |s| - 1;
      DistinctOnce(s[..n], t);
      assert s == s[..n] + [s[n]];
    }
  }

  /** Each prompt of a reserved step has exactly one group, pushed, in flight or still to be spawned. */
  lemma EachPromptOnce(c: Config, s: State, t: int, p: nat)
    requires c.Valid() && FreshlyReachable(c, s)
    ensures CountFor(s.pushed, t, p) + CountFor(s.running, t, p) + ToSpawn(c, s, t, p)
         == if t in s.reservations && p < c.promptsPerStep then 1 else 0
  {
    var schedule :| ReachedFreshly(c, schedule, s);
    RunKeepsPrompts(c, schedule, t, p);
    ReservedOnceIffFresh(c, schedule);
    DistinctTimes(s, t);
  }

  ghost function Occurrences(s: seq<nat>, p: nat): nat { multiset(s)[p] }

  /** How often a prompt's number stands in a list of groups. */
  lemma {:induction false} PromptCount(s: seq<Group>, t: int, p: nat)
    ensures Occurrences(GroupsOf(Filter(s, TargetIs(t))), p) == CountFor(s, t, p)
  {
    if s != [] {
      var n := |s| - 1;
      PromptCount(s[..n], t, p);
      var kept := Filter(s[..n], TargetIs(t));
      assert GroupsOf(kept + [s[n]]) == GroupsOf(kept) + [s[n].group];
    }
  }

  lemma PromptOccurs(c: Config, s: State, t: int, p: nat)
    requires c.Valid() && FreshlyReachable(c, s) && c.start <= t < NextStep(c, s)
    ensures Occurrences(GroupsOf(Filter(s.pushed, TargetIs(t))), p) == if p < c.promptsPerStep then 1 else 0
  {
    StepIsDone(c, s, t);
    PromptCount(s.pushed, t, p);
    EachPromptOnce(c, s, t, p);
    PromptSettled(c, s, t, p);
  }

  /** Each prompt occurs once among the groups pushed for a step that was passed. */
  lemma PromptsOfStep(c: Config, s: State, t: int)
    requires c.Valid() && FreshlyReachable(c, s) && c.start <= t < NextStep(c, s)
    ensures IsPermutation(GroupsOf(Filter(s.pushed, TargetIs(t))), c.promptsPerStep)
  {
    var groups, n := GroupsOf(Filter(s.pushed, TargetIs(t))), c.promptsPerStep;
    forall p: nat ensures Occurrences(groups, p) == Occurrences(Range(0, n), p) {
      PromptOccurs(c, s, t, p);
      RangeCount(0, n, p);
    }
    SameOccurrences(groups, Range(0, n));
  }

  /** Every training step that was sampled trained on each prompt of its batch exactly once. */
  lemma TrainsOnEachPrompt(c: Config, s: State, k: nat)
    requires c.Valid() && FreshlyReachable(c, s) && k < |s.consumed|
    ensures IsPermutation(GroupsOf(s.consumed[k]), c.promptsPerStep)
  {
    ConsumedIsPushed(c, s, k);
    PromptsOfStep(c, s, c.start + k);
  }

  lemma ConsumedIsPushed(c: Config, s: State, k: nat)
    requires c.Valid() && FreshlyReachable(c, s) && k < |s.consumed|
    ensures s.consumed[k] == Filter(s.pushed, TargetIs(c.start + k))
  {
    ConsumedAtIntendedStep(c, s);
  }

  lemma SameOccurrences(a: seq<nat>, b: seq<nat>)
    requires forall p: nat :: Occurrences(a, p) == Occurrences(b, p)
    ensures multiset(a) == multiset(b)
  {
    forall p: nat ensures multiset(a)[p] == multiset(b)[p] {
      assert Occurrences(a, p) == Occurrences(b, p);
    }
  }

  /** A step that was passed was reserved, and none of its groups is in flight or still to be spawned. */
  lemma StepIsDone(c: Config, s: State, t: int)
    requires c.Valid() && FreshlyReachable(c, s) && c.start <= t < NextStep(c, s)
    ensures t in s.reservations && Count(s.running, t) == 0 && Unspawned(c, s, t) == 0
  {
    FreshlyReachableIsSafe(c, s);
    SampledIsComplete(c, s, t);
    assert Budget(c, s, t);
  }

  lemma PromptSettled(c: Config, s: State, t: int, p: nat)
    requires c.Valid() && Count(s.running, t) == 0 && Unspawned(c, s, t) == 0
    ensures CountFor(s.running, t, p) == 0 && ToSpawn(c, s, t, p) == 0
  {
    FilterElements(s.running, TargetIs(t));
    assert forall e :: e in s.running ==> !TargetIs(t)(e);
    FilterNone(s.running, IsFor(t, p));
  }

  // ---- With which version ----

  /** When the collector last read its version, for a batch or after a refit. */
  function LastRead(schedule: seq<Action>): (r: Option<nat>)
    ensures r.Some? ==> r.value < |schedule|
    ensures r.Some? ==> schedule[r.value].ReadVersion? || schedule[r.value].RefreshVersion?
    ensures forall i :: 0 <= i < |schedule| && (r == None || r.value < i) ==>
                          !schedule[i].ReadVersion? && !schedule[i].RefreshVersion?
  {
    if schedule == [] then None
    else
      var n := |schedule| - 1;
      if schedule[n].ReadVersion? || schedule[n].RefreshVersion? then Some(n) else LastRead(schedule[..n])
  }

  /** The collector's version at that moment. */
  function VersionRead(c: Config, schedule: seq<Action>): Option<int> {
    match LastRead(schedule)
    case None => None
    case Some(k) =>
      match Exec(c, schedule[..k])
      case None => None
      case Some(s) => Some(s.collectorVersion)
  }

  lemma {:induction false} GeneratesVersionRead(c: Config, schedule: seq<Action>)
    requires Exec(c, schedule).Some?
    ensures var s := Exec(c, schedule).value; !s.phase.Idle? ==> VersionRead(c, schedule) == Some(s.phase.generation)
  {
    if schedule != [] {
      var n := |schedule| - 1;
      GeneratesVersionRead(c, schedule[..n]);
      var a, s := schedule[n], Exec(c, schedule[..n]).value;
      if !a.ReadVersion? && !a.RefreshVersion? {
        SameRead(c, schedule);
        KeepsGeneration(c, s, a);
      }
    }
  }

  lemma SameRead(c: Config, schedule: seq<Action>)
    requires schedule != [] && !schedule[|schedule| - 1].ReadVersion? && !schedule[|schedule| - 1].RefreshVersion?
    ensures VersionRead(c, schedule) == VersionRead(c, schedule[..|schedule| - 1])
  {
    var before := schedule[..|schedule| - 1];
    if LastRead(before).Some? {
      assert schedule[..LastRead(before).value] == before[..LastRead(before).value];
    }
  }

  lemma KeepsGeneration(c: Config, s: State, a: Action)
    requires Step(c, s, a).Some? && !a.ReadVersion? && !a.RefreshVersion?
    ensures var s' := Step(c, s, a).value;
      s'.phase.Idle? || (!s.phase.Idle? && s'.phase.generation == s.phase.generation)
  {
    match a
    case Reserve =>
    case Spawn =>
    case Push(_) =>
    case Sample =>
    case _ =>
  }

  /**
   * A worker is started for the next prompt of the reserved step, with the version that the collector last read: at the
   * start of the batch, or after the last refit that the batch waited for, whatever it was told since.
   */
  lemma SpawnsVersionRead(c: Config, schedule: seq<Action>)
    requires Exec(c, schedule + [Spawn]).Some?
    ensures Exec(c, schedule).Some? && Exec(c, schedule).value.phase.Spawning?
    ensures var s, s' := Exec(c, schedule).value, Exec(c, schedule + [Spawn]).value;
      && |s'.running| == |s.running| + 1 && s'.running[..|s.running|] == s.running
      && s'.running[|s.running|].target == s.phase.target && s'.running[|s.running|].group == s.phase.nextPrompt
      && VersionRead(c, schedule) == Some(s'.running[|s.running|].version)
  {
    assert (schedule + [Spawn])[..|schedule|] == schedule;
    GeneratesVersionRead(c, schedule);
  }

  // ---- How many workers, and when a reservation is given back ----

  /** Never more workers than the semaphore lets start. */
  ghost predicate InflightBounded(c: Config, s: State) { |s.running| + |s.finishing| <= c.promptsPerStep * c.maxAge }

  lemma StepKeepsInflight(c: Config, s: State, a: Action)
    requires c.Valid() && InflightBounded(c, s) && Step(c, s, a).Some?
    ensures InflightBounded(c, Step(c, s, a).value)
  {
    match a
    case Spawn => AtLeastOneWorker(c.promptsPerStep, c.maxAge);
    case Push(_) =>
    case Reserve =>
    case Sample =>
    case _ =>
  }

  lemma AtLeastOneWorker(n: nat, age: nat)
    requires 1 <= n && 1 <= age
    ensures 1 <= n * age
  {
  }

  lemma {:induction false} RunBoundsInflight(c: Config, schedule: seq<Action>)
    requires c.Valid() && Exec(c, schedule).Some?
    ensures InflightBounded(c, Exec(c, schedule).value)
  {
    if schedule == [] {
      AtLeastOneWorker(c.promptsPerStep, c.maxAge);
    } else {
      var before := schedule[..|schedule| - 1];
      RunBoundsInflight(c, before);
      StepKeepsInflight(c, Exec(c, before).value, schedule[|schedule| - 1]);
    }
  }

  /**
   * A step that was reserved and is not being generated any more has had the group of its first prompt pushed, or a worker
   * of it has pushed and finished.
   */
  ghost predicate ReleasedByPush(s: State, t: int) {
    t in s.reservations && t !in s.generating ==> CountFor(s.pushed, t, 0) > 0 || Count(s.finishing, t) < Count(s.pushed, t)
  }

  /** Workers that are finishing have pushed, each its own group. */
  ghost predicate FinishingPushed(s: State, t: int) {
    Count(s.finishing, t) <= Count(s.pushed, t) && CountFor(s.finishing, t, 0) <= CountFor(s.pushed, t, 0)
  }

  /**
   * When a reservation can be given back while nothing else changes: exactly when a worker for the first prompt of its
   * batch has pushed and has not finished yet.
   */
  lemma ReleasedEarlyIff(c: Config, s: State, t: int)
    requires t in s.generating
    ensures (exists a :: Step(c, s, a) == Some(s.(generating := s.generating - {t})))
       <==> exists e :: e in s.finishing && e.target == t && e.group == 0
  {
    var after := s.(generating := s.generating - {t});
    forall a | Step(c, s, a) == Some(after) ensures exists e :: e in s.finishing && e.target == t && e.group == 0 {
      OnlyEarlyReleases(c, s, a, t);
      assert s.finishing[a.worker] in s.finishing;
    }
    forall e | e in s.finishing && e.target == t && e.group == 0 ensures exists a :: Step(c, s, a) == Some(after) {
      var i :| 0 <= i < |s.finishing| && s.finishing[i] == e;
      assert Step(c, s, ReleaseEarly(i)) == Some(after);
    }
  }

  lemma OnlyEarlyReleases(c: Config, s: State, a: Action, t: int)
    requires t in s.generating && Step(c, s, a) == Some(s.(generating := s.generating - {t}))
    ensures a.ReleaseEarly? && a.worker < |s.finishing|
    ensures s.finishing[a.worker].target == t && s.finishing[a.worker].group == 0
  {
    var after := s.(generating := s.generating - {t});
    assert t !in after.generating;
    match a
    case Finish(_) =>
    case Sample =>
    case Push(_) =>
    case Reserve =>
    case Spawn =>
    case _ =>
  }

  lemma PushKeepsReleased(c: Config, s: State, i: nat, t: int)
    requires i < |s.running| && ReleasedByPush(s, t) && FinishingPushed(s, t)
    ensures ReleasedByPush(Pushed(c, s, i), t) && FinishingPushed(Pushed(c, s, i), t)
  {
    CountSnoc(s.pushed, s.running[i], t);
    CountSnoc(s.finishing, s.running[i], t);
    CountForSnoc(s.pushed, s.running[i], t, 0);
    CountForSnoc(s.finishing, s.running[i], t, 0);
  }

  lemma FinishKeepsReleased(s: State, s': State, i: nat, t: int)
    requires i < |s.finishing| && ReleasedByPush(s, t) && FinishingPushed(s, t)
    requires s' == s.(generating := s.generating - {s.finishing[i].target}, finishing := RemoveAt(s.finishing, i))
    ensures ReleasedByPush(s', t) && FinishingPushed(s', t)
  {
    FilterRemoveAt(s.finishing, i, TargetIs(t));
    FilterRemoveAt(s.finishing, i, IsFor(t, 0));
  }

  lemma EarlyKeepsReleased(s: State, s': State, i: nat, t: int)
    requires i < |s.finishing| && s.finishing[i].group == 0 && ReleasedByPush(s, t) && FinishingPushed(s, t)
    requires s' == s.(generating := s.generating - {s.finishing[i].target})
    ensures ReleasedByPush(s', t) && FinishingPushed(s', t)
  {
    FilterRemoveAt(s.finishing, i, IsFor(t, 0));
  }

  lemma StepKeepsReleased(c: Config, s: State, a: Action, t: int)
    requires ReleasedByPush(s, t) && FinishingPushed(s, t) && Step(c, s, a).Some?
    ensures ReleasedByPush(Step(c, s, a).value, t) && FinishingPushed(Step(c, s, a).value, t)
  {
    match a
    case Push(i) => PushKeepsReleased(c, s, i, t);
    case Finish(i) => FinishKeepsReleased(s, Step(c, s, a).value, i, t);
    case ReleaseEarly(i) => EarlyKeepsReleased(s, Step(c, s, a).value, i, t);
    case Reserve =>
    case Spawn =>
    case Sample =>
    case _ =>
  }

  lemma {:induction false} RunKeepsReleased(c: Config, schedule: seq<Action>, t: int)
    requires Exec(c, schedule).Some?
    ensures ReleasedByPush(Exec(c, schedule).value, t) && FinishingPushed(Exec(c, schedule).value, t)
  {
    if schedule != [] {
      var before := schedule[..|schedule| - 1];
      RunKeepsReleased(c, before, t);
      StepKeepsReleased(c, Exec(c, before).value, schedule[|schedule| - 1], t);
    }
  }
}
