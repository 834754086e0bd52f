/**
 * What stale reservations do to a run, for every schedule: each reservation of a step makes one more set of groups for
 * it, the step consumes one set, and the rest stays in the buffer until the age check stops the trainer.
 */
module AsyncStale {
  import opened Seqs
  import opened Lists
  import opened ReplayBuffers
  import opened AsyncProtocol
  import opened AsyncSafety
  import opened AsyncProgress

  /** How often step `t` has been reserved. */
  ghost function TimesReserved(s: State, t: int): nat { multiset(s.reservations)[t] }

  /** The groups that `times` reservations of a step make. */
  function GroupsFor(c: Config, times: nat): nat { c.promptsPerStep * times }

  lemma OneMoreReservation(c: Config, times: nat)
    ensures GroupsFor(c, times + 1) == GroupsFor(c, times) + c.promptsPerStep
  {
  }

  /** Every reservation of a step is owed one group per prompt: pushed, in flight or still to be spawned. */
  ghost predicate Owed(c: Config, s: State, t: int) {
    Count(s.pushed, t) + Count(s.running, t) + Unspawned(c, s, t) == GroupsFor(c, TimesReserved(s, t))
  }

  ghost predicate AllOwed(c: Config, s: State) { forall t :: Owed(c, s, t) }

  /** The sampled steps took one set of groups each, meant for them; the buffer has everything else that was pushed. */
  ghost predicate Accounts(c: Config, s: State) {
    && s.trainerVersion + (if s.sampled then 1 else 0) == NextStep(c, s)
    && multiset(s.pushed) == multiset(s.entries) + multiset(Flatten(s.consumed))
    && (forall k {:trigger s.consumed[k]} :: 0 <= k < |s.consumed| ==> IsSetFor(c, s.consumed[k], c.start + k))
  }

  ghost predicate IsSetFor(c: Config, groups: seq<Group>, t: int) {
    |groups| == c.promptsPerStep && forall e :: e in groups ==> e.target == t
  }

  // ---- Kept by every action ----

  lemma ReserveKeepsOwed(c: Config, s: State, t: int)
    requires s.phase.HasLast? && Owed(c, s, t) && 1 <= c.promptsPerStep
    ensures Owed(c, Reserved(c, s), t)
  {
    OneMoreReservation(c, TimesReserved(s, t));
  }

  lemma SpawnKeepsOwed(c: Config, s: State, t: int)
    requires s.phase.Spawning? && s.phase.nextPrompt < c.promptsPerStep && Owed(c, s, t)
    ensures Owed(c, Spawned(c, s), t)
  {
    FilterSnoc(s.running, Entry(s.phase.nextPrompt, s.phase.generation, s.phase.target), TargetIs(t));
  }

  lemma PushKeepsOwed(c: Config, s: State, i: nat, t: int)
    requires i < |s.running| && Owed(c, s, t)
    ensures Owed(c, Pushed(c, s, i), t)
  {
    FilterSnoc(s.pushed, s.running[i], TargetIs(t));
    FilterRemoveAt(s.running, i, TargetIs(t));
  }

  lemma StepKeepsOwed(c: Config, s: State, a: Action, t: int)
    requires c.Valid() && Inv(c, s) && Owed(c, s, t) && Step(c, s, a).Some?
    ensures Owed(c, Step(c, s, a).value, t)
  {
    match a
    case Reserve => ReserveKeepsOwed(c, s, t);
    case Spawn => SpawnKeepsOwed(c, s, t);
    case Push(i) => PushKeepsOwed(c, s, i, t);
    case Sample =>
    case _ => QuietStep(c, s, a);
  }

  /** Other actions do not touch the groups. */
  lemma QuietStep(c: Config, s: State, a: Action)
    requires Step(c, s, a).Some? && !(a.Reserve? || a.Spawn? || a.Push? || a.Sample?)
    ensures var s' := Step(c, s, a).value;
      && s'.pushed == s.pushed && s'.running == s.running && s'.reservations == s.reservations
      && forall t :: Unspawned(c, s', t) == Unspawned(c, s, t)
  {
  }

  /** What a successful draw takes: one set of groups for the current step. */
  lemma DrawKeepsAccounts(c: Config, s: State)
    requires c.Valid() && Accounts(c, s) && !s.sampled
    ensures Accounts(c, Drawn(c, s))
  {
    var n, w := c.promptsPerStep, s.trainerVersion;
    var ready := ReadyFor<nat>(Low(c, s), w);
    if SampleResult(s.entries, n, w, c.maxAge).Sampled? {
      TakenIsSet(c, s.entries, Low(c, s), w);
      DropMatchesConserves(s.entries, ready, n);
      AccountsAfterDraw(c, s, DropMatches(s.entries, ready, n), Filter(s.entries, ready)[..n]);
    }
  }

  lemma TakenIsSet(c: Config, entries: seq<Group>, low: int, w: int)
    requires c.promptsPerStep <= |Filter(entries, ReadyFor(low, w))|
    ensures IsSetFor(c, Filter(entries, ReadyFor(low, w))[..c.promptsPerStep], w)
  {
    var ready := Filter(entries, ReadyFor<nat>(low, w));
    FilterElements(entries, ReadyFor<nat>(low, w));
    assert forall e :: e in ready[..c.promptsPerStep] ==> e in ready;
  }

  lemma AccountsAfterDraw(c: Config, s: State, rest: seq<Group>, taken: seq<Group>)
    requires Accounts(c, s) && !s.sampled && IsSetFor(c, taken, s.trainerVersion)
    requires multiset(s.entries) == multiset(rest) + multiset(taken)
    ensures Accounts(c, s.(entries := rest, consumed := s.consumed + [taken], sampled := true))
  {
    FlattenSnoc(s.consumed, taken);
    var consumed := s.consumed + [taken];
    forall k {:trigger consumed[k]} | 0 <= k < |consumed| ensures IsSetFor(c, consumed[k], c.start + k) {
      assert k < |s.consumed| ==> consumed[k] == s.consumed[k];
    }
  }

  lemma PushKeepsAccounts(c: Config, s: State, i: nat)
    requires i < |s.running| && Accounts(c, s)
    ensures Accounts(c, Pushed(c, s, i))
  {
  }

  lemma StepKeepsAccounts(c: Config, s: State, a: Action)
    requires c.Valid() && Accounts(c, s) && Step(c, s, a).Some?
    ensures Accounts(c, Step(c, s, a).value)
  {
    match a
    case Sample => DrawKeepsAccounts(c, s);
    case Push(i) => PushKeepsAccounts(c, s, i);
    case _ =>
  }

  lemma {:induction false} RunKeepsAccounts(c: Config, schedule: seq<Action>)
    requires c.Valid() && Exec(c, schedule).Some?
    ensures var s := Exec(c, schedule).value; AllOwed(c, s) && Accounts(c, s)
  {
    if schedule == [] {
      forall t ensures Owed(c, Init(c), t) {
      }
    } else {
      var before, a := schedule[..|schedule| - 1], schedule[|schedule| - 1];
      var s := Exec(c, before).value;
      RunKeepsAccounts(c, before);
      RunKeepsInv(c, before);
      StepKeepsAccounts(c, s, a);
      forall t ensures Owed(c, Step(c, s, a).value, t) {
        StepKeepsOwed(c, s, a, t);
      }
    }
  }

  // ---- Where the groups of a step are ----

  lemma CountSnoc(s: seq<Group>, e: Group, t: int)
    ensures Count(s + [e], t) == Count(s, t) + (if e.target == t then 1 else 0)
  {
    FilterSnoc(s, e, TargetIs(t));
  }

  /** Counting does not depend on the order. */
  lemma {:induction false} SameCounts(a: seq<Group>, b: seq<Group>, t: int)
    requires multiset(a) == multiset(b)
    ensures Count(a, t) == Count(b, t)
    decreases |a|
  {
    assert |a| == |multiset(a)| == |multiset(b)| == |b|;
    if a != [] {
      var n := |a| - 1;
      assert a == a[..n] + [a[n]];
      assert a[n] in multiset(b);
      var i :| 0 <= i < |b| && b[i] == a[n];
      WithoutSame(a, b, i);
      SameCounts(a[..n], RemoveAt(b, i), t);
      CountSnoc(a[..n], a[n], t);
      FilterRemoveAt(b, i, TargetIs(t));
    }
  }

  lemma WithoutSame(a: seq<Group>, b: seq<Group>, i: nat)
    requires multiset(a) == multiset(b) && a != [] && i < |b| && b[i] == a[|a| - 1]
    ensures multiset(a[..|a| - 1]) == multiset(RemoveAt(b, i))
  {
    var n := |a| - 1;
    assert a == a[..n] + [a[n]];
    assert b == b[..i] + [b[i]] + b[i + 1..];
    assert multiset(RemoveAt(b, i)) == multiset(b) - multiset{b[i]};
    assert multiset(a[..n]) == multiset(a) - multiset{a[n]};
  }

  lemma {:induction false} CountAll(s: seq<Group>, t: int, u: int)
    requires forall e :: e in s ==> e.target == t
    ensures Count(s, u) == if u == t then |s| else 0
  {
    if s != [] {
      assert s[|s| - 1] in s;
      CountAll(s[..|s| - 1], t, u);
    }
  }

  /** Each sampled step took one set. */
  lemma {:induction false} CountConsumed(c: Config, consumed: seq<seq<Group>>, t: int)
    requires forall k :: 0 <= k < |consumed| ==> IsSetFor(c, consumed[k], c.start + k)
    ensures Count(Flatten(consumed), t) == if c.start <= t < c.start + |consumed| then c.promptsPerStep else 0
  {
    if consumed != [] {
      var n := |consumed| - 1;
      CountConsumed(c, consumed[..n], t);
      FilterConcat(Flatten(consumed[..n]), consumed[n], TargetIs(t));
      CountAll(consumed[n], c.start + n, t);
    }
  }

  /** Whether step `t` has taken its set. */
  predicate Passed(c: Config, s: State, t: int) { c.start <= t < NextStep(c, s) }

  lemma CountBuffered(c: Config, s: State, t: int)
    requires Accounts(c, s)
    ensures Count(s.pushed, t) == Count(s.entries, t) + (if Passed(c, s, t) then c.promptsPerStep else 0)
  {
    SameCounts(s.pushed, s.entries + Flatten(s.consumed), t);
    FilterConcat(s.entries, Flatten(s.consumed), TargetIs(t));
    CountConsumed(c, s.consumed, t);
  }

  /**
   * In every reachable state, whatever was stale: a step's groups that are buffered, in flight or still to be spawned
   * are one set for each of its reservations, less the one set that the step took if it was passed.
   */
  lemma GroupsPerReservation(c: Config, s: State, t: int)
    requires c.Valid() && Reachable(c, s)
    ensures Count(s.entries, t) + Count(s.running, t) + Unspawned(c, s, t) + (if Passed(c, s, t) then c.promptsPerStep else 0)
         == GroupsFor(c, TimesReserved(s, t))
  {
    var schedule :| Reached(c, schedule, s);
    RunKeepsAccounts(c, schedule);
    assert Owed(c, s, t);
    CountBuffered(c, s, t);
  }

  // ---- No step is reserved more than twice ----

  /** A step that was reserved twice is no later than anything the buffer has seen, or the collector has read of it. */
  ghost predicate TwiceIsSeen(s: State, t: int) {
    && TimesReserved(s, t) <= 2
    && (TimesReserved(s, t) == 2 ==> t <= s.last && (s.phase.HasLast? ==> t <= s.phase.seenLast))
  }

  lemma ReserveKeepsTwice(c: Config, s: State, t: int)
    requires c.Valid() && Inv(c, s) && TwiceIsSeen(s, t) && s.phase.HasLast?
    ensures TwiceIsSeen(Reserved(c, s), t)
  {
    assert TimesReserved(s, t) > 0 ==> t in s.reservations;
  }

  lemma StepKeepsTwice(c: Config, s: State, a: Action, t: int)
    requires c.Valid() && Inv(c, s) && TwiceIsSeen(s, t) && Step(c, s, a).Some?
    ensures TwiceIsSeen(Step(c, s, a).value, t)
  {
    match a
    case Reserve => ReserveKeepsTwice(c, s, t);
    case ReadLast =>
      assert TimesReserved(s, t) > 0 ==> t in s.reservations;
    case Push(_) =>
    case Spawn =>
    case Sample =>
    case _ => QuietStep(c, s, a);
  }

  lemma {:induction false} RunKeepsTwice(c: Config, schedule: seq<Action>, t: int)
    requires c.Valid() && Exec(c, schedule).Some?
    ensures TwiceIsSeen(Exec(c, schedule).value, t)
  {
    if schedule != [] {
      var before := schedule[..|schedule| - 1];
      RunKeepsTwice(c, before, t);
      RunKeepsInv(c, before);
      StepKeepsTwice(c, Exec(c, before).value, schedule[|schedule| - 1], t);
    }
  }

  /**
   * In every reachable state, whatever was stale, no step has been reserved more than twice. A passed step has one set of
   * groups left, buffered, in flight or still to be spawned, if it was reserved twice, and none otherwise.
   */
  lemma AtMostTwice(c: Config, s: State, t: int)
    requires c.Valid() && Reachable(c, s)
    ensures TimesReserved(s, t) <= 2
    ensures Passed(c, s, t) ==>
      && TimesReserved(s, t) >= 1
      && Count(s.entries, t) + Count(s.running, t) + Unspawned(c, s, t) == if TimesReserved(s, t) == 2 then c.promptsPerStep else 0
  {
    var schedule :| Reached(c, schedule, s);
    RunKeepsTwice(c, schedule, t);
    GroupsPerReservation(c, s, t);
    SpawnsLeft(c, s, t);
    LeftOver(c, TimesReserved(s, t), Count(s.entries, t) + Count(s.running, t) + Unspawned(c, s, t), Passed(c, s, t));
  }

  lemma SpawnsLeft(c: Config, s: State, t: int)
    requires c.Valid() && Reachable(c, s)
    ensures Unspawned(c, s, t) >= 0
  {
    ReachableKeepsInv(c, s);
  }

  lemma LeftOver(c: Config, times: nat, left: nat, passed: bool)
    requires 1 <= c.promptsPerStep && times <= 2 && left + (if passed then c.promptsPerStep else 0) == GroupsFor(c, times)
    ensures passed ==> times >= 1 && left == if times == 2 then c.promptsPerStep else 0
  {
    FewTimes(c);
  }

  lemma FewTimes(c: Config)
    ensures GroupsFor(c, 0) == 0 && GroupsFor(c, 1) == c.promptsPerStep && GroupsFor(c, 2) == c.promptsPerStep + c.promptsPerStep
  {
  }

  // ---- Groups of a passed step stay ----

  lemma {:induction false} KeepsNonMatch(s: seq<Group>, p: Group -> bool, n: nat, e: Group)
    requires e in s && !p(e)
    ensures e in DropMatches(s, p, n)
  {
    var i := |s| - 1;
    if e in s[..i] {
      KeepsNonMatch(s[..i], p, n, e);
    } else {
      assert e == s[i];
    }
  }

  /** While a group is buffered, sampling at a version beyond its age raises. */
  lemma OldGroupRaises(c: Config, s: State, e: Group)
    requires e in s.entries && !s.sampled && e.version < Low(c, s)
    ensures Drawn(c, s) == s.(crashed := true)
  {
    FilterElements(s.entries, OlderThan(Low(c, s)));
    assert e in Filter(s.entries, OlderThan(Low(c, s)));
  }

  /** One action keeps a buffered group of a passed step, and lets the trainer pass only steps within the group's age. */
  lemma PassedGroupStep(c: Config, s: State, e: Group, a: Action)
    requires c.Valid() && Accounts(c, s) && e in s.entries && e.target < NextStep(c, s) && 0 <= e.version
    requires Step(c, s, a).Some?
    ensures var s' := Step(c, s, a).value;
      && e in s'.entries
      && NextStep(c, s) <= NextStep(c, s') <= Max(NextStep(c, s), e.version + c.maxAge + 1)
      && Count(s.entries, e.target) <= Count(s'.entries, e.target)
  {
    if a.Sample? {
      var ready := ReadyFor<nat>(Low(c, s), s.trainerVersion);
      if e.version < Low(c, s) {
        OldGroupRaises(c, s, e);
      } else {
        KeepsNonMatch(s.entries, ready, c.promptsPerStep, e);
        DropMatchesKeepsOthers(s.entries, ready, c.promptsPerStep, TargetIs(e.target));
      }
    } else if a.Push? {
      CountSnoc(s.entries, s.running[a.worker], e.target);
    }
  }

  /**
   * A group that is buffered although its step has been passed stays in the buffer in every continuation, with all
   * others of its step, and the trainer gets at most one step beyond the group's age.
   */
  lemma {:induction false} PassedGroupStays(c: Config, s: State, e: Group, more: seq<Action>)
    requires c.Valid() && Accounts(c, s) && e in s.entries && e.target < NextStep(c, s) && 0 <= e.version
    requires ExecFrom(c, s, more).Some?
    ensures var s' := ExecFrom(c, s, more).value;
      && e in s'.entries
      && NextStep(c, s) <= NextStep(c, s') <= Max(NextStep(c, s), e.version + c.maxAge + 1)
      && Count(s.entries, e.target) <= Count(s'.entries, e.target)
    decreases |more|
  {
    if more != [] {
      PassedGroupStep(c, s, e, more[0]);
      StepKeepsAccounts(c, s, more[0]);
      PassedGroupStays(c, Step(c, s, more[0]).value, e, more[1..]);
    }
  }

  // ---- What a duplicate reservation means for the rest of the run ----

  /** Groups carry versions that the collector has had. */
  ghost predicate Versions(c: Config, s: State) {
    forall e :: e in s.pushed || e in s.running ==> c.start <= e.version <= s.collectorVersion
  }

  lemma StepKeepsVersions(c: Config, s: State, a: Action)
    requires c.Valid() && Inv(c, s) && Versions(c, s) && Step(c, s, a).Some?
    ensures Versions(c, Step(c, s, a).value)
  {
    if a.Push? {
      assert s.running[a.worker] in s.running;
      assert forall e :: e in Pushed(c, s, a.worker).running ==> e in s.running;
    }
  }

  lemma {:induction false} RunKeepsVersions(c: Config, schedule: seq<Action>)
    requires c.Valid() && Exec(c, schedule).Some?
    ensures Versions(c, Exec(c, schedule).value)
  {
    if schedule != [] {
      var before := schedule[..|schedule| - 1];
      RunKeepsVersions(c, before);
      RunKeepsInv(c, before);
      StepKeepsVersions(c, Exec(c, before).value, schedule[|schedule| - 1]);
    }
  }

  lemma ReachableGoesOn(c: Config, s: State, more: seq<Action>)
    requires Reachable(c, s) && ExecFrom(c, s, more).Some?
    ensures Reachable(c, ExecFrom(c, s, more).value)
  {
    var schedule :| Reached(c, schedule, s);
    Continues(c, schedule, s, more, ExecFrom(c, s, more).value);
    assert Reached(c, schedule + more, ExecFrom(c, s, more).value);
  }

  /**
   * For every reachable state: once a step that was reserved twice has been passed and its workers are done, exactly one
   * set of its groups is in the buffer. In every continuation exactly that set stays there, and the trainer passes no step
   * beyond the collector's present version plus the maximal age.
   */
  lemma DuplicateStopsTrainer(c: Config, s: State, t: int, more: seq<Action>)
    requires c.Valid() && Reachable(c, s) && TimesReserved(s, t) > 1 && Passed(c, s, t)
    requires Count(s.running, t) == 0 && Unspawned(c, s, t) == 0 && ExecFrom(c, s, more).Some?
    ensures TimesReserved(s, t) == 2 && Count(s.entries, t) == c.promptsPerStep
    ensures var s' := ExecFrom(c, s, more).value;
      && Count(s'.entries, t) == c.promptsPerStep
      && NextStep(c, s') <= Max(NextStep(c, s), s.collectorVersion + c.maxAge + 1)
  {
    var s' := ExecFrom(c, s, more).value;
    AtMostTwice(c, s, t);
    var e := FirstFor(s.entries, t);
    var schedule :| Reached(c, schedule, s);
    RunKeepsAccounts(c, schedule);
    RunKeepsVersions(c, schedule);
    RunKeepsInv(c, schedule);
    assert e in s.pushed;
    PassedGroupStays(c, s, e, more);
    ReachableGoesOn(c, s, more);
    AtMostTwice(c, s', t);
    SpawnsLeft(c, s', t);
  }

  /** A group of the step, when there is one. */
  lemma FirstFor(s: seq<Group>, t: int) returns (e: Group)
    requires Count(s, t) > 0
    ensures e in s && e.target == t
  {
    FilterElements(s, TargetIs(t));
    e := Filter(s, TargetIs(t))[0];
    assert e in Filter(s, TargetIs(t));
  }

  // ---- A full buffer without the current step ----

  /** How many buffered groups are ready for the current step. */
  function ReadyNow(c: Config, s: State): nat { |Filter(s.entries, ReadyFor(Low(c, s), s.trainerVersion))| }

  /** No room is left, and the current step is not complete. */
  ghost predicate Clogged(c: Config, s: State) {
    !s.sampled && |s.entries| >= c.BufferSize() && ReadyNow(c, s) < c.promptsPerStep
  }

  /** Nothing that is buffered is too old for the current step. */
  ghost predicate NothingOld(c: Config, s: State) { Filter(s.entries, OlderThan(Low(c, s))) == [] }

  lemma CloggedStep(c: Config, s: State, a: Action)
    requires Clogged(c, s) && Step(c, s, a).Some?
    ensures var s' := Step(c, s, a).value;
      && Clogged(c, s') && s'.entries == s.entries && s'.consumed == s.consumed && s'.trainerVersion == s.trainerVersion
      && (NothingOld(c, s) ==> s'.crashed == s.crashed)
  {
  }

  /**
   * A full buffer with too few groups for the current step stays as it is in every continuation, fresh or not: every
   * push is refused, and the trainer waits, forever if no buffered group is too old, or dies.
   */
  lemma {:induction false} FullBufferStarves(c: Config, s: State, more: seq<Action>)
    requires Clogged(c, s) && ExecFrom(c, s, more).Some?
    ensures var s' := ExecFrom(c, s, more).value;
      && s'.entries == s.entries && s'.consumed == s.consumed && s'.trainerVersion == s.trainerVersion && !s'.sampled
      && (NothingOld(c, s) ==> s'.crashed == s.crashed)
    decreases |more|
  {
    if more != [] {
      CloggedStep(c, s, more[0]);
      FullBufferStarves(c, Step(c, s, more[0]).value, more[1..]);
    }
  }

  /** Without a stale reservation the buffer never clogs: with the current step incomplete there is always room. */
  lemma FreshNeverClogs(c: Config, s: State)
    requires c.Valid() && FreshlyReachable(c, s)
    ensures !Clogged(c, s)
  {
    FreshlyReachableIsSafe(c, s);
    if !s.sampled && ReadyNow(c, s) < c.promptsPerStep {
      IncompleteHasRoom(c, s);
    }
  }

  lemma IncompleteHasRoom(c: Config, s: State)
    requires c.Valid() && Safe(c, s) && !s.sampled && ReadyNow(c, s) < c.promptsPerStep
    ensures |s.entries| < c.BufferSize()
  {
    var later := TargetFrom(s.trainerVersion + 1);
    var ready := ReadyFor<nat>(Low(c, s), s.trainerVersion);
    forall e | e in s.entries ensures later(e) <==> !ready(e) {
      BufferedInWindow(c, s, e);
    }
    FilterPartition(s.entries, ready, later);
    LaterStepsFit(c, s);
    IncompleteFits(c.promptsPerStep, c.maxAge, ReadyNow(c, s));
  }

  lemma BufferedInWindow(c: Config, s: State, e: Group)
    requires c.Valid() && Safe(c, s) && !s.sampled && e in s.entries
    ensures s.trainerVersion <= e.target <= s.trainerVersion + c.maxAge
    ensures ReadyFor(Low(c, s), s.trainerVersion)(e) <==> e.target == s.trainerVersion
  {
    SafeOutstandingInWindow(c, s, e);
    assert e in s.pushed && WithinAge(c, s, e);
  }

  lemma LaterStepsFit(c: Config, s: State)
    requires c.Valid() && Safe(c, s) && !s.sampled
    ensures |Filter(s.entries, TargetFrom(s.trainerVersion + 1))| <= c.promptsPerStep * c.maxAge
  {
    var w := s.trainerVersion;
    var later := Filter(s.entries, TargetFrom(w + 1));
    FilterElements(s.entries, TargetFrom(w + 1));
    forall e | e in later ensures w + 1 <= e.target < w + 1 + c.maxAge {
      BufferedInWindow(c, s, e);
    }
    forall t ensures Count(later, t) <= c.promptsPerStep {
      LaterPerStep(c, s, t);
    }
    WindowHoldsAtMost(later, w + 1, c.maxAge, c.promptsPerStep);
  }

  lemma LaterPerStep(c: Config, s: State, t: int)
    requires c.Valid() && Safe(c, s)
    ensures Count(Filter(s.entries, TargetFrom(s.trainerVersion + 1)), t) <= c.promptsPerStep
  {
    OutstandingPerStep(c, s, t);
    FilterConcat(s.entries, s.running, TargetIs(t));
    CountOfFilter(s.entries, TargetFrom(s.trainerVersion + 1), t);
  }

  lemma IncompleteFits(n: nat, age: nat, ready: nat)
    requires 1 <= age && ready < n
    ensures ready + n * age < n * age * 2
  {
    RoomForSlack(n, age);
    assert n * (age + 1) == n * age + n;
  }

  // ---- Leftovers fill the buffer ----

  function TargetIsNot(t: int): Group -> bool { (e: Group) => e.target != t }

  /** A full set for each of several steps. */
  lemma {:induction false} ManySets(s: seq<Group>, steps: seq<int>, n: nat)
    requires Distinct(steps) && forall t :: t in steps ==> Count(s, t) >= n
    ensures |s| >= n * |steps|
    decreases |steps|
  {
    if steps != [] {
      var k := |steps| - 1;
      var t, others := steps[k], Filter(s, TargetIsNot(steps[k]));
      assert steps[k] in steps;
      forall u | u in steps[..k] ensures Count(others, u) >= n {
        WithoutStep(s, t, u);
      }
      ManySets(others, steps[..k], n);
      FilterPartition(s, TargetIs(t), TargetIsNot(t));
      OneMoreSet(n, k);
    }
  }

  lemma WithoutStep(s: seq<Group>, t: int, u: int)
    requires u != t
    ensures Count(Filter(s, TargetIsNot(t)), u) == Count(s, u)
  {
    FilterNested(s, TargetIs(u), TargetIsNot(t));
  }

  lemma OneMoreSet(n: nat, k: nat)
    ensures n * (k + 1) == n * k + n
  {
  }

  /** All groups of the step that are still to come are buffered: it was passed and reserved twice, or is still to come. */
  ghost predicate KeepsSet(c: Config, s: State, t: int) {
    && Count(s.running, t) == 0 && Unspawned(c, s, t) == 0
    && TimesReserved(s, t) == if Passed(c, s, t) then 2 else Max(1, TimesReserved(s, t))
  }

  lemma KeptSet(c: Config, s: State, t: int)
    requires c.Valid() && Reachable(c, s) && KeepsSet(c, s, t)
    ensures Count(s.entries, t) >= c.promptsPerStep
  {
    AtMostTwice(c, s, t);
    GroupsPerReservation(c, s, t);
    FewTimes(c);
  }

  /**
   * In every reachable state: twice as many steps as the maximal age, each passed after two reservations or generated
   * ahead, fill the buffer. Then no continuation trains on a current step that is not complete in it.
   */
  lemma LeftoversClog(c: Config, s: State, steps: seq<int>, more: seq<Action>)
    requires c.Valid() && Reachable(c, s) && !s.sampled && ReadyNow(c, s) < c.promptsPerStep
    requires Distinct(steps) && |steps| >= 2 * c.maxAge && forall t :: t in steps ==> KeepsSet(c, s, t)
    requires ExecFrom(c, s, more).Some?
    ensures var s' := ExecFrom(c, s, more).value;
      s'.entries == s.entries && s'.consumed == s.consumed && s'.trainerVersion == s.trainerVersion && !s'.sampled
  {
    forall t | t in steps ensures Count(s.entries, t) >= c.promptsPerStep {
      KeptSet(c, s, t);
    }
    ManySets(s.entries, steps, c.promptsPerStep);
    SetsFill(c.promptsPerStep, c.maxAge, |steps|);
    FullBufferStarves(c, s, more);
  }

  lemma SetsFill(n: nat, age: nat, sets: nat)
    requires sets >= 2 * age
    ensures n * sets >= n * age * 2
  {
    assert n * sets == n * (2 * age) + n * (sets - 2 * age);
    assert n * (2 * age) == n * age * 2;
  }
}
