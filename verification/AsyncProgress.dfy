/**
 * What makes it impossible for the asynchronous protocol to finish the current training step, over all continuations,
 * and why an atomic read and reserve keeps every reservation fresh.
 */
module AsyncProgress {
  import opened Seqs
  import opened ReplayBuffers
  import opened AsyncProtocol
  import opened AsyncSafety

  /** The state that a further schedule leads to. */
  function ExecFrom(c: Config, s: State, more: seq<Action>): Option<State>
    decreases |more|
  {
    if more == [] then Some(s)
    else
      match Step(c, s, more[0])
      case None => None
      case Some(next) => ExecFrom(c, next, more[1..])
  }

  predicate FreshFrom(c: Config, s: State, more: seq<Action>)
    decreases |more|
  {
    more == [] ||
    (FreshStep(c, s, more[0]) && (Step(c, s, more[0]).Some? ==> FreshFrom(c, Step(c, s, more[0]).value, more[1..])))
  }

  /** A run from the start and one that goes on from its end. */
  lemma {:induction false} Continues(c: Config, before: seq<Action>, s: State, actions: seq<Action>, s': State)
    requires Exec(c, before) == Some(s) && ExecFrom(c, s, actions) == Some(s')
    ensures Exec(c, before + actions) == Some(s')
    ensures FreshRun(c, before) && FreshFrom(c, s, actions) ==> FreshRun(c, before + actions)
    decreases |actions|
  {
    if actions == [] {
      assert before + actions == before;
    } else {
      var a, rest := actions[0], actions[1..];
      MovesOver(before, a, rest, actions);
      var next := FirstAction(c, s, a, rest);
      ExecSnoc(c, before, s, a, next);
      Continues(c, before + [a], next, rest, s');
    }
  }

  lemma MovesOver<T>(before: seq<T>, a: T, rest: seq<T>, actions: seq<T>)
    requires actions != [] && a == actions[0] && rest == actions[1..]
    ensures actions == [a] + rest && before + actions == before + [a] + rest
  {
  }

  lemma FirstAction(c: Config, s: State, a: Action, rest: seq<Action>) returns (next: State)
    requires ExecFrom(c, s, [a] + rest).Some?
    ensures Step(c, s, a) == Some(next) && ExecFrom(c, next, rest) == ExecFrom(c, s, [a] + rest)
    ensures FreshFrom(c, s, [a] + rest) <==> FreshStep(c, s, a) && FreshFrom(c, next, rest)
  {
    assert ([a] + rest)[0] == a && ([a] + rest)[1..] == rest;
    next := Step(c, s, a).value;
  }

  lemma ExecSnoc(c: Config, before: seq<Action>, s: State, a: Action, next: State)
    requires Exec(c, before) == Some(s) && Step(c, s, a) == Some(next)
    ensures Exec(c, before + [a]) == Some(next)
    ensures FreshRun(c, before + [a]) <==> FreshRun(c, before) && FreshStep(c, s, a)
  {
    assert (before + [a])[..|before|] == before;
  }

  // ---- A step that was skipped is skipped for good ----

  /** The collector has read a version that it has not used yet. */
  predicate HoldsVersion(s: State) { s.phase.HasVersion? || s.phase.HasLast? }

  /**
   * The current step was never reserved, the collector knows a version that generates for later steps only, and the
   * version it may still hold does not generate for the current step either.
   */
  ghost predicate Starved(c: Config, s: State) {
    && !s.sampled
    && c.start < s.trainerVersion <= s.collectorVersion
    && s.trainerVersion !in s.reservations
    && (HoldsVersion(s) ==> s.trainerVersion !in TargetWeights(c, s.phase.generation))
  }

  /** Nothing in the buffer is for a step that was never reserved, so sampling waits or raises. */
  lemma NothingToDraw(c: Config, s: State)
    requires c.Valid() && Inv(c, s) && s.trainerVersion !in s.reservations
    ensures Drawn(c, s) == s || Drawn(c, s) == s.(crashed := true)
  {
    var ready := ReadyFor<nat>(Low(c, s), s.trainerVersion);
    forall e | e in s.entries ensures !ready(e) {
      assert e in s.pushed;
    }
    FilterNone(s.entries, ready);
  }

  lemma StarvedStep(c: Config, s: State, a: Action)
    requires c.Valid() && Inv(c, s) && Starved(c, s) && Step(c, s, a).Some?
    ensures var s' := Step(c, s, a).value;
      Starved(c, s') && s'.trainerVersion == s.trainerVersion && s'.consumed == s.consumed
  {
    if a.Sample? {
      NothingToDraw(c, s);
    } else if a.ReadVersion? {
      TargetWeightsWindow(c, s.collectorVersion, s.trainerVersion);
    }
  }

  /** Once the current step is starved, no continuation whatever, fresh or not, trains on it or gets past it. */
  lemma {:induction false} StarvedForever(c: Config, s: State, more: seq<Action>)
    requires c.Valid() && Inv(c, s) && Starved(c, s) && ExecFrom(c, s, more).Some?
    ensures var s' := ExecFrom(c, s, more).value;
      Starved(c, s') && s'.trainerVersion == s.trainerVersion && s'.consumed == s.consumed
    decreases |more|
  {
    if more != [] {
      StepKeepsInv(c, s, more[0]);
      StarvedStep(c, s, more[0]);
      StarvedForever(c, Step(c, s, more[0]).value, more[1..]);
    }
  }

  /** Every earlier step was reserved. */
  lemma EarlierStepsReserved(c: Config, s: State, t: int)
    requires c.Valid() && Safe(c, s) && c.start <= t < NextStep(c, s)
    ensures t in s.reservations
  {
    SampledIsComplete(c, s, t);
    assert Budget(c, s, t);
  }

  // ---- A reservation about to be taken ----

  /** The reservation that the collector is about to take would be stale, so that no fresh run can go on taking it. */
  predicate Stuck(c: Config, s: State) { s.phase.HasLast? && !FreshStep(c, s, Reserve) }

  /** With fewer targets being generated, the first admissible one is no later. */
  lemma {:induction false} NextTargetShrinks(targets: seq<int>, last: int, generating: set<int>, fewer: set<int>)
    requires forall i, j :: 0 <= i < j < |targets| ==> targets[i] < targets[j]
    requires fewer <= generating && NextTarget(targets, last, generating).Some?
    ensures NextTarget(targets, last, fewer).Some?
    ensures NextTarget(targets, last, fewer).value <= NextTarget(targets, last, generating).value
  {
    if targets[0] > last && targets[0] !in fewer {
      assert NextTarget(targets, last, generating).value in targets;
    } else {
      NextTargetShrinks(targets[1..], last, generating, fewer);
    }
  }

  lemma StuckStep(c: Config, s: State, a: Action)
    requires c.Valid() && Inv(c, s) && Stuck(c, s) && !s.sampled && s.trainerVersion !in s.reservations
    requires Step(c, s, a).Some? && FreshStep(c, s, a)
    ensures var s' := Step(c, s, a).value;
      && Stuck(c, s') && !s'.sampled && s'.trainerVersion == s.trainerVersion && s'.reservations == s.reservations
      && s'.consumed == s.consumed
  {
    var s' := Step(c, s, a).value;
    if a.Sample? {
      NothingToDraw(c, s);
    }
    assert s'.phase == s.phase && s'.generating <= s.generating && s'.last >= s.last;
    NextTargetShrinks(TargetWeights(c, s.phase.generation), s.phase.seenLast, s.generating, s'.generating);
  }

  /** From there no fresh continuation trains on a step that was not reserved. */
  lemma {:induction false} StuckForever(c: Config, s: State, more: seq<Action>)
    requires c.Valid() && Inv(c, s) && Stuck(c, s) && !s.sampled && s.trainerVersion !in s.reservations
    requires FreshFrom(c, s, more) && ExecFrom(c, s, more).Some?
    ensures ExecFrom(c, s, more).value.consumed == s.consumed
    decreases |more|
  {
    if more != [] {
      StepKeepsInv(c, s, more[0]);
      StuckStep(c, s, more[0]);
      StuckForever(c, Step(c, s, more[0]).value, more[1..]);
    }
  }

  /** A fresh reservation from a window with the current step in it takes that step, if it was not reserved yet. */
  lemma HeldPicksCurrentStep(c: Config, s: State)
    requires c.Valid() && Safe(c, s) && !s.sampled && s.phase.HasLast? && !Stuck(c, s)
    requires s.trainerVersion !in s.reservations && s.trainerVersion in TargetWeights(c, s.phase.generation)
    ensures NextTarget(TargetWeights(c, s.phase.generation), s.phase.seenLast, s.generating) == Some(s.trainerVersion)
  {
    var w, targets := s.trainerVersion, TargetWeights(c, s.phase.generation);
    TargetWeightsWindow(c, s.phase.generation, w);
    assert s.last < w;
    var r := NextTarget(targets, s.phase.seenLast, s.generating);
    assert r.Some?;
    TargetWeightsWindow(c, s.phase.generation, r.value);
    if r.value > w {
      NextTargetIsFirst(targets, s.phase.seenLast, s.generating, w);
    } else if r.value < w {
      EarlierStepsReserved(c, s, r.value);
    }
  }

  // ---- Reserving without a gap is enough ----

  /** Every reservation is taken right after the last target was read. */
  predicate ReservesAtOnce(schedule: seq<Action>) {
    forall i {:trigger schedule[i]} :: 0 <= i < |schedule| && schedule[i].Reserve? ==> i > 0 && schedule[i - 1].ReadLast?
  }

  /** If nothing comes between reading the last target and reserving, every reservation is fresh. */
  lemma {:induction false} AtOnceIsFresh(c: Config, schedule: seq<Action>)
    requires ReservesAtOnce(schedule) && Exec(c, schedule).Some?
    ensures FreshRun(c, schedule)
  {
    if schedule != [] {
      var n := |schedule| - 1;
      AtOnceIsFresh(c, schedule[..n]);
      if schedule[n].Reserve? {
        assert schedule[..n][n - 1] == schedule[n - 1];
        assert schedule[n - 1].ReadLast?;
      }
    }
  }
}
