/**
 * Runs of the collection loop that go wrong: a training step that nobody generates for because the collector was late
 * or waited, and what a stale reservation leads to.
 */
module AsyncRuns {
  import opened Seqs
  import opened ReplayBuffers
  import opened AsyncProtocol
  import opened AsyncSafety
  import opened AsyncProgress
  import opened AsyncStale
  import opened CollectorLoops
  import opened AsyncFinish

  // ---- A batch and a refit, as they go when nothing interferes ----

  /** No worker is under way and the collector is about to start on a batch. */
  ghost predicate AtRest(f: Loop) { f.spot.AtTop? && f.refitCleared && f.core.running == [] && f.core.finishing == [] }

  /** The collector passes refit pause and limit check, and reads the last target. */
  lemma StartsBatch(c: Setup, f: Loop) returns (events: seq<Event>, f': Loop)
    requires Good(c, f) && AtRest(f) && f.core.last < f.core.collectorVersion + c.config.maxAge
    ensures Leads(c, f, events, f')
    ensures f' == f.(spot := InBatch, core := f.core.(phase := HasLast(f.core.collectorVersion, f.core.last)))
  {
    var m1, f1 := Checks(c, f);
    WindowEndAvailable(c, f1);
    var f2 := Single(c, f1, CompareLimit, f1.core);
    var f3 := Single(c, f2, Event.Enter, f2.core.(phase := HasVersion(f2.core.collectorVersion)));
    f' := Single(c, f3, ReadLastTarget, f3.core.(phase := HasLast(f3.core.phase.generation, f3.core.last)));
    Joined(c, f, m1, f1, [CompareLimit], f2);
    Joined(c, f, m1 + [CompareLimit], f2, [Event.Enter], f3);
    events := m1 + [CompareLimit] + [Event.Enter] + [ReadLastTarget];
    Joined(c, f, m1 + [CompareLimit] + [Event.Enter], f3, [ReadLastTarget], f');
  }

  /** The limit check reads the version and the last target. */
  lemma Checks(c: Setup, f: Loop) returns (events: seq<Event>, f': Loop)
    requires Good(c, f) && f.spot.AtTop? && f.refitCleared
    ensures Leads(c, f, events, f') && f' == f.(spot := Comparing(f.core.collectorVersion, f.core.last))
  {
    var f1 := Single(c, f, PassRefit, f.core);
    var f2 := Single(c, f1, CheckVersion, f1.core);
    f' := Single(c, f2, CheckLast, f2.core);
    Joined(c, f, [PassRefit], f1, [CheckVersion], f2);
    events := [PassRefit] + [CheckVersion] + [CheckLast];
    Joined(c, f, [PassRefit] + [CheckVersion], f2, [CheckLast], f');
  }

  /** Nothing of the loop but the protocol's state has changed. */
  ghost predicate OnlyCore(f: Loop, f': Loop) {
    && f' == f.(core := f'.core) && f'.core.collectorVersion == f.core.collectorVersion
    && f'.core.trainerVersion == f.core.trainerVersion && f'.core.sampled == f.core.sampled
    && f'.core.consumed == f.core.consumed
  }

  /** The first step the buffer has not seen is reserved and generated. */
  lemma GeneratesNext(c: Setup, f: Loop, t: int) returns (events: seq<Event>, f': Loop)
    requires Good(c, f) && AtRest(f) && f.core.last < f.core.collectorVersion + c.config.maxAge
    requires NextTarget(TargetWeights(c.config, f.core.collectorVersion), f.core.last, f.core.generating) == Some(t)
    ensures Leads(c, f, events, f') && OnlyCore(f, f') && AtRest(f')
    ensures f'.core.reservations == f.core.reservations + [t] && f'.core.last >= t
  {
    var m1, f1 := StartsBatch(c, f);
    var f2 := Single(c, f1, TakeReservation, Reserved(c.config, f1.core));
    Joined(c, f, m1, f1, [TakeReservation], f2);
    var m3, f3 := SpawnAll(c, f2);
    Joined(c, f, m1 + [TakeReservation], f2, m3, f3);
    var m4;
    m4, f' := FinishWorkers(c, f3);
    events := m1 + [TakeReservation] + m3 + m4;
    Joined(c, f, m1 + [TakeReservation] + m3, f3, m4, f');
    GeneratedIsSeen(c.config, f'.core, t);
  }

  lemma GeneratedIsSeen(c: Config, s: State, t: int)
    requires c.Valid() && Safe(c, s) && s.running == [] && !s.phase.Spawning? && t in s.reservations
    ensures s.last >= t
  {
    assert Budget(c, s, t);
    FilterElements(s.pushed, TargetIs(t));
    assert Filter(s.pushed, TargetIs(t))[0] in s.pushed;
  }

  /** After training, with no worker under way, the trainer refits and takes the next version. */
  lemma Refits(c: Setup, f: Loop) returns (events: seq<Event>, f': Loop)
    requires Good(c, f) && f.core.sampled && f.refit.NoRefit? && (f.inbox.NoMessage? || f.inbox.FirstVersion?)
    requires f.core.running == [] && f.core.finishing == []
    ensures Leads(c, f, events, f')
    ensures f' == f.(core := f.core.(trainerVersion := f.core.trainerVersion + 1, sampled := false), refitCleared := false,
                     inbox := NewVersion, limitCleared := f.limitCleared || f.inbox.FirstVersion?)
  {
    var m1, f1 := Quiet(c, f);
    var m2, f2 := Waits(c, f1);
    f' := Single(c, f2, BumpVersion, f2.core.(trainerVersion := f2.core.trainerVersion + 1, sampled := false));
    Joined(c, f, m1, f1, m2, f2);
    events := m1 + m2 + [BumpVersion];
    Joined(c, f, m1 + m2, f2, [BumpVersion], f');
  }

  lemma Waits(c: Setup, f: Loop) returns (events: seq<Event>, f': Loop)
    requires Good(c, f) && f.core.sampled && f.refit.NoRefit? && f.inbox.NoMessage?
    requires f.core.running == [] && f.core.finishing == []
    ensures Leads(c, f, events, f') && f' == f.(refitCleared := false, refit := MayBump)
  {
    var f1 := Single(c, f, BeginRefit, f.core);
    f' := Single(c, f1, EndWait, f1.core);
    events := [BeginRefit] + [EndWait];
    Joined(c, f, [BeginRefit], f1, [EndWait], f');
  }

  lemma Quiet(c: Setup, f: Loop) returns (events: seq<Event>, f': Loop)
    requires Good(c, f) && (f.inbox.NoMessage? || f.inbox.FirstVersion?)
    ensures Leads(c, f, events, f')
    ensures f' == f.(inbox := NoMessage, limitCleared := f.limitCleared || f.inbox.FirstVersion?)
  {
    if f.inbox.NoMessage? {
      NoEvents(c, f);
      return [], f;
    }
    f' := Single(c, f, WakeCollector, f.core);
    events := [WakeCollector];
  }

  lemma Told(c: Setup, f: Loop) returns (f': Loop)
    requires Good(c, f) && f.inbox.NewVersion?
    ensures Leads(c, f, [StoreVersion], f')
    ensures f' == f.(core := f.core.(collectorVersion := f.core.trainerVersion), inbox := WakeUp)
  {
    f' := Single(c, f, StoreVersion, f.core.(collectorVersion := f.core.collectorVersion + 1));
  }

  // ---- Steps that are skipped ----

  lemma FirstStepDone(c: Setup) returns (events: seq<Event>, f: Loop)
    requires c.config.Valid()
    ensures Leads(c, Start(c), events, f) && AtRest(f) && f == Start(c).(core := f.core)
    ensures f.core.trainerVersion == f.core.collectorVersion == c.config.start && !f.core.sampled
    ensures f.core.reservations == [c.config.start] && f.core.last == c.config.start
  {
    var start := Start(c);
    StartIsGood(c);
    var targets := TargetWeights(c.config, c.config.start);
    assert targets[0] == c.config.start;
    events, f := GeneratesNext(c, start, c.config.start);
    assert start.core.reservations + [c.config.start] == [c.config.start];
  }

  /**
   * Whatever the configuration, a run without any stale reservation can leave the second training step unreserved while
   * the collector is told of its version before it starts on another batch: no fresh continuation trains on it then.
   */
  lemma SecondStepCanBeSkipped(c: Setup) returns (f: Loop)
    requires c.config.Valid()
    ensures LoopReachableFreshly(c, f) && f.core.trainerVersion == c.config.start + 1 && !f.core.sampled
    ensures !CanFinishStep(c, f)
  {
    var m1, f1 := FirstStepDone(c);
    var f2 := DrawComplete(c, f1);
    Joined(c, Start(c), m1, f1, [Draw], f2);
    var m3, f3 := Refits(c, f2);
    Joined(c, Start(c), m1 + [Draw], f2, m3, f3);
    f := Told(c, f3);
    Joined(c, Start(c), m1 + [Draw] + m3, f3, [StoreVersion], f);
    assert LoopReachedFreshly(c, m1 + [Draw] + m3 + [StoreVersion], f);
    CanFinishIff(c, f);
  }

  /** All messages after a refit are handled. */
  lemma ToldAll(c: Setup, f: Loop) returns (events: seq<Event>, f': Loop)
    requires Good(c, f) && f.inbox.NewVersion?
    ensures Leads(c, f, events, f')
    ensures f' == f.(core := f.core.(collectorVersion := f.core.trainerVersion), inbox := NoMessage, limitCleared := true,
                     refitCleared := true)
  {
    var f1 := Told(c, f);
    var m2;
    m2, f' := Woken(c, f1);
    events := [StoreVersion] + m2;
    Joined(c, f, [StoreVersion], f1, m2, f');
  }

  lemma Woken(c: Setup, f: Loop) returns (events: seq<Event>, f': Loop)
    requires Good(c, f) && f.inbox.WakeUp?
    ensures Leads(c, f, events, f') && f' == f.(inbox := NoMessage, limitCleared := true, refitCleared := true)
  {
    var f1 := Single(c, f, WakeCollector, f.core);
    f' := Single(c, f1, ResumeRefit, f1.core);
    events := [WakeCollector] + [ResumeRefit];
    Joined(c, f, [WakeCollector], f1, [ResumeRefit], f');
  }

  /** A collector that finds all targets taken, and was not paused for this version before, waits. */
  lemma Pauses(c: Setup, f: Loop) returns (events: seq<Event>, f': Loop)
    requires Good(c, f) && f.spot.AtLimit? && f.warned != Some(f.core.collectorVersion)
    ensures Leads(c, f, events, f')
    ensures f' == f.(spot := Waiting, warned := Some(f.core.collectorVersion), limitCleared := false)
  {
    var f1 := Single(c, f, CompareWarned, f.core);
    var f2 := Single(c, f1, Warn, f1.core);
    f' := Single(c, f2, ClearLimit, f2.core);
    Joined(c, f, [CompareWarned], f1, [Warn], f2);
    events := [CompareWarned] + [Warn] + [ClearLimit];
    Joined(c, f, [CompareWarned] + [Warn], f2, [ClearLimit], f');
  }

  /** With a maximal age of one, both steps of the first window are generated and the limit check finds nothing left. */
  lemma FirstWindowTaken(c: Setup) returns (events: seq<Event>, f: Loop)
    requires c.config.Valid() && c.config.maxAge == 1
    ensures Leads(c, Start(c), events, f) && f == Start(c).(core := f.core, spot := AtLimit) && !f.core.sampled
    ensures f.core.reservations == [c.config.start, c.config.start + 1]
    ensures f.core.trainerVersion == f.core.collectorVersion == c.config.start
    ensures f.core.running == [] && f.core.finishing == [] && f.core.phase.Idle?
  {
    var start, targets := c.config.start, TargetWeights(c.config, c.config.start);
    var m1, f1 := FirstStepDone(c);
    assert targets == [start, start + 1] && targets[1..] == [start + 1];
    assert NextTarget(targets, start, f1.core.generating) == Some(start + 1);
    var m2, f2 := GeneratesNext(c, f1, start + 1);
    Joined(c, Start(c), m1, f1, m2, f2);
    var m3, f3 := Checks(c, f2);
    Joined(c, Start(c), m1 + m2, f2, m3, f3);
    WindowUsedUp(c, f3);
    f := Single(c, f3, CompareLimit, f3.core);
    events := m1 + m2 + m3 + [CompareLimit];
    Joined(c, Start(c), m1 + m2 + m3, f3, [CompareLimit], f);
  }

  lemma TrainsAndRefits(c: Setup, f: Loop) returns (events: seq<Event>, f': Loop)
    requires Good(c, f) && !f.core.sampled && f.core.trainerVersion in f.core.reservations && !f.core.phase.Spawning?
    requires f.core.running == [] && f.core.finishing == [] && f.refit.NoRefit?
    requires f.inbox.NoMessage? || f.inbox.FirstVersion?
    ensures Leads(c, f, events, f')
    ensures f' == f.(core := f'.core, refitCleared := false, inbox := NewVersion,
                     limitCleared := f.limitCleared || f.inbox.FirstVersion?)
    ensures f'.core.trainerVersion == f.core.trainerVersion + 1 && f'.core.collectorVersion == f.core.collectorVersion
    ensures !f'.core.sampled && f'.core.reservations == f.core.reservations && f'.core.phase == f.core.phase
    ensures f'.core.running == [] && f'.core.finishing == []
  {
    var f1 := DrawComplete(c, f);
    var m2;
    m2, f' := Refits(c, f1);
    events := [Draw] + m2;
    Joined(c, f, [Draw], f1, m2, f');
  }

  /** The next version is stored before the collector records for which version it pauses. */
  lemma PausesLate(c: Setup) returns (events: seq<Event>, f: Loop)
    requires c.config.Valid() && c.config.maxAge == 1
    ensures Leads(c, Start(c), events, f) && f.spot.Waiting? && !f.limitCleared
    ensures f.core.trainerVersion == f.core.collectorVersion == c.config.start + 1 && !f.core.sampled
    ensures f.core.reservations == [c.config.start, c.config.start + 1] && f.core.phase.Idle?
    ensures f.core.running == [] && f.core.finishing == [] && f.refit.NoRefit? && f.inbox.NoMessage?
  {
    var start := Start(c);
    var m1, f1 := FirstWindowTaken(c);
    var m2, f2 := TrainsAndRefits(c, f1);
    Joined(c, start, m1, f1, m2, f2);
    var m3, f3 := ToldAll(c, f2);
    Joined(c, start, m1 + m2, f2, m3, f3);
    var m4;
    m4, f := Pauses(c, f3);
    events := m1 + m2 + m3 + m4;
    Joined(c, start, m1 + m2 + m3, f3, m4, f);
  }

  /**
   * With a maximal age of one, the wait for a new version can skip a step: the check finds the first two steps taken,
   * the next version is stored before the collector records for which version it pauses, and the version after that,
   * the only one to wake it, comes too late for the third step.
   */
  lemma WaitSkipsStep(c: Setup) returns (f: Loop)
    requires c.config.Valid() && c.config.maxAge == 1
    ensures LoopReachableFreshly(c, f) && f.spot.Waiting? && !f.limitCleared && !f.core.sampled
    ensures f.core.collectorVersion == c.config.start + 1 && f.core.trainerVersion == c.config.start + 2
    ensures !CanFinishStep(c, f)
  {
    var m1, f1 := PausesLate(c);
    var m2;
    m2, f := TrainsAndRefits(c, f1);
    Joined(c, Start(c), m1, f1, m2, f);
    assert LoopReachedFreshly(c, m1 + m2, f);
    CanFinishIff(c, f);
  }

  // ---- What a stale reservation leads to ----

  lemma {:induction false} RunSnoc(c: Setup, f: Loop, events: seq<Event>, mid: Loop, e: Event)
    requires Run(c, f, events) == Some(mid)
    ensures Run(c, f, events + [e]) == Next(c, mid, e)
    decreases |events|
  {
    if events == [] {
      assert [] + [e] == [e] && [e][1..] == [];
      assert Next(c, f, e).Some? ==> Run(c, Next(c, f, e).value, []) == Next(c, f, e);
    } else {
      RunSnoc(c, Next(c, f, events[0]).value, events[1..], mid, e);
      assert (events + [e])[1..] == events[1..] + [e];
    }
  }

  lemma OneMore(c: Setup, f: Loop, e: Event, core: State) returns (f': Loop)
    requires LoopReachable(c, f) && Does(c, f, e, core)
    ensures f' == After(c, f, e, core) && LoopReachable(c, f')
  {
    f' := After(c, f, e, core);
    var events :| LoopReached(c, events, f);
    RunSnoc(c, Start(c), events, f, e);
    assert LoopReached(c, events + [e], f');
  }

  /** One prompt per step, and refits with or without waiting for generations. */
  function Small(maxAge: nat, inFlight: bool): Setup { Setup(Config(0, 1, maxAge), inFlight) }

  function GroupFor(version: int, t: int): Group { Entry(0, version, t) }

  /** The collector passes the limit check because some target of its window is left, and reads the last target. */
  lemma SmallBatch(c: Setup, f: Loop) returns (f': Loop)
    requires LoopReachable(c, f) && f.spot.AtTop? && f.refitCleared && f.core.phase.Idle?
    requires NextTarget(TargetWeights(c.config, f.core.collectorVersion), f.core.last, f.core.generating).Some?
    ensures LoopReachable(c, f')
    ensures f' == f.(spot := InBatch, core := f.core.(phase := HasLast(f.core.collectorVersion, f.core.last)))
  {
    var f1 := SmallCheck(c, f);
    var f2 := OneMore(c, f1, CompareLimit, f1.core);
    var f3 := OneMore(c, f2, Event.Enter, f2.core.(phase := HasVersion(f.core.collectorVersion)));
    f' := OneMore(c, f3, ReadLastTarget, f3.core.(phase := HasLast(f.core.collectorVersion, f.core.last)));
  }

  lemma SmallCheck(c: Setup, f: Loop) returns (f': Loop)
    requires LoopReachable(c, f) && f.spot.AtTop? && f.refitCleared
    ensures LoopReachable(c, f') && f' == f.(spot := Comparing(f.core.collectorVersion, f.core.last))
  {
    var f1 := OneMore(c, f, PassRefit, f.core);
    var f2 := OneMore(c, f1, CheckVersion, f1.core);
    f' := OneMore(c, f2, CheckLast, f2.core);
  }

  /** The reservation is taken, and its one worker spawned. */
  lemma SmallReserve(c: Setup, f: Loop, t: int) returns (f': Loop)
    requires c.config.promptsPerStep == 1 && LoopReachable(c, f) && f.spot.InBatch? && f.refitCleared && f.core.phase.HasLast?
    requires NextTarget(TargetWeights(c.config, f.core.phase.generation), f.core.phase.seenLast, f.core.generating) == Some(t)
    requires |f.core.running| + |f.core.finishing| < c.config.MaxInflight()
    ensures LoopReachable(c, f')
    ensures f' == f.(spot := AtTop, core := f.core.(phase := Idle, generating := f.core.generating + {t},
                                                    running := f.core.running + [GroupFor(f.core.phase.generation, t)],
                                                    reservations := f.core.reservations + [t]))
  {
    var reserved := f.core.(phase := Spawning(f.core.phase.generation, t, 0), generating := f.core.generating + {t},
                            reservations := f.core.reservations + [t]);
    var f1 := OneMore(c, f, TakeReservation, reserved);
    f' := SmallSpawn(c, f1, f.core.phase.generation, t);
  }

  lemma SmallSpawn(c: Setup, f: Loop, version: int, t: int) returns (f': Loop)
    requires c.config.promptsPerStep == 1 && LoopReachable(c, f) && f.spot.AtPrompt? && f.refitCleared
    requires f.core.phase == Spawning(version, t, 0) && |f.core.running| + |f.core.finishing| < c.config.MaxInflight()
    ensures LoopReachable(c, f')
    ensures f' == f.(spot := AtTop, core := f.core.(running := f.core.running + [GroupFor(version, t)], phase := Idle))
  {
    var f1 := OneMore(c, f, CheckPrompt, f.core);
    f' := OneMore(c, f1, SpawnWorker, f1.core.(running := f.core.running + [GroupFor(version, t)], phase := Idle));
  }

  /** A collector at rest starts on a batch, reserves its next target and spawns the worker. */
  lemma SmallStart(c: Setup, f: Loop, t: int) returns (f': Loop)
    requires c.config.promptsPerStep == 1 && LoopReachable(c, f) && f.spot.AtTop? && f.refitCleared && f.core.phase.Idle?
    requires NextTarget(TargetWeights(c.config, f.core.collectorVersion), f.core.last, f.core.generating) == Some(t)
    requires |f.core.running| + |f.core.finishing| < c.config.MaxInflight()
    ensures LoopReachable(c, f')
    ensures f' == f.(core := f.core.(generating := f.core.generating + {t},
                                     running := f.core.running + [GroupFor(f.core.collectorVersion, t)],
                                     reservations := f.core.reservations + [t]))
  {
    var f1 := SmallBatch(c, f);
    f' := SmallReserve(c, f1, t);
  }

  /** The last worker pushes its group and finishes. */
  lemma SmallPush(c: Setup, f: Loop, before: seq<Group>, e: Group) returns (f': Loop)
    requires LoopReachable(c, f) && f.core.running == before + [e] && f.core.finishing == []
    requires |f.core.entries| < c.config.BufferSize()
    ensures LoopReachable(c, f')
    ensures f' == f.(core := f.core.(entries := f.core.entries + [e], last := Max(f.core.last, e.target),
                                     pushed := f.core.pushed + [e], running := before,
                                     generating := f.core.generating - {e.target}))
  {
    var pushed := OnePushed(c.config, f.core, before, e);
    var f1 := OneMore(c, f, PushGroup(|before|), pushed);
    assert RemoveAt([e], 0) == [];
    f' := OneMore(c, f1, FinishWorker(0), pushed.(finishing := [], generating := f.core.generating - {e.target}));
  }

  lemma OnePushed(c: Config, s: State, before: seq<Group>, e: Group) returns (pushed: State)
    requires s.running == before + [e] && s.finishing == [] && |s.entries| < c.BufferSize()
    ensures pushed == s.(entries := s.entries + [e], last := Max(s.last, e.target), pushed := s.pushed + [e],
                         running := before, finishing := [e])
    ensures Pushed(c, s, |before|) == pushed
  {
    assert RemoveAt(s.running, |before|) == before && s.finishing + [e] == [e];
    pushed := Pushed(c, s, |before|);
  }

  /** With the step sampled, the trainer may refit and bump its version, and the collector is told. */
  lemma SmallRefit(c: Setup, f: Loop) returns (f': Loop)
    requires LoopReachable(c, f) && f.refit.NoRefit? && f.inbox.NoMessage? && f.core.sampled && !f.core.crashed
    requires c.inFlight || (f.core.running == [] && f.core.finishing == [])
    requires f.core.collectorVersion == f.core.trainerVersion
    ensures LoopReachable(c, f')
    ensures f' == f.(core := f.core.(trainerVersion := f.core.trainerVersion + 1, sampled := false,
                                     collectorVersion := f.core.collectorVersion + 1),
                     refitCleared := true, limitCleared := true)
  {
    var f1 := SmallBump(c, f);
    f' := SmallTold(c, f1);
  }

  lemma SmallTold(c: Setup, f: Loop) returns (f': Loop)
    requires LoopReachable(c, f) && f.inbox.NewVersion? && f.core.collectorVersion + 1 == f.core.trainerVersion
    ensures LoopReachable(c, f')
    ensures f' == f.(core := f.core.(collectorVersion := f.core.trainerVersion), inbox := NoMessage,
                     refitCleared := true, limitCleared := true)
  {
    var f1 := OneMore(c, f, StoreVersion, f.core.(collectorVersion := f.core.collectorVersion + 1));
    f' := SmallWoken(c, f1);
  }

  lemma SmallWoken(c: Setup, f: Loop) returns (f': Loop)
    requires LoopReachable(c, f) && f.inbox.WakeUp?
    ensures LoopReachable(c, f') && f' == f.(inbox := NoMessage, refitCleared := true, limitCleared := true)
  {
    var f1 := OneMore(c, f, WakeCollector, f.core);
    f' := OneMore(c, f1, ResumeRefit, f1.core);
  }

  lemma SmallBump(c: Setup, f: Loop) returns (f': Loop)
    requires LoopReachable(c, f) && f.refit.NoRefit? && f.inbox.NoMessage? && f.core.sampled && !f.core.crashed
    requires c.inFlight || (f.core.running == [] && f.core.finishing == [])
    ensures LoopReachable(c, f')
    ensures f' == f.(core := f.core.(trainerVersion := f.core.trainerVersion + 1, sampled := false),
                     refitCleared := false, inbox := NewVersion)
  {
    var f1 := OneMore(c, f, BeginRefit, f.core);
    var f2 := OneMore(c, f1, EndWait, f1.core);
    f' := OneMore(c, f2, BumpVersion, f2.core.(trainerVersion := f.core.trainerVersion + 1, sampled := false));
  }

  /** Nothing is on its way to a collector that was never paused. */
  function Quietly(core: State): Loop { Loop(core, AtTop, true, None, true, NoMessage, NoRefit) }

  lemma SmallInit(c: Setup) returns (f: Loop)
    ensures LoopReachable(c, f) && f == Quietly(Init(c.config))
  {
    assert LoopReached(c, [], Start(c));
    f := OneMore(c, Start(c), WakeCollector, Start(c).core);
  }

  /**
   * A step is reserved twice: its worker is spawned, the collector reads the last target for its next batch, which the
   * limit check lets through as the step after it is available, and only then does the worker push and finish.
   */
  lemma ReservesTwice(c: Setup, f: Loop, t: int) returns (f': Loop)
    requires c.config.promptsPerStep == 1 && 1 <= c.config.maxAge && c.config.start == 0 && 0 <= t < c.config.maxAge
    requires LoopReachable(c, f) && f == Quietly(f.core) && f.core.phase.Idle? && f.core.collectorVersion == 0
    requires f.core.last == t - 1 && f.core.generating == {} && f.core.running == [] && f.core.finishing == []
    requires |f.core.entries| + 2 <= c.config.BufferSize()
    ensures var e := GroupFor(0, t);
      LoopReachable(c, f') && f' == Quietly(f.core.(entries := f.core.entries + [e, e], last := t,
                                                    pushed := f.core.pushed + [e, e],
                                                    reservations := f.core.reservations + [t, t]))
  {
    var e := GroupFor(0, t);
    FirstWindow(c.config, t - 1, {}, t);
    var f1 := SmallStart(c, f, t);
    FirstWindow(c.config, t - 1, f1.core.generating, t + 1);
    var f2 := SmallBatch(c, f1);
    var f3 := SmallPush(c, f2, [], e);
    assert f3.core.generating == {};
    var f4 := SmallReserve(c, f3, t);
    f' := SmallPush(c, f4, [], e);
    assert f'.core.generating == {} && f.core.reservations + [t] + [t] == f.core.reservations + [t, t];
    assert f.core.entries + [e] + [e] == f.core.entries + [e, e] && f.core.pushed + [e] + [e] == f.core.pushed + [e, e];
  }

  /** The first window's target after those that were seen or are being generated. */
  lemma FirstWindow(c: Config, last: int, generating: set<int>, t: int)
    requires c.start == 0 && 0 <= t <= c.maxAge && last < t && t !in generating
    requires forall u :: last < u < t ==> u in generating
    ensures NextTarget(TargetWeights(c, 0), last, generating) == Some(t)
  {
    PicksFirst(c, 0, last, generating, t);
  }

  lemma PicksFirst(c: Config, version: int, last: int, generating: set<int>, t: int)
    requires WindowLow(c, version) <= t <= version + c.maxAge && last < t && t !in generating
    requires forall u :: last < u < t && WindowLow(c, version) <= u ==> u in generating
    ensures NextTarget(TargetWeights(c, version), last, generating) == Some(t)
  {
    var targets := TargetWeights(c, version);
    TargetWeightsWindow(c, version, t);
    var r := NextTarget(targets, last, generating);
    TargetWeightsWindow(c, version, r.value);
    if t < r.value {
      NextTargetIsFirst(targets, last, generating, t);
    }
  }

  /**
   * With a stale reservation the protocol's promises fail, whether or not a refit waits for generations: a step is
   * reserved twice, and a worker finds the buffer full.
   */
  lemma StaleReservationFillsBuffer(c: Setup) returns (f: Loop)
    requires c == Small(1, c.inFlight)
    ensures var e := GroupFor(0, 0);
      LoopReachable(c, f) && f == Quietly(State([e, e], 0, {1}, Idle, 0, [GroupFor(0, 1)], [], 0, false, false, [0, 0, 1],
                                                [e, e], []))
    ensures !Distinct(f.core.reservations) && f.core.running != [] && |f.core.entries| == c.config.BufferSize()
  {
    var f0 := SmallInit(c);
    var f1 := ReservesTwice(c, f0, 0);
    FirstWindow(c.config, 0, {}, 1);
    f := SmallStart(c, f1, 1);
    assert f.core.reservations == [0, 0, 1];
    assert f.core.reservations[0] == f.core.reservations[1];
  }

  /** The first match is taken, and the rest stays. */
  lemma {:induction false} TakesFirst(a: seq<Group>, x: Group, b: seq<Group>, p: Group -> bool)
    requires p(x) && forall e :: e in a ==> !p(e)
    ensures Filter(a + [x] + b, p) == [x] + Filter(b, p) && DropMatches(a + [x] + b, p, 1) == a + b
  {
    if b == [] {
      FilterNone(a, p);
      FilterSnoc(a, x, p);
      KeepsAll(a, p);
      assert a + [x] + b == a + [x] && (a + [x])[..|a|] == a && a + b == a;
    } else {
      var n := |b| - 1;
      TakesFirst(a, x, b[..n], p);
      var s := a + [x] + b;
      assert s[..|s| - 1] == a + [x] + b[..n] && s[|s| - 1] == b[n];
      assert a + b == a + b[..n] + [b[n]];
    }
  }

  lemma {:induction false} KeepsAll(s: seq<Group>, p: Group -> bool)
    requires forall e :: e in s ==> !p(e)
    ensures DropMatches(s, p, 1) == s
  {
    if s != [] {
      KeepsAll(s[..|s| - 1], p);
      assert s[|s| - 1] in s;
    }
  }

  /** With every group in the age window, the first group for the current step is drawn. */
  lemma DrawsFirst(c: Config, s: State, a: seq<Group>, x: Group, b: seq<Group>)
    requires c.promptsPerStep == 1 && s.entries == a + [x] + b && x.target == s.trainerVersion
    requires forall e :: e in s.entries ==> Low(c, s) <= e.version <= s.trainerVersion
    requires forall e :: e in a ==> e.target != s.trainerVersion
    ensures Drawn(c, s) == s.(entries := a + b, consumed := s.consumed + [[x]], sampled := true)
  {
    var ready := ReadyFor<nat>(Low(c, s), s.trainerVersion);
    assert x in s.entries;
    TakesFirst(a, x, b, ready);
    FilterNone(s.entries, OlderThan(Low(c, s)));
    ReadyAreInWindow(s.entries, Low(c, s), s.trainerVersion);
    assert Filter(s.entries, ready)[..1] == [x];
  }

  lemma SmallDraw(c: Setup, f: Loop, a: seq<Group>, x: Group, b: seq<Group>) returns (f': Loop)
    requires LoopReachable(c, f) && !f.core.sampled && !f.core.crashed
    requires c.config.promptsPerStep == 1 && f.core.entries == a + [x] + b && x.target == f.core.trainerVersion
    requires forall e :: e in f.core.entries ==> Low(c.config, f.core) <= e.version <= f.core.trainerVersion
    requires forall e :: e in a ==> e.target != f.core.trainerVersion
    ensures LoopReachable(c, f')
    ensures f' == f.(core := f.core.(entries := a + b, consumed := f.core.consumed + [[x]], sampled := true))
  {
    DrawsFirst(c.config, f.core, a, x, b);
    f' := OneMore(c, f, Draw, Drawn(c.config, f.core));
  }

  /** Step 0 takes one of its two groups, and step 1 is generated. */
  lemma TrainsOnce(c: Setup) returns (f: Loop)
    requires c == Small(1, c.inFlight)
    ensures LoopReachable(c, f) && f.core.entries == [GroupFor(0, 0), GroupFor(0, 1)] && !f.core.crashed && !f.core.sampled
    ensures f.core.trainerVersion == f.core.collectorVersion == 1 && f.refit.NoRefit? && f.inbox.NoMessage?
    ensures f.core.running == [] && f.core.finishing == []
  {
    var e, next := GroupFor(0, 0), GroupFor(0, 1);
    var f1 := StaleReservationFillsBuffer(c);
    assert f1.core.entries == [] + [e] + [e];
    var f2 := SmallDraw(c, f1, [], e, [e]);
    var f3 := SmallPush(c, f2, [], next);
    f := SmallRefit(c, f3);
    assert f.core.entries == [e, next];
  }

  /** With a stale reservation, the trainer can die of the buffer's age check. */
  lemma StaleReservationCrashes(c: Setup) returns (f: Loop)
    requires c == Small(1, c.inFlight)
    ensures LoopReachable(c, f) && f.core.crashed
  {
    var e, next := GroupFor(0, 0), GroupFor(0, 1);
    var f1 := TrainsOnce(c);
    assert f1.core.entries == [e] + [next] + [];
    var f2 := SmallDraw(c, f1, [e], next, []);
    assert [e] + [] == [e];
    var f3 := SmallRefit(c, f2);
    assert f3.core.entries[0] == e;
    OldGroupRaises(c.config, f3.core, e);
    f := OneMore(c, f3, Draw, f3.core.(crashed := true));
  }

  // ---- A deadlock that nobody notices ----

  /** Steps 0 and 1 are reserved twice, step 0 is trained on, and step 2 is being generated. */
  lemma TwoStepsTwice(c: Setup) returns (f: Loop)
    requires c == Small(2, true)
    ensures LoopReachable(c, f) && f.core.entries == [GroupFor(0, 0), GroupFor(0, 1), GroupFor(0, 1)]
    ensures f == Quietly(f.core) && f.core.last == 1 && f.core.generating == {2} && f.core.phase.Idle?
    ensures f.core.running == [GroupFor(0, 2)] && f.core.finishing == [] && f.core.reservations == [0, 0, 1, 1, 2]
    ensures f.core.trainerVersion == f.core.collectorVersion == 0 && f.core.sampled && !f.core.crashed
  {
    var e, d := GroupFor(0, 0), GroupFor(0, 1);
    var f0 := SmallInit(c);
    var f1 := ReservesTwice(c, f0, 0);
    assert f1.core.entries == [e, e] && f1.core.reservations == [0, 0];
    var f2 := ReservesTwice(c, f1, 1);
    assert f2.core.entries == [] + [e] + [e, d, d] && f2.core.reservations == [0, 0, 1, 1];
    var f3 := SmallDraw(c, f2, [], e, [e, d, d]);
    assert f3.core.entries == [e, d, d];
    FirstWindow(c.config, 1, {}, 2);
    f := SmallStart(c, f3, 2);
    assert f.core.reservations == [0, 0, 1, 1, 2] && f.core.running == [GroupFor(0, 2)] && f.core.generating == {2};
  }

  /** The trainer goes on to step 1, and step 3 is generated ahead while step 2 is still in flight. */
  lemma OneStepAhead(c: Setup) returns (f: Loop)
    requires c == Small(2, true)
    ensures LoopReachable(c, f) && f.core.entries == [GroupFor(0, 0), GroupFor(0, 1), GroupFor(1, 3)]
    ensures f.spot.AtTop? && f.refitCleared && f.refit.NoRefit? && f.inbox.NoMessage?
    ensures f.core.last == 3 && f.core.generating == {2} && f.core.phase.Idle?
    ensures f.core.running == [GroupFor(0, 2)] && f.core.finishing == [] && f.core.reservations == [0, 0, 1, 1, 2, 3]
    ensures f.core.trainerVersion == f.core.collectorVersion == 1 && f.core.sampled && !f.core.crashed
  {
    var e, d := GroupFor(0, 0), GroupFor(0, 1);
    var f1 := TwoStepsTwice(c);
    var f2 := SmallRefit(c, f1);
    assert f2.core.entries == [e] + [d] + [d];
    var f3 := SmallDraw(c, f2, [e], d, [d]);
    PicksFirst(c.config, 1, 1, {2}, 3);
    var f4 := SmallStart(c, f3, 3);
    f := SmallPush(c, f4, [GroupFor(0, 2)], GroupFor(1, 3));
    assert f.core.entries == [e, d, GroupFor(1, 3)] && f.core.reservations == [0, 0, 1, 1, 2, 3];
    assert f.core.generating == {2};
  }

  /** Then step 4 takes the last place, and step 2's worker finds the buffer full. */
  lemma TwoStepsAhead(c: Setup) returns (f: Loop)
    requires c == Small(2, true)
    ensures LoopReachable(c, f)
    ensures f.core.entries == [GroupFor(0, 0), GroupFor(0, 1), GroupFor(1, 3), GroupFor(2, 4)]
    ensures f.core.running == [GroupFor(0, 2)] && f.core.reservations == [0, 0, 1, 1, 2, 3, 4] && f.core.phase.Idle?
    ensures f.core.trainerVersion == 2 && !f.core.sampled && !f.core.crashed
  {
    var f1 := OneStepAhead(c);
    var f2 := SmallRefit(c, f1);
    PicksFirst(c.config, 2, 3, {2}, 4);
    var f3 := SmallStart(c, f2, 4);
    f := SmallPush(c, f3, [GroupFor(0, 2)], GroupFor(2, 4));
    assert f.core.entries == f1.core.entries + [GroupFor(2, 4)] && f.core.reservations == [0, 0, 1, 1, 2, 3, 4];
  }

  /** Nothing in the buffer is for step 2 and nothing is too old for it. */
  lemma StepTwoMissing(c: Config, s: State)
    requires s.trainerVersion == 2 && Low(c, s) == 0 && !s.sampled
    requires forall e :: e in s.entries ==> e.version >= 0 && e.target != 2
    ensures NothingOld(c, s) && ReadyNow(c, s) == 0
  {
    FilterNone(s.entries, OlderThan(0));
    FilterNone(s.entries, ReadyFor(0, 2));
  }

  /**
   * With stale reservations the run can end in a deadlock that raises nothing. Steps 0 and 1 were reserved twice, and their
   * leftovers with the groups for steps 3 and 4 fill the buffer while the worker for step 2 is still generating: in every
   * continuation its push is refused and the trainer waits for it.
   */
  lemma StaleReservationsDeadlock(c: Setup) returns (f: Loop)
    requires c == Small(2, true)
    ensures LoopReachable(c, f) && Clogged(c.config, f.core) && f.core.running == [GroupFor(0, f.core.trainerVersion)]
    ensures forall events :: Run(c, f, events).Some? ==>
              var s := Run(c, f, events).value.core;
              s.entries == f.core.entries && s.consumed == f.core.consumed && !s.sampled && !s.crashed
  {
    f := TwoStepsAhead(c);
    StepTwoMissing(c.config, f.core);
    forall events | Run(c, f, events).Some?
      ensures var s := Run(c, f, events).value.core;
        s.entries == f.core.entries && s.consumed == f.core.consumed && !s.sampled && !s.crashed
    {
      LoopRefines(c, f, events);
      FullBufferStarves(c.config, f.core, ActionsOf(events));
    }
  }

  /** The four steps of that deadlock are such as `LeftoversClog` speaks of. */
  lemma DeadlockIsClog(c: Setup) returns (f: Loop)
    requires c == Small(2, true)
    ensures LoopReachable(c, f) && !f.core.sampled && ReadyNow(c.config, f.core) < c.config.promptsPerStep
    ensures Distinct([0, 1, 3, 4]) && |[0, 1, 3, 4]| >= 2 * c.config.maxAge
    ensures forall t :: t in [0, 1, 3, 4] ==> KeepsSet(c.config, f.core, t)
  {
    f := TwoStepsAhead(c);
    StepTwoMissing(c.config, f.core);
    LoopStaysReachable(c, f);
    var schedule :| Reached(c.config, schedule, f.core);
    RunKeepsAccounts(c.config, schedule);
    forall t | t in [0, 1, 3, 4] ensures KeepsSet(c.config, f.core, t) {
      KeepsItsSet(c.config, f.core, t);
    }
  }

  lemma KeepsItsSet(c: Config, s: State, t: int)
    requires NextStep(c, s) == 2 && c.start == 0 && s.phase.Idle? && s.running == [GroupFor(0, 2)]
    requires s.reservations == [0, 0, 1, 1, 2, 3, 4] && t in [0, 1, 3, 4]
    ensures KeepsSet(c, s, t)
  {
    FilterNone(s.running, TargetIs(t));
    assert TimesReserved(s, t) == if t < 2 then 2 else 1;
  }
}
