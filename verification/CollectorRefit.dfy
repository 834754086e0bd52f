/**
 * What a refit holds up: while it goes on the collector starts at most one more batch and one more worker, and unless
 * weights are updated in flight at most one worker runs while they change. That one worker cannot be excluded.
 */
module CollectorRefit {
  import opened Seqs
  import opened ReplayBuffers
  import opened AsyncProtocol
  import opened AsyncSafety
  import opened CollectorLoops
  import opened AsyncFinish
  import opened AsyncRuns

  /** The collector has looked whether a refit is going on and will start a batch unless the limit check stops it. */
  function MayEnter(spot: Spot): nat {
    match spot
    case AtCheck => 1
    case Checking(_) => 1
    case Comparing(_, _) => 1
    case AtLimit => 1
    case Warning => 1
    case Clearing => 1
    case Waiting => 1
    case Entering => 1
    case _ => 0
  }

  /** And here it has looked, or waited, and will start a worker. */
  function MayStart(spot: Spot): nat { if spot.Refreshing? || spot.MaySpawn? then 1 else 0 }

  predicate StaysPaused(c: Setup, f: Loop, events: seq<Event>)
    decreases |events|
  {
    !f.refitCleared
    && (events != [] && Next(c, f, events[0]).Some? ==> StaysPaused(c, Next(c, f, events[0]).value, events[1..]))
  }

  function BatchesStarted(events: seq<Event>): nat {
    if events == [] then 0 else (if events[0].Enter? then 1 else 0) + BatchesStarted(events[1..])
  }

  function WorkersStarted(events: seq<Event>): nat {
    if events == [] then 0 else (if events[0].SpawnWorker? then 1 else 0) + WorkersStarted(events[1..])
  }

  /** While a refit holds the collector up, no event adds to what it may still start. */
  lemma PausedNext(c: Setup, f: Loop, e: Event)
    requires !f.refitCleared && Next(c, f, e).Some?
    ensures var f' := Next(c, f, e).value;
      && (if e.Enter? then 1 else 0) + MayEnter(f'.spot) <= MayEnter(f.spot)
      && (if e.SpawnWorker? then 1 else 0) + MayStart(f'.spot) <= MayStart(f.spot)
  {
    var core := NextHappens(c, f, e);
  }

  lemma {:induction false} PausedStarts(c: Setup, f: Loop, events: seq<Event>)
    requires Run(c, f, events).Some? && StaysPaused(c, f, events)
    ensures var f' := Run(c, f, events).value;
      && BatchesStarted(events) + MayEnter(f'.spot) <= MayEnter(f.spot)
      && WorkersStarted(events) + MayStart(f'.spot) <= MayStart(f.spot)
    decreases |events|
  {
    if events != [] {
      PausedNext(c, f, events[0]);
      PausedStarts(c, Next(c, f, events[0]).value, events[1..]);
    }
  }

  /**
   * On every run through a refit, from any state: at most one batch is started, by a collector that had looked before
   * the refit began, and at most one worker, likewise.
   */
  lemma RefitHoldsCollector(c: Setup, f: Loop, events: seq<Event>)
    requires Run(c, f, events).Some? && StaysPaused(c, f, events)
    ensures BatchesStarted(events) <= MayEnter(f.spot) && WorkersStarted(events) <= MayStart(f.spot)
    ensures BatchesStarted(events) + WorkersStarted(events) <= 1
  {
    PausedStarts(c, f, events);
  }

  // ---- While the weights change ----

  /** A refit holds the collector up until it is told the version, and has waited for the workers unless in flight. */
  ghost predicate RefitInv(c: Setup, f: Loop) {
    && (!f.refit.NoRefit? ==> !f.refitCleared && f.inbox.NoMessage?)
    && (f.refit.MayBump? && !c.inFlight ==> |f.core.running| + |f.core.finishing| + MayStart(f.spot) <= 1)
  }

  /** How many workers an action adds. */
  lemma StepWorkers(c: Config, s: State, a: Action)
    requires Step(c, s, a).Some?
    ensures var s' := Step(c, s, a).value;
      |s'.running| + |s'.finishing| <= |s.running| + |s.finishing| + (if a.Spawn? then 1 else 0)
  {
    match a
    case Push(_) =>
    case Reserve =>
    case Spawn =>
    case Sample =>
    case _ =>
  }

  lemma NextKeepsRefit(c: Setup, f: Loop, e: Event)
    requires RefitInv(c, f) && Next(c, f, e).Some?
    ensures RefitInv(c, Next(c, f, e).value)
  {
    if ActionOf(e).Some? {
      StepWorkers(c.config, f.core, ActionOf(e).value);
    }
    if !f.refitCleared {
      PausedNext(c, f, e);
    }
  }

  lemma {:induction false} RunKeepsRefit(c: Setup, f: Loop, events: seq<Event>)
    requires RefitInv(c, f) && Run(c, f, events).Some?
    ensures RefitInv(c, Run(c, f, events).value)
    decreases |events|
  {
    if events != [] {
      NextKeepsRefit(c, f, events[0]);
      RunKeepsRefit(c, Next(c, f, events[0]).value, events[1..]);
    }
  }

  /** In every reachable state, stale reservations or not: without in-flight updates at most one worker sees new weights. */
  lemma WeightsChangeAlmostAlone(c: Setup, f: Loop)
    requires LoopReachable(c, f) && f.refit.MayBump? && !c.inFlight
    ensures |f.core.running| + |f.core.finishing| <= 1
  {
    var events :| LoopReached(c, events, f);
    RunKeepsRefit(c, Start(c), events);
  }

  /** The collector takes a reservation and looks, no refit being under way. */
  lemma ReservesAndLooks(c: Setup, f: Loop) returns (events: seq<Event>, f': Loop)
    requires Good(c, f) && f.spot.InBatch? && f.refitCleared && f.core.phase == HasLast(c.config.start, c.config.start)
    requires f.core.last == c.config.start && f.core.running == [] && f.core.finishing == []
    ensures Leads(c, f, events, f') && f'.spot.MaySpawn? && f'.core.phase.Spawning? && c.config.start < f'.core.phase.target
    ensures f' == f.(core := f'.core, spot := MaySpawn) && f.core.reservations <= f'.core.reservations
    ensures f'.core == f.core.(phase := f'.core.phase, generating := f'.core.generating, reservations := f'.core.reservations)
  {
    SecondStepFree(c, f);
    var f1 := Single(c, f, TakeReservation, Reserved(c.config, f.core));
    f' := Single(c, f1, CheckPrompt, f1.core);
    events := [TakeReservation] + [CheckPrompt];
    Joined(c, f, [TakeReservation], f1, [CheckPrompt], f');
  }

  /** The first step is generated, a later one reserved, and the collector has looked and is about to start a worker. */
  lemma AboutToStart(c: Setup) returns (events: seq<Event>, f: Loop)
    requires c.config.Valid()
    ensures Leads(c, Start(c), events, f) && f.spot.MaySpawn? && f.core.phase.Spawning? && !f.core.sampled
    ensures f.core.running == [] && f.core.finishing == [] && f.refit.NoRefit? && f.inbox.FirstVersion?
    ensures f.core.trainerVersion == c.config.start < f.core.phase.target && c.config.start in f.core.reservations
  {
    var start := Start(c);
    var m1, f1 := FirstStepDone(c);
    var m2, f2 := StartsBatch(c, f1);
    Joined(c, start, m1, f1, m2, f2);
    var m3;
    m3, f := ReservesAndLooks(c, f2);
    events := m1 + m2 + m3;
    Joined(c, start, m1 + m2, f2, m3, f);
    assert c.config.start in f1.core.reservations;
  }

  /**
   * And one can: whatever the configuration, a fresh run in which the collector looks before the refit begins and starts
   * its worker after the wait for workers has ended.
   */
  lemma OneWorkerSlipsThrough(c: Setup) returns (f: Loop)
    requires c.config.Valid()
    ensures LoopReachableFreshly(c, f) && f.refit.MayBump? && |f.core.running| == 1
  {
    var m1, f1 := AboutToStart(c);
    var m2, f2 := DrawnAndPaused(c, f1);
    Joined(c, Start(c), m1, f1, m2, f2);
    AtLeastOneFits(c.config);
    f := Single(c, f2, SpawnWorker, Spawned(c.config, f2.core));
    Joined(c, Start(c), m1 + m2, f2, [SpawnWorker], f);
    assert LoopReachedFreshly(c, m1 + m2 + [SpawnWorker], f);
  }

  lemma AtLeastOneFits(c: Config)
    requires c.Valid()
    ensures 1 <= c.MaxInflight()
  {
  }

  lemma SecondStepFree(c: Setup, f: Loop)
    requires Good(c, f) && f.core.phase == HasLast(c.config.start, c.config.start) && f.core.last == c.config.start
    requires f.core.running == [] && f.core.finishing == []
    ensures NextTarget(TargetWeights(c.config, c.config.start), c.config.start, f.core.generating).Some?
    ensures FreshStep(c.config, f.core, Reserve)
  {
    TargetWeightsWindow(c.config, c.config.start, c.config.start + 1);
    assert !HasWorker(f.core, c.config.start + 1);
    assert c.config.start + 1 in TargetWeights(c.config, c.config.start);
  }

  /** All groups of the current step are there and are drawn, whatever the collector is about. */
  lemma DrawsStep(c: Setup, f: Loop) returns (f': Loop)
    requires Good(c, f) && !f.core.sampled && f.core.trainerVersion in f.core.reservations && f.core.running == []
    requires Unspawned(c.config, f.core, f.core.trainerVersion) == 0
    ensures Leads(c, f, [Draw], f') && f' == f.(core := f'.core) && f'.core.sampled
    ensures f'.core.phase == f.core.phase && f'.core.running == [] && f'.core.finishing == f.core.finishing
  {
    assert Budget(c.config, f.core, f.core.trainerVersion);
    DrawIsAllOrNothing(c.config, f.core);
    f' := Single(c, f, Draw, Drawn(c.config, f.core));
  }

  /** The first step is drawn and the refit begins and ends its wait, while the collector is about to start a worker. */
  lemma DrawnAndPaused(c: Setup, f: Loop) returns (events: seq<Event>, f': Loop)
    requires Good(c, f) && !f.core.sampled && f.core.trainerVersion in f.core.reservations && f.core.running == []
    requires f.core.finishing == [] && f.refit.NoRefit? && f.inbox.FirstVersion?
    requires Unspawned(c.config, f.core, f.core.trainerVersion) == 0
    ensures Leads(c, f, events, f') && f'.refit.MayBump? && f'.spot == f.spot
    ensures f'.core.phase == f.core.phase && f'.core.running == [] && f'.core.finishing == []
  {
    var f1 := DrawsStep(c, f);
    var m2, f2 := Quiet(c, f1);
    Joined(c, f, [Draw], f1, m2, f2);
    var m3;
    m3, f' := Waits(c, f2);
    events := [Draw] + m2 + m3;
    Joined(c, f, [Draw] + m2, f2, m3, f');
  }
}
