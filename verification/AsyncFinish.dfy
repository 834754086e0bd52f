/**
 * Exactly when the current training step can still be finished, in every state that the collection loop reaches without
 * a stale reservation: the collector must still come to reserve the step, past the refit pause, the limit check and the
 * wait for a new version.
 */
module AsyncFinish {
  import opened Seqs
  import opened ReplayBuffers
  import opened AsyncProtocol
  import opened AsyncSafety
  import opened AsyncProgress
  import opened CollectorLoops

  /** The version the collector would read now generates for the current step. */
  ghost predicate InTime(c: Setup, f: Loop) { f.core.trainerVersion in TargetWeights(c.config, f.core.collectorVersion) }

  /** A collector that finds all targets taken would go on at once: it has paused for this version before. */
  predicate LimitPasses(f: Loop) { f.limitCleared && f.warned == Some(f.core.collectorVersion) }

  /** The version that the collector has read for its batch generates for the current step, and is not read in vain. */
  ghost predicate HoldsCurrent(c: Setup, s: State) {
    HoldsVersion(s) && s.trainerVersion in TargetWeights(c.config, s.phase.generation) && !Stuck(c.config, s)
  }

  /** From where it is, the collector can still come to reserve the current step. */
  ghost predicate CanStillReserve(c: Setup, f: Loop) {
    match f.spot
    case AtTop => f.refitCleared && InTime(c, f)
    case AtCheck => InTime(c, f)
    case Checking(version) =>
      InTime(c, f) && (f.core.trainerVersion <= version + c.config.maxAge || LimitPasses(f))
    case Comparing(version, seenLast) => InTime(c, f) && (seenLast < version + c.config.maxAge || LimitPasses(f))
    case AtLimit => InTime(c, f) && LimitPasses(f)
    case Waiting => InTime(c, f) && f.limitCleared
    case Entering => InTime(c, f)
    case InBatch => HoldsCurrent(c, f.core)
    case _ => false
  }

  // ---- Runs that are put together ----

  /** A run on which no reservation is stale. */
  ghost predicate Leads(c: Setup, f: Loop, events: seq<Event>, f': Loop) {
    RunsFreshly(c, f, events) && Run(c, f, events) == Some(f') && Good(c, f')
  }

  ghost predicate Does(c: Setup, f: Loop, e: Event, core: State) {
    Enabled(c, f, e) && if ActionOf(e).Some? then Step(c.config, f.core, ActionOf(e).value) == Some(core) else core == f.core
  }

  lemma Single(c: Setup, f: Loop, e: Event, core: State) returns (f': Loop)
    requires Good(c, f) && Does(c, f, e, core) && (e.TakeReservation? ==> FreshStep(c.config, f.core, Reserve))
    ensures f' == After(c, f, e, core) && Leads(c, f, [e], f')
  {
    f' := After(c, f, e, core);
    NextKeepsGood(c, f, e);
    assert Run(c, f', []) == Some(f') && RunsFreshly(c, f', []);
  }

  lemma {:induction false} Joined(c: Setup, f: Loop, first: seq<Event>, mid: Loop, second: seq<Event>, f': Loop)
    requires Leads(c, f, first, mid) && Leads(c, mid, second, f')
    ensures Leads(c, f, first + second, f')
  {
    RunsJoin(c, f, first, mid, second);
  }

  lemma {:induction false} RunsJoin(c: Setup, f: Loop, first: seq<Event>, mid: Loop, second: seq<Event>)
    requires RunsFreshly(c, f, first) && Run(c, f, first) == Some(mid) && RunsFreshly(c, mid, second)
    ensures RunsFreshly(c, f, first + second) && Run(c, f, first + second) == Run(c, mid, second)
    decreases |first|
  {
    if first == [] {
      assert first + second == second;
    } else {
      var e, rest := first[0], first[1..];
      FirstAside(first, second);
      var next := FirstEvent(c, f, e, rest, rest + second);
      RunsJoin(c, next, rest, mid, second);
    }
  }

  lemma FirstAside<T>(first: seq<T>, second: seq<T>)
    requires first != []
    ensures first == [first[0]] + first[1..] && first + second == [first[0]] + (first[1..] + second)
  {
  }

  lemma FirstEvent(c: Setup, f: Loop, e: Event, rest: seq<Event>, longer: seq<Event>) returns (next: Loop)
    requires Run(c, f, [e] + rest).Some? && RunsFreshly(c, f, [e] + rest)
    ensures Run(c, next, rest) == Run(c, f, [e] + rest) && RunsFreshly(c, next, rest)
    ensures Run(c, f, [e] + longer) == Run(c, next, longer)
    ensures RunsFreshly(c, f, [e] + longer) <==> RunsFreshly(c, next, longer)
  {
    assert ([e] + rest)[0] == e == ([e] + longer)[0] && ([e] + rest)[1..] == rest && ([e] + longer)[1..] == longer;
    next := Next(c, f, e).value;
  }

  lemma NoEvents(c: Setup, f: Loop)
    requires Good(c, f)
    ensures Leads(c, f, [], f)
  {
  }

  // ---- Workers, prompts and messages ----

  /** What the collector and the trainer are about is the same. */
  ghost predicate SameCourse(s: State, s': State) {
    && s'.trainerVersion == s.trainerVersion && s'.sampled == s.sampled && s'.consumed == s.consumed
    && s'.reservations == s.reservations
  }

  ghost predicate OnlyWorkers(s: State, s': State) {
    SameCourse(s, s') && s'.phase == s.phase && s'.collectorVersion == s.collectorVersion
  }

  /** All spawned workers can push and finish, wherever the collector is. */
  lemma {:induction false} FinishWorkers(c: Setup, f: Loop) returns (events: seq<Event>, f': Loop)
    requires Good(c, f)
    ensures Leads(c, f, events, f') && f' == f.(core := f'.core)
    ensures OnlyWorkers(f.core, f'.core) && f'.core.running == [] && f'.core.finishing == []
    decreases |f.core.running|, |f.core.finishing|
  {
    if f.core.running == [] && f.core.finishing == [] {
      NoEvents(c, f);
      return [], f;
    }
    var e, mid := OneWorker(c, f);
    var rest;
    rest, f' := FinishWorkers(c, mid);
    events := [e] + rest;
    Joined(c, f, [e], mid, rest, f');
  }

  lemma OneWorker(c: Setup, f: Loop) returns (e: Event, f': Loop)
    requires Good(c, f) && (f.core.running != [] || f.core.finishing != [])
    ensures Leads(c, f, [e], f') && f' == f.(core := f'.core) && OnlyWorkers(f.core, f'.core)
    ensures |f'.core.running| < |f.core.running|
         || (f'.core.running == f.core.running && |f'.core.finishing| < |f.core.finishing|)
  {
    if f.core.running != [] {
      SafeHasRoom(c.config, f.core);
      e := PushGroup(0);
      f' := Single(c, f, e, Pushed(c.config, f.core, 0));
    } else {
      e := FinishWorker(0);
      f' := Single(c, f, e, Step(c.config, f.core, Finish(0)).value);
    }
  }

  /** Prompts of the batch that are not spawned yet, and how far the collector is with the next one. */
  function Remaining(c: Setup, s: State): nat {
    if s.phase.Spawning? && s.phase.nextPrompt < c.config.promptsPerStep then c.config.promptsPerStep - s.phase.nextPrompt
    else 0
  }

  function PromptRank(spot: Spot): nat {
    match spot case AtPrompt => 3 case PromptWaiting => 2 case Refreshing => 1 case _ => 0
  }

  /** Unless a refit is going on, the batch in hand can be spawned to its end. */
  lemma {:induction false} SpawnAll(c: Setup, f: Loop) returns (events: seq<Event>, f': Loop)
    requires Good(c, f) && f.refitCleared
    ensures Leads(c, f, events, f') && SameCourse(f.core, f'.core) && !f'.core.phase.Spawning?
    ensures f' == f.(core := f'.core, spot := f'.spot) && f'.core.collectorVersion == f.core.collectorVersion
    ensures f'.spot == if f.core.phase.Spawning? then AtTop else f.spot
    decreases Remaining(c, f.core), PromptRank(f.spot)
  {
    if !f.core.phase.Spawning? {
      NoEvents(c, f);
      return [], f;
    }
    var first, mid := OnePrompt(c, f);
    var rest;
    rest, f' := SpawnAll(c, mid);
    events := first + rest;
    Joined(c, f, first, mid, rest, f');
  }

  lemma OnePrompt(c: Setup, f: Loop) returns (events: seq<Event>, f': Loop)
    requires Good(c, f) && f.refitCleared && f.core.phase.Spawning?
    ensures Leads(c, f, events, f') && SameCourse(f.core, f'.core)
    ensures f' == f.(core := f'.core, spot := f'.spot) && f'.core.collectorVersion == f.core.collectorVersion
    ensures f'.core.phase.Spawning? || f'.spot.AtTop?
    ensures Remaining(c, f'.core) < Remaining(c, f.core)
         || (Remaining(c, f'.core) == Remaining(c, f.core) && PromptRank(f'.spot) < PromptRank(f.spot))
  {
    match f.spot
    case AtPrompt => f' := Single(c, f, CheckPrompt, f.core); events := [CheckPrompt];
    case PromptWaiting => f' := Single(c, f, PassPrompt, f.core); events := [PassPrompt];
    case Refreshing => f' := Single(c, f, RefreshPrompt, Refreshed(f.core)); events := [RefreshPrompt];
    case MaySpawn => events, f' := Spawns(c, f);
  }

  lemma Spawns(c: Setup, f: Loop) returns (events: seq<Event>, f': Loop)
    requires Good(c, f) && f.spot.MaySpawn?
    ensures Leads(c, f, events, f') && SameCourse(f.core, f'.core)
    ensures f' == f.(core := f'.core, spot := f'.spot) && f'.core.collectorVersion == f.core.collectorVersion
    ensures f'.core.phase.Spawning? || f'.spot.AtTop?
    ensures Remaining(c, f'.core) < Remaining(c, f.core)
  {
    var drained, mid := FinishWorkers(c, f);
    f' := Single(c, mid, SpawnWorker, Spawned(c.config, mid.core));
    events := drained + [SpawnWorker];
    Joined(c, f, drained, mid, [SpawnWorker], f');
  }

  function Unread(inbox: Inbox): nat { match inbox case NewVersion => 3 case WakeUp => 2 case Resume => 1 case _ => 0 }

  /** Before sampling, the messages that let the collector go on can be handled. */
  lemma {:induction false} HandleMessages(c: Setup, f: Loop) returns (events: seq<Event>, f': Loop)
    requires Good(c, f) && !f.core.sampled
    ensures Leads(c, f, events, f') && SameCourse(f.core, f'.core) && f'.core.phase == f.core.phase && f'.refitCleared
    decreases Unread(f.inbox)
  {
    if f.refitCleared {
      NoEvents(c, f);
      return [], f;
    }
    var e, mid := OneMessage(c, f);
    var rest;
    rest, f' := HandleMessages(c, mid);
    events := [e] + rest;
    Joined(c, f, [e], mid, rest, f');
  }

  lemma OneMessage(c: Setup, f: Loop) returns (e: Event, f': Loop)
    requires Good(c, f) && !f.core.sampled && !f.refitCleared
    ensures Leads(c, f, [e], f') && SameCourse(f.core, f'.core) && f'.core.phase == f.core.phase
    ensures Unread(f'.inbox) < Unread(f.inbox)
  {
    match f.inbox
    case NewVersion =>
      e := StoreVersion;
      f' := Single(c, f, e, f.core.(collectorVersion := f.core.collectorVersion + 1));
    case WakeUp => e := WakeCollector; f' := Single(c, f, e, f.core);
    case Resume => e := ResumeRefit; f' := Single(c, f, e, f.core);
  }

  /** A step that was reserved can be finished from anywhere. */
  lemma FinishReserved(c: Setup, f: Loop) returns (events: seq<Event>, f': Loop)
    requires Good(c, f) && !f.core.sampled && f.core.trainerVersion in f.core.reservations
    ensures Leads(c, f, events, f') && |f'.core.consumed| == |f.core.consumed| + 1 && f'.core.sampled
    ensures f'.core.trainerVersion == f.core.trainerVersion && f'.core.reservations == f.core.reservations
    ensures !f'.core.phase.Spawning? && f'.core.running == [] && f'.core.finishing == []
  {
    var m1, f1 := HandleMessages(c, f);
    var m2, f2 := SpawnAll(c, f1);
    Joined(c, f, m1, f1, m2, f2);
    var m3, f3 := FinishWorkers(c, f2);
    Joined(c, f, m1 + m2, f2, m3, f3);
    f' := DrawComplete(c, f3);
    events := m1 + m2 + m3 + [Draw];
    Joined(c, f, m1 + m2 + m3, f3, [Draw], f');
  }

  /** With no group of the current step outstanding, sampling succeeds. */
  lemma DrawComplete(c: Setup, f: Loop) returns (f': Loop)
    requires Good(c, f) && !f.core.sampled && f.core.trainerVersion in f.core.reservations
    requires !f.core.phase.Spawning? && f.core.running == []
    ensures Leads(c, f, [Draw], f') && |f'.core.consumed| == |f.core.consumed| + 1 && f'.core.sampled
    ensures f' == f.(core := f'.core) && f'.core.finishing == f.core.finishing && f'.core.running == []
    ensures f'.core.trainerVersion == f.core.trainerVersion && f'.core.reservations == f.core.reservations
    ensures f'.core.phase == f.core.phase
  {
    assert Budget(c.config, f.core, f.core.trainerVersion);
    DrawIsAllOrNothing(c.config, f.core);
    f' := Single(c, f, Draw, Drawn(c.config, f.core));
  }

  // ---- Reserving the current step ----

  /** The current step is not reserved yet, and the collector can still come to do so. */
  ghost predicate Open(c: Setup, f: Loop) {
    !f.core.sampled && f.core.trainerVersion !in f.core.reservations && CanStillReserve(c, f)
  }

  function SpotRank(f: Loop): nat {
    match f.spot
    case AtTop => 8
    case AtCheck => 7
    case Checking(_) => 6
    case Comparing(_, _) => 5
    case AtLimit => 4
    case Waiting => 3
    case Entering => 2
    case InBatch => if f.core.phase.HasVersion? then 1 else 0
    case _ => 0
  }

  /** No step was reserved beyond an unreserved one that the collector can still generate for. */
  lemma LastBelow(c: Setup, f: Loop)
    requires Good(c, f) && !f.core.sampled && f.core.trainerVersion !in f.core.reservations
    requires f.core.phase.Idle? && InTime(c, f)
    ensures f.core.last < f.core.trainerVersion
  {
    TargetWeightsWindow(c.config, f.core.collectorVersion, f.core.trainerVersion);
  }

  /** With nobody generating, a last target below the window's end leaves one available. */
  lemma WindowEndAvailable(c: Setup, f: Loop)
    requires Good(c, f) && f.spot.Comparing? && f.core.running == [] && f.core.finishing == []
    requires f.spot.seenLast < f.spot.version + c.config.maxAge
    ensures Available(c, f)
  {
    var t := f.spot.version + c.config.maxAge;
    TargetWeightsWindow(c.config, f.spot.version, t);
    assert t in f.core.generating ==> HasWorker(f.core, t);
  }

  /** The collector's next event on its way into the batch. */
  lemma OneSpot(c: Setup, f: Loop) returns (events: seq<Event>, f': Loop)
    requires Good(c, f) && Open(c, f) && !f.core.phase.HasLast?
    ensures Leads(c, f, events, f') && SameCourse(f.core, f'.core) && Open(c, f') && SpotRank(f') < SpotRank(f)
  {
    match f.spot
    case AtTop => f' := Single(c, f, PassRefit, f.core); events := [PassRefit];
    case AtCheck => events, f' := ChecksVersion(c, f);
    case Checking(_) => events, f' := ChecksLast(c, f);
    case Comparing(_, _) => events, f' := Compares(c, f);
    case AtLimit => f' := Single(c, f, CompareWarned, f.core); events := [CompareWarned];
    case Waiting => f' := Single(c, f, PassLimit, f.core); events := [PassLimit];
    case Entering => events, f' := Enters(c, f);
    case InBatch => events, f' := ReadsLast(c, f);
  }

  lemma ChecksVersion(c: Setup, f: Loop) returns (events: seq<Event>, f': Loop)
    requires Good(c, f) && Open(c, f) && f.spot.AtCheck?
    ensures Leads(c, f, events, f') && SameCourse(f.core, f'.core) && Open(c, f') && f'.spot.Checking?
  {
    TargetWeightsWindow(c.config, f.core.collectorVersion, f.core.trainerVersion);
    f' := Single(c, f, CheckVersion, f.core);
    events := [CheckVersion];
  }

  lemma ChecksLast(c: Setup, f: Loop) returns (events: seq<Event>, f': Loop)
    requires Good(c, f) && Open(c, f) && f.spot.Checking?
    ensures Leads(c, f, events, f') && SameCourse(f.core, f'.core) && Open(c, f') && f'.spot.Comparing?
  {
    LastBelow(c, f);
    f' := Single(c, f, CheckLast, f.core);
    events := [CheckLast];
  }

  lemma Compares(c: Setup, f: Loop) returns (events: seq<Event>, f': Loop)
    requires Good(c, f) && Open(c, f) && f.spot.Comparing?
    ensures Leads(c, f, events, f') && SameCourse(f.core, f'.core) && Open(c, f')
    ensures f'.spot.Entering? || f'.spot.AtLimit?
  {
    var drained, mid := FinishWorkers(c, f);
    if mid.spot.seenLast < mid.spot.version + c.config.maxAge {
      WindowEndAvailable(c, mid);
    }
    f' := Single(c, mid, CompareLimit, mid.core);
    events := drained + [CompareLimit];
    Joined(c, f, drained, mid, [CompareLimit], f');
  }

  lemma Enters(c: Setup, f: Loop) returns (events: seq<Event>, f': Loop)
    requires Good(c, f) && Open(c, f) && f.spot.Entering?
    ensures Leads(c, f, events, f') && SameCourse(f.core, f'.core) && Open(c, f')
    ensures f'.spot.InBatch? && f'.core.phase.HasVersion?
  {
    f' := Single(c, f, Event.Enter, f.core.(phase := HasVersion(f.core.collectorVersion)));
    events := [Event.Enter];
  }

  lemma ReadsLast(c: Setup, f: Loop) returns (events: seq<Event>, f': Loop)
    requires Good(c, f) && Open(c, f) && f.spot.InBatch? && f.core.phase.HasVersion?
    ensures Leads(c, f, events, f') && SameCourse(f.core, f'.core) && Open(c, f')
    ensures f'.spot.InBatch? && f'.core.phase.HasLast?
  {
    f' := Single(c, f, ReadLastTarget, f.core.(phase := HasLast(f.core.phase.generation, f.core.last)));
    events := [ReadLastTarget];
  }

  lemma Takes(c: Setup, f: Loop) returns (f': Loop)
    requires Good(c, f) && Open(c, f) && f.core.phase.HasLast?
    ensures Leads(c, f, [TakeReservation], f') && !f'.core.sampled && f'.core.consumed == f.core.consumed
    ensures f'.core.trainerVersion == f.core.trainerVersion
    ensures f'.core.reservations == f.core.reservations + [f.core.trainerVersion]
  {
    HeldPicksCurrentStep(c.config, f.core);
    f' := Single(c, f, TakeReservation, Reserved(c.config, f.core));
  }

  /** While it can, the collector comes to reserve the current step. */
  lemma {:induction false} Reserves(c: Setup, f: Loop) returns (events: seq<Event>, f': Loop)
    requires Good(c, f) && Open(c, f)
    ensures Leads(c, f, events, f') && !f'.core.sampled && f'.core.consumed == f.core.consumed
    ensures f'.core.trainerVersion == f.core.trainerVersion
    ensures f'.core.reservations == f.core.reservations + [f.core.trainerVersion]
    decreases SpotRank(f)
  {
    if f.core.phase.HasLast? {
      f' := Takes(c, f);
      events := [TakeReservation];
    } else {
      var first, mid := OneSpot(c, f);
      var rest;
      rest, f' := Reserves(c, mid);
      events := first + rest;
      Joined(c, f, first, mid, rest, f');
    }
  }

  // ---- Once it cannot, it never can ----

  ghost predicate Lost(c: Setup, f: Loop) {
    !f.core.sampled && f.core.trainerVersion !in f.core.reservations && !CanStillReserve(c, f)
  }

  lemma FirstStepFirst(c: Config, s: State)
    requires c.Valid() && Inv(c, s) && s.collectorVersion == c.start && s.reservations != []
    ensures c.start in s.reservations
  {
    var u := s.reservations[0];
    assert u in s.reservations && WindowLow(c, OldestUsable(s)) <= c.start <= u;
  }

  /** Until the first step is reserved, nothing else is, and nothing keeps the collector from it. */
  lemma FirstStepStaysOpen(c: Setup, f: Loop)
    requires Good(c, f) && !f.core.sampled && f.core.trainerVersion !in f.core.reservations
    requires f.core.trainerVersion == c.config.start
    ensures CanStillReserve(c, f)
  {
    var s := f.core;
    TargetWeightsWindow(c.config, c.config.start, c.config.start);
    if s.reservations != [] {
      FirstStepFirst(c.config, s);
    }
    if s.phase.HasLast? {
      var r := NextTarget(TargetWeights(c.config, s.phase.generation), s.phase.seenLast, s.generating);
      if r.Some? {
        TargetWeightsWindow(c.config, s.phase.generation, r.value);
      }
    }
  }

  /** The current step is neither reserved nor trained on nor passed. */
  ghost predicate Stays(s: State, s': State) {
    && s'.trainerVersion == s.trainerVersion && !s'.sampled && s'.consumed == s.consumed
    && s.trainerVersion !in s'.reservations
  }

  /** An action other than reserving the current step gains nothing for it. */
  lemma NothingGained(c: Config, s: State, a: Action)
    requires c.Valid() && Inv(c, s) && !s.sampled && s.trainerVersion !in s.reservations && Step(c, s, a).Some?
    requires a.Reserve? ==> s.trainerVersion !in TargetWeights(c, s.phase.generation)
    ensures Stays(s, Step(c, s, a).value)
  {
    match a
    case Sample => NothingToDraw(c, s);
    case Reserve =>
    case Push(_) =>
    case Spawn =>
    case _ =>
  }

  /** A version that was read in vain stays so. */
  lemma HeldInVain(c: Config, s: State, a: Action)
    requires c.Valid() && Inv(c, s) && !s.sampled && s.trainerVersion !in s.reservations && HoldsVersion(s)
    requires s.trainerVersion !in TargetWeights(c, s.phase.generation) || Stuck(c, s)
    requires Step(c, s, a).Some? && !a.Reserve?
    ensures var s' := Step(c, s, a).value;
      HoldsVersion(s') && (s.trainerVersion !in TargetWeights(c, s'.phase.generation) || Stuck(c, s'))
  {
    if Stuck(c, s) {
      StuckStep(c, s, a);
    }
  }

  /** Past the first step, the collector is in time only until it is told of the step, and paused meanwhile. */
  lemma InTimeIsUntold(c: Setup, f: Loop)
    requires c.config.Valid() && MessagesInv(c, f) && c.config.start < f.core.trainerVersion && InTime(c, f)
    ensures f.inbox.NewVersion? && !f.refitCleared
  {
    TargetWeightsWindow(c.config, f.core.collectorVersion, f.core.trainerVersion);
  }

  /** The step before was trained on, so the buffer has seen it. */
  lemma LastCovers(c: Config, s: State)
    requires c.Valid() && Safe(c, s) && !s.sampled && c.start < s.trainerVersion
    ensures s.last >= s.trainerVersion - 1
  {
    var t := s.trainerVersion - 1;
    SampledIsComplete(c, s, t);
    FilterElements(s.pushed, TargetIs(t));
    assert Filter(s.pushed, TargetIs(t))[0] in s.pushed;
  }

  lemma WindowUsedUp(c: Setup, f: Loop)
    requires f.spot.Comparing? && f.spot.seenLast >= f.spot.version + c.config.maxAge
    ensures !Available(c, f)
  {
    var r := NextTarget(TargetWeights(c.config, f.spot.version), f.spot.seenLast, f.core.generating);
    if r.Some? {
      TargetWeightsWindow(c.config, f.spot.version, r.value);
    }
  }

  /** The collector's own events outside of a batch. */
  lemma LostOutside(c: Setup, f: Loop, e: Event)
    requires Good(c, f) && Lost(c, f) && c.config.start < f.core.trainerVersion && Enabled(c, f, e)
    requires ActionOf(e) == None && !f.spot.InBatch?
    ensures !CanStillReserve(c, After(c, f, e, f.core))
  {
    if InTime(c, f) {
      InTimeIsUntold(c, f);
    }
    if e.CheckLast? {
      LastCovers(c.config, f.core);
    } else if e.CompareLimit? && f.spot.seenLast >= f.spot.version + c.config.maxAge {
      WindowUsedUp(c, f);
    }
  }

  /** The events of a batch. */
  lemma LostInside(c: Setup, f: Loop, e: Event, core: State)
    requires Good(c, f) && Lost(c, f) && c.config.start < f.core.trainerVersion && Does(c, f, e, core)
    requires e.TakeReservation? ==> FreshStep(c.config, f.core, Reserve)
    requires e.Enter? || e.ReadLastTarget? || e.TakeReservation? || f.core.phase.Spawning?
    ensures !CanStillReserve(c, After(c, f, e, core))
  {
  }

  /** What workers, trainer and a new version do. */
  lemma LostAround(c: Setup, f: Loop, e: Event, core: State)
    requires Good(c, f) && Lost(c, f) && c.config.start < f.core.trainerVersion && !f.spot.InBatch?
    requires Stays(f.core, core) && core.collectorVersion == f.core.collectorVersion + (if e.StoreVersion? then 1 else 0)
    requires After(c, f, e, core) == f.(core := core, inbox := if e.StoreVersion? then WakeUp else f.inbox)
    requires e.StoreVersion? ==> core.collectorVersion == core.trainerVersion
    ensures !CanStillReserve(c, After(c, f, e, core))
  {
    if e.StoreVersion? {
      TargetWeightsWindow(c.config, core.collectorVersion, core.trainerVersion);
    }
  }

  /** One more event loses nothing back. */
  lemma LostStep(c: Setup, f: Loop, e: Event) returns (f': Loop)
    requires Good(c, f) && Lost(c, f) && Next(c, f, e).Some?
    requires e.TakeReservation? ==> FreshStep(c.config, f.core, Reserve)
    ensures Next(c, f, e) == Some(f') && Lost(c, f') && f'.core.consumed == f.core.consumed
  {
    f' := Next(c, f, e).value;
    assert c.config.start < f.core.trainerVersion by {
      if f.core.trainerVersion == c.config.start {
        FirstStepStaysOpen(c, f);
      }
    }
    var core := NextHappens(c, f, e);
    if ActionOf(e).Some? {
      NothingGained(c.config, f.core, ActionOf(e).value);
    }
    if e.Enter? || e.ReadLastTarget? || e.TakeReservation? || f.core.phase.Spawning? {
      LostInside(c, f, e, core);
    } else if ActionOf(e) == None && !f.spot.InBatch? {
      LostOutside(c, f, e);
    } else if f.spot.InBatch? {
      if ActionOf(e).Some? {
        HeldInVain(c.config, f.core, ActionOf(e).value);
      }
    } else {
      LostAround(c, f, e, core);
    }
  }

  lemma {:induction false} LostForever(c: Setup, f: Loop, events: seq<Event>)
    requires Good(c, f) && Lost(c, f) && Run(c, f, events).Some? && RunsFreshly(c, f, events)
    ensures Run(c, f, events).value.core.consumed == f.core.consumed
    decreases |events|
  {
    if events != [] {
      NextKeepsGood(c, f, events[0]);
      var next := LostStep(c, f, events[0]);
      LostForever(c, next, events[1..]);
    }
  }

  // ---- Exactly when the current step can be finished ----

  /** Some continuation with only fresh reservations trains on the current step. */
  ghost predicate CanFinishStep(c: Setup, f: Loop) { exists events :: Finishes(c, f, events) }

  ghost predicate Finishes(c: Setup, f: Loop, events: seq<Event>) {
    && RunsFreshly(c, f, events) && Run(c, f, events).Some?
    && |Run(c, f, events).value.core.consumed| > |f.core.consumed|
  }

  /**
   * In every state that the loop reaches without a stale reservation, before the step is sampled: the current training
   * step can be finished exactly when it was reserved already or the collector can still come to reserve it.
   */
  lemma CanFinishIff(c: Setup, f: Loop)
    requires c.config.Valid() && LoopReachableFreshly(c, f) && !f.core.sampled
    ensures CanFinishStep(c, f) <==> f.core.trainerVersion in f.core.reservations || CanStillReserve(c, f)
  {
    ReachableIsGood(c, f);
    if f.core.trainerVersion in f.core.reservations {
      var events, f' := FinishReserved(c, f);
      assert Finishes(c, f, events);
    } else if CanStillReserve(c, f) {
      var first, mid := Reserves(c, f);
      var second, f' := FinishReserved(c, mid);
      Joined(c, f, first, mid, second, f');
      assert Finishes(c, f, first + second);
    } else {
      forall events ensures !Finishes(c, f, events) {
        if RunsFreshly(c, f, events) && Run(c, f, events).Some? {
          LostForever(c, f, events);
        }
      }
    }
  }
}
