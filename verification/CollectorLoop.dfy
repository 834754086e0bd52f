/**
 * The collection loop around the asynchronous protocol, action by action: the pause during a refit, the check whether
 * all targets are taken, the wait for a new version, and the messages by which the trainer pauses the collector, tells
 * it a version, wakes it and lets it go on. Every run of the loop is a run of the protocol.
 */
module CollectorLoops {
  import opened Seqs
  import opened ReplayBuffers
  import opened AsyncProtocol
  import opened AsyncSafety
  import opened AsyncProgress

  /** Where the collector thread is. */
  datatype Spot =
    | AtTop
    /** No refit was going on; the limit check comes next. */
    | AtCheck
    /** The check has read the version, */
    | Checking(version: int)
    /** and the buffer's last target. */
    | Comparing(version: int, seenLast: int)
    /** All targets are taken. */
    | AtLimit
    | Warning
    | Clearing
    | Waiting
    | Entering
    /** Processing a batch: the protocol's phase says how far. */
    | InBatch
    /** Spawning: before each prompt the collector looks whether a refit is going on. */
    | AtPrompt
    | PromptWaiting
    | Refreshing
    | MaySpawn

  /** The messages on their way to the collector; they are handled in order. */
  datatype Inbox =
    | NoMessage
    /** The first `set_weight_version`, which only wakes. */
    | FirstVersion
    /** `set_weight_version`, then `resume_after_refit`; */
    | NewVersion
    /** the version is stored, the collector not yet woken; */
    | WakeUp
    /** and then the resumption alone. */
    | Resume

  /** How far the trainer is with the refit after a training step. */
  datatype Refit = NoRefit | Paused | MayBump

  datatype Loop = Loop(core: State, spot: Spot, limitCleared: bool, warned: Option<int>, refitCleared: bool, inbox: Inbox,
                       refit: Refit)

  /** `inFlight`: weights are updated while generations go on, so that a refit does not wait for them. */
  datatype Setup = Setup(config: Config, inFlight: bool)

  datatype Event =
    | PassRefit
    | CheckVersion
    | CheckLast
    | CompareLimit
    | CompareWarned
    | Warn
    | ClearLimit
    | PassLimit
    | Enter
    | ReadLastTarget
    | TakeReservation
    | CheckPrompt
    | PassPrompt
    | RefreshPrompt
    | SpawnWorker
    | PushGroup(worker: nat)
    | ReleaseFirst(worker: nat)
    | FinishWorker(worker: nat)
    | Draw
    | BeginRefit
    | EndWait
    | BumpVersion
    | StoreVersion
    | WakeCollector
    | ResumeRefit

  function Start(c: Setup): Loop { Loop(Init(c.config), AtTop, true, None, true, FirstVersion, NoRefit) }

  /** The protocol's action in an event, if it has one. */
  function ActionOf(e: Event): Option<Action> {
    match e
    case Enter => Some(ReadVersion)
    case ReadLastTarget => Some(ReadLast)
    case TakeReservation => Some(Reserve)
    case RefreshPrompt => Some(RefreshVersion)
    case SpawnWorker => Some(Spawn)
    case PushGroup(i) => Some(Push(i))
    case ReleaseFirst(i) => Some(ReleaseEarly(i))
    case FinishWorker(i) => Some(Finish(i))
    case Draw => Some(Sample)
    case BumpVersion => Some(Bump)
    case StoreVersion => Some(DeliverVersion)
    case _ => None
  }

  /** The thread is where the event happens, and no flag holds it up. */
  predicate Enabled(c: Setup, f: Loop, e: Event) {
    match e
    case PassRefit => f.spot.AtTop? && f.refitCleared
    case CheckVersion => f.spot.AtCheck?
    case CheckLast => f.spot.Checking?
    case CompareLimit => f.spot.Comparing?
    case CompareWarned => f.spot.AtLimit?
    case Warn => f.spot.Warning?
    case ClearLimit => f.spot.Clearing?
    case PassLimit => f.spot.Waiting? && f.limitCleared
    case Enter => f.spot.Entering?
    case ReadLastTarget => f.spot.InBatch?
    case TakeReservation => f.spot.InBatch?
    case CheckPrompt => f.spot.AtPrompt?
    case PassPrompt => f.spot.PromptWaiting? && f.refitCleared
    case RefreshPrompt => f.spot.Refreshing?
    case SpawnWorker => f.spot.MaySpawn?
    case BeginRefit => f.core.sampled && !f.core.crashed && f.refit.NoRefit? && f.inbox.NoMessage?
    case EndWait => f.refit.Paused? && (c.inFlight || (f.core.running == [] && f.core.finishing == []))
    case BumpVersion => f.refit.MayBump?
    case StoreVersion => f.inbox.NewVersion?
    case WakeCollector => f.inbox.FirstVersion? || f.inbox.WakeUp?
    case ResumeRefit => f.inbox.Resume?
    case _ => true
  }

  /** What the event does to the loop, the protocol's state being `core` after it. */
  function After(c: Setup, f: Loop, e: Event, core: State): Loop {
    var g := f.(core := core);
    match e
    case PassRefit => g.(spot := AtCheck)
    case CheckVersion => g.(spot := Checking(f.core.collectorVersion))
    case CheckLast => if f.spot.Checking? then g.(spot := Comparing(f.spot.version, f.core.last)) else g
    case CompareLimit => if f.spot.Comparing? then g.(spot := if Available(c, f) then Entering else AtLimit) else g
    case CompareWarned => g.(spot := if f.warned == Some(f.core.collectorVersion) then Waiting else Warning)
    case Warn => g.(spot := Clearing, warned := Some(f.core.collectorVersion))
    case ClearLimit => g.(spot := Waiting, limitCleared := false)
    case PassLimit => g.(spot := Entering)
    case Enter => g.(spot := InBatch)
    case TakeReservation => g.(spot := if core.phase.Spawning? then AtPrompt else AtTop)
    case CheckPrompt => g.(spot := if f.refitCleared then MaySpawn else PromptWaiting)
    case PassPrompt => g.(spot := Refreshing)
    case RefreshPrompt => g.(spot := MaySpawn)
    case SpawnWorker => g.(spot := if core.phase.Spawning? then AtPrompt else AtTop)
    case BeginRefit => g.(refit := Paused, refitCleared := false)
    case EndWait => g.(refit := MayBump)
    case BumpVersion => g.(refit := NoRefit, inbox := NewVersion)
    case StoreVersion => g.(inbox := WakeUp)
    case WakeCollector => g.(limitCleared := true, inbox := if f.inbox.FirstVersion? then NoMessage else Resume)
    case ResumeRefit => g.(refitCleared := true, inbox := NoMessage)
    case _ => g
  }

  /** The limit check finds a target that nobody has generated or is generating. */
  predicate Available(c: Setup, f: Loop)
    requires f.spot.Comparing?
  {
    NextTarget(TargetWeights(c.config, f.spot.version), f.spot.seenLast, f.core.generating).Some?
  }

  function Next(c: Setup, f: Loop, e: Event): Option<Loop> {
    if !Enabled(c, f, e) then None
    else
      match ActionOf(e)
      case None => Some(After(c, f, e, f.core))
      case Some(a) =>
        var core := Step(c.config, f.core, a);
        if core.Some? then Some(After(c, f, e, core.value)) else None
  }

  function Run(c: Setup, f: Loop, events: seq<Event>): Option<Loop>
    decreases |events|
  {
    if events == [] then Some(f)
    else
      match Next(c, f, events[0])
      case None => None
      case Some(next) => Run(c, next, events[1..])
  }

  /** No reservation taken on the way is stale. */
  predicate RunsFreshly(c: Setup, f: Loop, events: seq<Event>)
    decreases |events|
  {
    events == [] ||
    ((events[0].TakeReservation? ==> FreshStep(c.config, f.core, Reserve))
     && (Next(c, f, events[0]).Some? ==> RunsFreshly(c, Next(c, f, events[0]).value, events[1..])))
  }

  // ---- Every run of the loop is a run of the protocol ----

  function ActionsOf(events: seq<Event>): seq<Action> {
    if events == [] then []
    else (match ActionOf(events[0]) case None => [] case Some(a) => [a]) + ActionsOf(events[1..])
  }

  /** The loop's runs, seen through its protocol state, are runs of the protocol, and fresh ones if no reservation is stale. */
  lemma {:induction false} LoopRefines(c: Setup, f: Loop, events: seq<Event>)
    requires Run(c, f, events).Some?
    ensures ExecFrom(c.config, f.core, ActionsOf(events)) == Some(Run(c, f, events).value.core)
    ensures RunsFreshly(c, f, events) ==> FreshFrom(c.config, f.core, ActionsOf(events))
    decreases |events|
  {
    if events != [] {
      var e, next := events[0], Next(c, f, events[0]).value;
      LoopRefines(c, next, events[1..]);
      EventRefines(c, f, e);
      if ActionOf(e).Some? {
        OneMoreAction(c.config, f.core, ActionOf(e).value, next.core, ActionsOf(events[1..]));
      } else {
        assert ActionsOf(events) == ActionsOf(events[1..]);
      }
    }
  }

  /** An event is its action, or leaves the protocol alone. */
  lemma EventRefines(c: Setup, f: Loop, e: Event)
    requires Next(c, f, e).Some?
    ensures match ActionOf(e) {
              case None => Next(c, f, e).value.core == f.core
              case Some(a) =>
                && Step(c.config, f.core, a) == Some(Next(c, f, e).value.core)
                && (!e.TakeReservation? ==> FreshStep(c.config, f.core, a))
            }
  {
  }

  lemma OneMoreAction(c: Config, s: State, a: Action, next: State, rest: seq<Action>)
    requires Step(c, s, a) == Some(next)
    ensures ExecFrom(c, s, [a] + rest) == ExecFrom(c, next, rest)
    ensures FreshFrom(c, s, [a] + rest) <==> FreshStep(c, s, a) && FreshFrom(c, next, rest)
  {
    assert ([a] + rest)[1..] == rest;
  }

  ghost predicate LoopReachable(c: Setup, f: Loop) { exists events :: LoopReached(c, events, f) }

  ghost predicate LoopReached(c: Setup, events: seq<Event>, f: Loop) { Run(c, Start(c), events) == Some(f) }

  ghost predicate LoopReachableFreshly(c: Setup, f: Loop) { exists events :: LoopReachedFreshly(c, events, f) }

  ghost predicate LoopReachedFreshly(c: Setup, events: seq<Event>, f: Loop) {
    LoopReached(c, events, f) && RunsFreshly(c, Start(c), events)
  }

  /** So whatever holds in every reachable state of the protocol holds in the loop. */
  lemma LoopStaysReachable(c: Setup, f: Loop)
    requires LoopReachable(c, f)
    ensures Reachable(c.config, f.core)
    ensures LoopReachableFreshly(c, f) ==> FreshlyReachable(c.config, f.core)
  {
    var events :| LoopReached(c, events, f);
    LoopRefines(c, Start(c), events);
    FromInit(c.config, ActionsOf(events), f.core);
    if LoopReachableFreshly(c, f) {
      var others :| LoopReachedFreshly(c, others, f);
      LoopRefines(c, Start(c), others);
      FromInit(c.config, ActionsOf(others), f.core);
    }
  }

  lemma FromInit(c: Config, actions: seq<Action>, s: State)
    requires ExecFrom(c, Init(c), actions) == Some(s)
    ensures Reachable(c, s) && (FreshFrom(c, Init(c), actions) ==> FreshlyReachable(c, s))
  {
    Continues(c, [], Init(c), actions, s);
    assert [] + actions == actions && FreshRun(c, []);
    assert Reached(c, actions, s);
    if FreshFrom(c, Init(c), actions) {
      assert ReachedFreshly(c, actions, s);
    }
  }

  // ---- What every event keeps ----

  /** A target that is being generated has a worker, or is the one whose workers are being spawned. */
  ghost predicate HasWorker(s: State, t: int) {
    || (exists e :: e in s.running && e.target == t)
    || (exists e :: e in s.finishing && e.target == t)
    || (s.phase.Spawning? && s.phase.target == t)
  }

  ghost predicate Working(s: State) { forall t :: t in s.generating ==> HasWorker(s, t) }

  /** The thread's place agrees with the protocol's phase. */
  ghost predicate InPhase(f: Loop) {
    match f.spot
    case InBatch => HoldsVersion(f.core)
    case AtPrompt => f.core.phase.Spawning?
    case PromptWaiting => f.core.phase.Spawning?
    case Refreshing => f.core.phase.Spawning?
    case MaySpawn => f.core.phase.Spawning?
    case _ => f.core.phase.Idle?
  }

  predicate PastLimit(spot: Spot) { spot.AtLimit? || spot.Warning? || spot.Clearing? || spot.Waiting? }

  /** The collector is at most one version behind, and only while it has not been told; a refit pauses it meanwhile. */
  ghost predicate MessagesInv(c: Setup, f: Loop) {
    && f.core.collectorVersion == f.core.trainerVersion - (if f.inbox.NewVersion? then 1 else 0)
    && (!f.refit.NoRefit? ==> f.core.sampled && f.inbox.NoMessage?)
    && (f.refitCleared <==> f.refit.NoRefit? && (f.inbox.NoMessage? || f.inbox.FirstVersion?))
    && (f.inbox.FirstVersion? ==> f.core.trainerVersion == c.config.start)
    && (f.inbox.NewVersion? || f.inbox.WakeUp? || f.inbox.Resume? ==> c.config.start < f.core.trainerVersion)
  }

  /** What the check has read is no newer than what is there, and it only pauses once the first step was reserved. */
  ghost predicate CheckInv(c: Setup, f: Loop) {
    && (f.spot.Checking? || f.spot.Comparing? ==> c.config.start <= f.spot.version <= f.core.collectorVersion)
    && (f.spot.Comparing? ==> f.spot.seenLast <= f.core.last)
    && (PastLimit(f.spot) ==> c.config.start in f.core.reservations)
  }

  ghost predicate Good(c: Setup, f: Loop) {
    && c.config.Valid() && Safe(c.config, f.core)
    && Working(f.core) && InPhase(f) && MessagesInv(c, f) && CheckInv(c, f)
  }

  lemma StepKeepsWorking(c: Config, s: State, a: Action)
    requires c.Valid() && Working(s) && Step(c, s, a).Some?
    ensures Working(Step(c, s, a).value)
  {
    var s' := Step(c, s, a).value;
    match a
    case Push(i) => PushKeepsWorking(c, s, i);
    case Finish(i) => FinishKeepsWorking(s, s', i);
    case Spawn => SpawnKeepsWorking(c, s);
    case ReleaseEarly(i) => FewerKeepWorking(s, s');
    case RefreshVersion => FewerKeepWorking(s, s');
    case Reserve => ReserveKeepsWorking(c, s);
    case _ => FewerKeepWorking(s, s');
  }

  lemma FewerKeepWorking(s: State, s': State)
    requires Working(s) && s'.generating <= s.generating && s'.running == s.running && s'.finishing == s.finishing
    requires s.phase.Spawning? ==> s'.phase.Spawning? && s'.phase.target == s.phase.target
    ensures Working(s')
  {
    forall t | t in s'.generating ensures HasWorker(s', t) {
      assert HasWorker(s, t);
    }
  }

  lemma ReserveKeepsWorking(c: Config, s: State)
    requires c.Valid() && Working(s) && s.phase.HasLast?
    ensures Working(Reserved(c, s))
  {
    forall t | t in Reserved(c, s).generating ensures HasWorker(Reserved(c, s), t) {
      assert t in s.generating ==> HasWorker(s, t);
    }
  }

  lemma SpawnKeepsWorking(c: Config, s: State)
    requires Working(s) && s.phase.Spawning?
    ensures Working(Spawned(c, s))
  {
    var s' := Spawned(c, s);
    var e := Entry(s.phase.nextPrompt, s.phase.generation, s.phase.target);
    assert s'.running[|s.running|] == e;
    forall t | t in s'.generating ensures HasWorker(s', t) {
      assert HasWorker(s, t);
      if t == s.phase.target {
        assert e in s'.running;
      } else if r :| r in s.running && r.target == t {
        assert r in s'.running;
      }
    }
  }

  lemma PushKeepsWorking(c: Config, s: State, i: nat)
    requires Working(s) && i < |s.running|
    ensures Working(Pushed(c, s, i))
  {
    var s' := Pushed(c, s, i);
    if |s.entries| < c.BufferSize() {
      var e := s.running[i];
      forall t | t in s'.generating ensures HasWorker(s', t) {
        assert HasWorker(s, t);
        if r :| r in s.running && r.target == t {
          InRemaining(s.running, i, r);
        }
      }
    }
  }

  lemma InRemaining<T>(s: seq<T>, i: nat, x: T)
    requires i < |s| && x in s
    ensures x == s[i] || x in RemoveAt(s, i)
  {
    var k :| 0 <= k < |s| && s[k] == x;
    if k != i {
      assert RemoveAt(s, i)[if k < i then k else k - 1] == x;
    }
  }

  lemma FinishKeepsWorking(s: State, s': State, i: nat)
    requires Working(s) && i < |s.finishing|
    requires s' == s.(generating := s.generating - {s.finishing[i].target}, finishing := RemoveAt(s.finishing, i))
    ensures Working(s')
  {
    forall t | t in s'.generating ensures HasWorker(s', t) {
      assert HasWorker(s, t);
      if r :| r in s.finishing && r.target == t {
        InRemaining(s.finishing, i, r);
      }
    }
  }

  /** What an action may do to the versions, the reservations and the phase. */
  ghost predicate Moves(a: Action, s: State, s': State) {
    && s'.trainerVersion == s.trainerVersion + (if a.Bump? then 1 else 0)
    && s'.collectorVersion == s.collectorVersion + (if a.DeliverVersion? then 1 else 0)
    && (s.sampled && !a.Bump? ==> s'.sampled)
    && s'.last >= s.last && s.reservations <= s'.reservations
    && match a {
         case ReadVersion => s'.phase.HasVersion?
         case ReadLast => s'.phase.HasLast?
         case Reserve => s'.phase.Idle? || s'.phase.Spawning?
         case RefreshVersion => s'.phase.Spawning?
         case Spawn => s'.phase.Idle? || s'.phase.Spawning?
         case _ => s'.phase == s.phase
       }
  }

  lemma StepMoves(c: Config, s: State, a: Action)
    requires Step(c, s, a).Some?
    ensures Moves(a, s, Step(c, s, a).value)
  {
    match a
    case Push(i) =>
    case Sample =>
    case Reserve =>
    case Spawn =>
    case _ =>
  }

  /** The event happens at its place, and the protocol's state moves by its action. */
  ghost predicate Happens(c: Setup, f: Loop, e: Event, core: State) {
    Enabled(c, f, e) && if ActionOf(e).Some? then Moves(ActionOf(e).value, f.core, core) else core == f.core
  }

  lemma NextHappens(c: Setup, f: Loop, e: Event) returns (core: State)
    requires Next(c, f, e).Some?
    ensures Happens(c, f, e, core) && Next(c, f, e) == Some(After(c, f, e, core))
  {
    core := f.core;
    if ActionOf(e).Some? {
      StepMoves(c.config, f.core, ActionOf(e).value);
      core := Step(c.config, f.core, ActionOf(e).value).value;
    }
  }

  lemma AfterKeepsMessages(c: Setup, f: Loop, e: Event, core: State)
    requires MessagesInv(c, f) && Happens(c, f, e, core) && c.config.start <= f.core.trainerVersion
    ensures MessagesInv(c, After(c, f, e, core))
  {
  }

  lemma AfterKeepsPhase(c: Setup, f: Loop, e: Event, core: State)
    requires InPhase(f) && Happens(c, f, e, core)
    ensures InPhase(After(c, f, e, core))
  {
  }

  /** Until the first step is reserved nothing is, so the check finds it. */
  lemma FirstStepAvailable(c: Setup, f: Loop)
    requires Good(c, f) && f.spot.Comparing? && !Available(c, f)
    ensures c.config.start in f.core.reservations
  {
    var s, start := f.core, c.config.start;
    if start !in s.reservations {
      if start < NextStep(c.config, s) {
        EarlierStepsReserved(c.config, s, start);
      } else {
        TargetWeightsWindow(c.config, f.spot.version, start);
      }
    }
  }

  lemma AfterKeepsCheck(c: Setup, f: Loop, e: Event, core: State)
    requires CheckInv(c, f) && Happens(c, f, e, core) && c.config.start <= f.core.collectorVersion
    requires f.spot.Comparing? && !Available(c, f) ==> c.config.start in f.core.reservations
    ensures CheckInv(c, After(c, f, e, core))
  {
    assert forall t :: t in f.core.reservations ==> t in core.reservations;
  }

  lemma NextKeepsGood(c: Setup, f: Loop, e: Event)
    requires Good(c, f) && Next(c, f, e).Some? && (e.TakeReservation? ==> FreshStep(c.config, f.core, Reserve))
    ensures Good(c, Next(c, f, e).value)
  {
    if ActionOf(e).Some? {
      StepKeepsSafe(c.config, f.core, ActionOf(e).value);
      StepKeepsWorking(c.config, f.core, ActionOf(e).value);
    }
    var core := NextHappens(c, f, e);
    AfterKeepsMessages(c, f, e, core);
    AfterKeepsPhase(c, f, e, core);
    if f.spot.Comparing? && !Available(c, f) {
      FirstStepAvailable(c, f);
    }
    AfterKeepsCheck(c, f, e, core);
  }

  lemma StartIsGood(c: Setup)
    requires c.config.Valid()
    ensures Good(c, Start(c))
  {
    RunIsSafe(c.config, []);
  }

  lemma {:induction false} RunKeepsGood(c: Setup, f: Loop, events: seq<Event>)
    requires Good(c, f) && Run(c, f, events).Some? && RunsFreshly(c, f, events)
    ensures Good(c, Run(c, f, events).value)
    decreases |events|
  {
    if events != [] {
      NextKeepsGood(c, f, events[0]);
      RunKeepsGood(c, Next(c, f, events[0]).value, events[1..]);
    }
  }

  lemma ReachableIsGood(c: Setup, f: Loop)
    requires c.config.Valid() && LoopReachableFreshly(c, f)
    ensures Good(c, f)
  {
    var events :| LoopReachedFreshly(c, events, f);
    StartIsGood(c);
    RunKeepsGood(c, Start(c), events);
  }
}
