/**
 * The asynchronous GRPO protocol as a transition system: the collector thread reserves training steps and spawns
 * one worker per prompt, workers push into the replay buffer and release the reservation, the trainer samples,
 * trains and bumps the weight version, and the collector learns of new versions late. Every schedule of these
 * atomic actions is a run. Reading the buffer's last target and taking the reservation are separate actions, as
 * they are in the collector.
 */
module AsyncProtocol {
  import opened Seqs
  import opened ReplayBuffers

  /** A prompt group: which prompt of its batch, the generating version, the intended step. */
  type Group = Entry<nat>

  datatype Config = Config(start: int, promptsPerStep: nat, maxAge: nat) {
    ghost predicate Valid() { 0 <= start && 1 <= promptsPerStep && 1 <= maxAge }

    /** The trainer's choice of buffer size, with the slack factor of two. */
    function BufferSize(): nat { promptsPerStep * maxAge * 2 }

    function MaxInflight(): nat { if promptsPerStep * maxAge == 0 then 1 else promptsPerStep * maxAge }
  }

  /** Where the collector thread is in processing one batch of prompts. */
  datatype Phase =
    | Idle
    | HasVersion(generation: int)
    | HasLast(generation: int, seenLast: int)
    | Spawning(generation: int, target: int, nextPrompt: nat)

  datatype State = State(
    entries: seq<Group>,
    last: int,
    generating: set<int>,
    phase: Phase,
    collectorVersion: int,
    running: seq<Group>,
    finishing: seq<Group>,
    trainerVersion: int,
    sampled: bool,
    crashed: bool,
    reservations: seq<int>,
    pushed: seq<Group>,
    consumed: seq<seq<Group>>)

  datatype Action =
    | ReadVersion
    | ReadLast
    | Reserve
    | RefreshVersion
    | Spawn
    | Push(worker: nat)
    | ReleaseEarly(worker: nat)
    | Finish(worker: nat)
    | Sample
    | Bump
    | DeliverVersion

  /** The training steps a generation version may target. */
  function TargetWeights(c: Config, generation: int): seq<int> {
    if generation == c.start then seq(c.maxAge + 1, i => c.start + i)
    else seq(c.maxAge, i => generation + 1 + i)
  }

  /** The first target that is newer than the last one generated and not being generated. */
  function NextTarget(targets: seq<int>, last: int, generating: set<int>): (r: Option<int>)
    ensures r.Some? ==> r.value in targets && r.value > last && r.value !in generating
    ensures r == None ==> forall t :: t in targets ==> t <= last || t in generating
  {
    if targets == [] then None
    else if targets[0] > last && targets[0] !in generating then Some(targets[0])
    else NextTarget(targets[1..], last, generating)
  }

  function Init(c: Config): State {
    State([], -1, {}, Idle, c.start, [], [], c.start, false, false, [], [], [])
  }

  function Low(c: Config, s: State): int { MinValidVersion(s.trainerVersion, c.maxAge) }

  /** One atomic action, or `None` when it is not enabled. */
  function Step(c: Config, s: State, a: Action): Option<State> {
    match a
    case ReadVersion =>
      if s.phase.Idle? then Some(s.(phase := HasVersion(s.collectorVersion))) else None
    case ReadLast =>
      if s.phase.HasVersion? then Some(s.(phase := HasLast(s.phase.generation, s.last))) else None
    case Reserve => if s.phase.HasLast? then Some(Reserved(c, s)) else None
    case RefreshVersion =>
      if s.phase.Spawning? then Some(Refreshed(s)) else None
    case Spawn =>
      if s.phase.Spawning? && |s.running| + |s.finishing| < c.MaxInflight() then Some(Spawned(c, s)) else None
    case Push(i) => if i < |s.running| then Some(Pushed(c, s, i)) else None
    case ReleaseEarly(i) =>
      if i < |s.finishing| && s.finishing[i].group == 0
      then Some(s.(generating := s.generating - {s.finishing[i].target}))
      else None
    case Finish(i) =>
      if i < |s.finishing|
      then Some(s.(generating := s.generating - {s.finishing[i].target}, finishing := RemoveAt(s.finishing, i)))
      else None
    case Sample => if s.sampled || s.crashed then None else Some(Drawn(c, s))
    case Bump =>
      if s.sampled && !s.crashed then Some(s.(trainerVersion := s.trainerVersion + 1, sampled := false)) else None
    case DeliverVersion =>
      if s.collectorVersion < s.trainerVersion then Some(s.(collectorVersion := s.collectorVersion + 1)) else None
  }

  function Reserved(c: Config, s: State): State
    requires s.phase.HasLast?
  {
    match NextTarget(TargetWeights(c, s.phase.generation), s.phase.seenLast, s.generating)
    case None => s.(phase := Idle)
    case Some(t) =>
      s.(generating := s.generating + {t},
         phase := if c.promptsPerStep == 0 then Idle else Spawning(s.phase.generation, t, 0),
         reservations := s.reservations + [t])
  }

  /** After a refit the batch goes on with the collector's current version. */
  function Refreshed(s: State): State
    requires s.phase.Spawning?
  {
    s.(phase := Spawning(s.collectorVersion, s.phase.target, s.phase.nextPrompt))
  }

  function Spawned(c: Config, s: State): State
    requires s.phase.Spawning?
  {
    var Spawning(generation, target, prompt) := s.phase;
    s.(running := s.running + [Entry(prompt, generation, target)],
       phase := if prompt + 1 < c.promptsPerStep then Spawning(generation, target, prompt + 1) else Idle)
  }

  /** A worker offers its group; a full buffer changes nothing and the worker tries again. */
  function Pushed(c: Config, s: State, i: nat): State
    requires i < |s.running|
  {
    var e := s.running[i];
    if |s.entries| >= c.BufferSize() then s
    else
      s.(entries := s.entries + [e], last := Max(s.last, e.target), pushed := s.pushed + [e],
         running := RemoveAt(s.running, i), finishing := s.finishing + [e])
  }

  /** The trainer samples one step's worth of groups, waits, or dies of the buffer's age check. */
  function Drawn(c: Config, s: State): State {
    var n, v, age := c.promptsPerStep, s.trainerVersion, c.maxAge;
    match SampleResult(s.entries, n, v, age)
    case NotReady => s
    case Sampled(_, _) =>
      s.(entries := SampleRest(s.entries, n, v, age),
         consumed := s.consumed + [Filter(s.entries, ReadyFor(Low(c, s), v))[..n]],
         sampled := true)
    case StaleError(_, _) => s.(crashed := true)
    case ZeroDivisionError => s.(crashed := true)
  }

  /** The state after a schedule, if every action of it was enabled in turn. */
  function Exec(c: Config, schedule: seq<Action>): Option<State> {
    if schedule == [] then Some(Init(c))
    else
      match Exec(c, schedule[..|schedule| - 1])
      case None => None
      case Some(s) => Step(c, s, schedule[|schedule| - 1])
  }

  /** A reservation is fresh when its target is beyond what the buffer has seen at the moment it is taken. */
  predicate FreshStep(c: Config, s: State, a: Action) {
    a.Reserve? && s.phase.HasLast? ==>
      var t := NextTarget(TargetWeights(c, s.phase.generation), s.phase.seenLast, s.generating);
      t.Some? ==> t.value > s.last
  }

  predicate FreshRun(c: Config, schedule: seq<Action>) {
    schedule == [] ||
    var n := |schedule| - 1;
    FreshRun(c, schedule[..n]) && (Exec(c, schedule[..n]).Some? ==> FreshStep(c, Exec(c, schedule[..n]).value, schedule[n]))
  }

  // ---- Which targets get reserved, over every run ----

  function WindowLow(c: Config, generation: int): int { if generation == c.start then generation else generation + 1 }

  lemma {:induction false} NextTargetIsFirst(targets: seq<int>, last: int, generating: set<int>, t: int)
    requires var r := NextTarget(targets, last, generating); r.Some? && t in targets && t < r.value
    requires forall i, j :: 0 <= i < j < |targets| ==> targets[i] < targets[j]
    ensures t <= last || t in generating
  {
    if !(targets[0] > last && targets[0] !in generating) && t != targets[0] {
      NextTargetIsFirst(targets[1..], last, generating, t);
    }
  }

  lemma TargetWeightsWindow(c: Config, generation: int, t: int)
    ensures t in TargetWeights(c, generation)
       <==> generation <= t <= generation + c.maxAge && (t == generation ==> generation == c.start)
    ensures t in TargetWeights(c, generation) <==> WindowLow(c, generation) <= t <= generation + c.maxAge
  {
    var w := TargetWeights(c, generation);
    if WindowLow(c, generation) <= t <= generation + c.maxAge {
      assert w[t - WindowLow(c, generation)] == t;
    }
  }

  /** The oldest version a later reservation may still use. */
  function OldestUsable(s: State): int {
    if s.phase.HasVersion? || s.phase.HasLast? then s.phase.generation else s.collectorVersion
  }

  /** What every action keeps, stale reservations included. */
  ghost predicate Inv(c: Config, s: State) {
    && c.start <= s.collectorVersion <= s.trainerVersion
    && (!s.phase.Idle? ==> c.start <= s.phase.generation <= s.collectorVersion)
    && (s.phase.Spawning? ==> s.phase.target in s.reservations && s.phase.nextPrompt < c.promptsPerStep)
    && (s.phase.HasLast? ==> s.phase.seenLast <= s.last && (s.phase.seenLast == -1 || s.phase.seenLast in s.reservations))
    && (s.last == -1 || s.last in s.reservations)
    && (forall t :: t in s.reservations ==> t in s.generating || t <= s.last)
    && (forall t :: t in s.generating ==> t in s.reservations)
    && (forall t, u :: u in s.reservations && WindowLow(c, OldestUsable(s)) <= t <= u ==> t in s.reservations)
    && (forall e :: e in s.running ==> e.target in s.reservations)
    && (forall e :: e in s.finishing || e in s.pushed ==> e.target in s.reservations && e.target <= s.last)
    && (forall e :: e in s.entries ==> e in s.pushed)
    && (forall t :: t in s.reservations ==> c.start <= t)
  }

  lemma ReserveKeepsInv(c: Config, s: State)
    requires c.Valid() && Inv(c, s) && s.phase.HasLast?
    ensures Inv(c, Reserved(c, s))
  {
    var w := TargetWeights(c, s.phase.generation);
    var r := NextTarget(w, s.phase.seenLast, s.generating);
    if r.Some? {
      var s' := Reserved(c, s);
      TargetWeightsWindow(c, s.phase.generation, r.value);
      forall t, u | u in s'.reservations && WindowLow(c, OldestUsable(s')) <= t <= u ensures t in s'.reservations {
        if u == r.value && t != r.value {
          TargetWeightsWindow(c, s.phase.generation, t);
          NextTargetIsFirst(w, s.phase.seenLast, s.generating, t);
        }
      }
    }
  }

  lemma RestIsFromEntries(s: seq<Group>, p: Group -> bool, n: nat)
    ensures forall e :: e in DropMatches(s, p, n) ==> e in s
  {
  }

  lemma PushKeepsInv(c: Config, s: State, i: nat)
    requires c.Valid() && Inv(c, s) && i < |s.running|
    ensures Inv(c, Pushed(c, s, i))
  {
    var s' := Pushed(c, s, i);
    assert s.running[i] in s.running;
    assert forall e :: e in s'.running ==> e in s.running;
  }

  lemma SpawnKeepsInv(c: Config, s: State)
    requires c.Valid() && Inv(c, s) && s.phase.Spawning?
    ensures Inv(c, Spawned(c, s))
  {
  }

  lemma SampleKeepsInv(c: Config, s: State)
    requires c.Valid() && Inv(c, s)
    ensures Inv(c, Drawn(c, s))
  {
    RestIsFromEntries(s.entries, ReadyFor(Low(c, s), s.trainerVersion), c.promptsPerStep);
  }

  lemma StepKeepsInv(c: Config, s: State, a: Action)
    requires c.Valid() && Inv(c, s) && Step(c, s, a).Some?
    ensures Inv(c, Step(c, s, a).value)
  {
    match a
    case Reserve => ReserveKeepsInv(c, s);
    case Spawn => SpawnKeepsInv(c, s);
    case Push(i) => PushKeepsInv(c, s, i);
    case Sample => SampleKeepsInv(c, s);
    case Finish(i) => WorkerStepKeepsInv(c, s, a);
    case ReleaseEarly(i) => WorkerStepKeepsInv(c, s, a);
    case _ => VersionStepKeepsInv(c, s, a);
  }

  lemma WorkerStepKeepsInv(c: Config, s: State, a: Action)
    requires c.Valid() && Inv(c, s) && Step(c, s, a).Some? && (a.Finish? || a.ReleaseEarly?)
    ensures Inv(c, Step(c, s, a).value)
  {
  }

  lemma VersionStepKeepsInv(c: Config, s: State, a: Action)
    requires c.Valid() && Inv(c, s) && Step(c, s, a).Some?
    requires a.ReadVersion? || a.ReadLast? || a.RefreshVersion? || a.Bump? || a.DeliverVersion?
    ensures Inv(c, Step(c, s, a).value)
  {
  }

  lemma {:induction false} RunKeepsInv(c: Config, schedule: seq<Action>)
    requires c.Valid() && Exec(c, schedule).Some?
    ensures Inv(c, Exec(c, schedule).value)
  {
    if schedule != [] {
      var before := schedule[..|schedule| - 1];
      RunKeepsInv(c, before);
      StepKeepsInv(c, Exec(c, before).value, schedule[|schedule| - 1]);
    }
  }

  /** Some schedule ends in this state. */
  ghost predicate Reachable(c: Config, s: State) { exists schedule :: Reached(c, schedule, s) }

  ghost predicate Reached(c: Config, schedule: seq<Action>, s: State) { Exec(c, schedule) == Some(s) }

  lemma ReachableKeepsInv(c: Config, s: State)
    requires c.Valid() && Reachable(c, s)
    ensures Inv(c, s)
  {
    var schedule :| Reached(c, schedule, s);
    RunKeepsInv(c, schedule);
  }

  /**
   * In every reachable state, the reservation the collector is about to take repeats an earlier one exactly when
   * its target is not fresh.
   */
  lemma DuplicateIffStale(c: Config, s: State, t: int)
    requires c.Valid() && Reachable(c, s) && s.phase.HasLast?
    requires NextTarget(TargetWeights(c, s.phase.generation), s.phase.seenLast, s.generating) == Some(t)
    ensures t in s.reservations <==> t <= s.last
  {
    ReachableKeepsInv(c, s);
    TargetWeightsWindow(c, s.phase.generation, t);
  }

  ghost predicate Distinct<T(!new)>(s: seq<T>) { forall i, j :: 0 <= i < j < |s| ==> s[i] != s[j] }

  /** Over a whole run, no target is reserved twice if and only if every reservation was fresh. */
  lemma {:induction false} ReservedOnceIffFresh(c: Config, schedule: seq<Action>)
    requires c.Valid() && Exec(c, schedule).Some?
    ensures Distinct(Exec(c, schedule).value.reservations) <==> FreshRun(c, schedule)
  {
    if schedule != [] {
      var n := |schedule| - 1;
      var s := Exec(c, schedule[..n]).value;
      ReservedOnceIffFresh(c, schedule[..n]);
      var r, r' := s.reservations, Exec(c, schedule).value.reservations;
      assert r <= r';
      assert Distinct(r') ==> Distinct(r);
      if schedule[n].Reserve? {
        var t := NextTarget(TargetWeights(c, s.phase.generation), s.phase.seenLast, s.generating);
        if t.Some? {
          assert Reached(c, schedule[..n], s);
          DuplicateIffStale(c, s, t.value);
          assert r' == r + [t.value] && r'[|r|] == t.value;
          if t.value in r {
            var i :| 0 <= i < |r| && r[i] == t.value;
            assert r'[i] == r'[|r|];
          }
        }
      }
    }
  }
}
