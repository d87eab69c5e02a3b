/** A worker's exit is not atomic in the code: what a step between its two halves can lose. */
module ReactionSchedulerExit {
  import opened Observations
  import opened ObservationMerging
  import opened Options
  import opened ReactionScheduler
  import opened ReactionSchedulerSafety
  import opened Sequences

  /** The first half of a worker's exit: under the lock it finds nothing pending and signs off. */
  ghost function ExitFirstHalf(s: State, session: string): State
    requires session in s.sessions
  {
    s.(sessions := Keep(s.sessions, session, s.sessions[session].(worker := None)))
  }

  /** The second half, after the lock was released and taken again: if the schedule is still
      tracked, whatever it runs or has pending resolves to nothing. */
  ghost function ExitSecondHalf(s: State, session: string, ident: Id, task: Id): State {
    if !Tracked(s, session, ident) then s.(tasks := s.tasks - {task})
    else
      var sch := s.sessions[session];
      var ids := (if sch.running.Some? then sch.running.value.completions else [])
               + (if sch.pending.Some? then sch.pending.value.completions else []);
      s.(sessions := Keep(s.sessions, session, sch.(running := None, pending := None, worker := None)),
         tasks := s.tasks - {task},
         futures := ResolveAll(s.futures, ids, None))
  }

  ghost predicate AboutToExit(s: State, task: Id) {
    && task in s.tasks && s.tasks[task].Worker? && s.tasks[task].phase.Top?
    && Tracked(s, s.tasks[task].session, s.tasks[task].schedule)
    && s.sessions[s.tasks[task].session].pending.None?
  }

  /** With nothing in between, the two halves are the single exit step. */
  lemma ExitHalvesFuse(s: State, config: Config, task: Id, world: World)
    requires Inv(s, config, world) && AboutToExit(s, task)
    ensures var w := s.tasks[task];
            ExitSecondHalf(ExitFirstHalf(s, w.session), w.session, w.schedule, task) == AfterWorkerTurn(s, task)
  {
    IdleAtExit(s, config, task, world);
    DoneStays(s.futures, [], None);
  }

  /** A submit between the two halves loses its reaction exactly when preserved user input keeps
      the schedule alive: the newcomer starts a new worker, and the old one then resolves it to
      nothing although it was neither outranked, superseded nor cancelled. */
  lemma ExitGapLosesNewcomer(s: State, config: Config, task: Id, sub: Submission, world: World)
    requires Inv(s, config, world) && AboutToExit(s, task) && ValidConfig(config)
    requires Mergeable(sub.observation, world) && sub.observation.sessionId == s.tasks[task].session
    requires !Expired(sub, config) && sub.starts && Priority(sub.observation) != 3
    ensures var w, session := s.tasks[task], s.tasks[task].session;
            var between := AfterSubmit(ExitFirstHalf(s, session), config, sub);
            var end := ExitSecondHalf(between, session, w.schedule, task);
            && s.next in between.futures && between.futures[s.next] == Waiting(session)
            && s.next in end.futures
            && (end.futures[s.next] == Done(session, None) <==> s.sessions[session].preserved != map[])
            && (end.futures[s.next] == Waiting(session) <==> s.sessions[session].preserved == map[])
  {
    var w, session := s.tasks[task], s.tasks[task].session;
    IdleAtExit(s, config, task, world);
    GapOutcome(s, config, task, sub);
  }

  /** A worker about to exit has nothing running. */
  lemma IdleAtExit(s: State, config: Config, task: Id, world: World)
    requires Inv(s, config, world) && AboutToExit(s, task)
    ensures var sch := s.sessions[s.tasks[task].session];
            sch.running.None? && sch.pending.None? && sch.ident < s.next && |s.sessions| <= config.maxSessions
  {
    var sch := s.sessions[s.tasks[task].session];
    assert TaskOk(task, s) && ScheduleOk(s.tasks[task].session, sch, s, world);
  }

  lemma GapOutcome(s: State, config: Config, task: Id, sub: Submission)
    requires AboutToExit(s, task) && sub.observation.sessionId == s.tasks[task].session && |s.sessions| <= config.maxSessions
    requires var sch := s.sessions[sub.observation.sessionId]; sch.running.None? && sch.ident < s.next
    requires !Expired(sub, config) && sub.starts && Priority(sub.observation) != 3
    ensures var w, session := s.tasks[task], s.tasks[task].session;
            var between := AfterSubmit(ExitFirstHalf(s, session), config, sub);
            var end := ExitSecondHalf(between, session, w.schedule, task);
            && s.next in between.futures && between.futures[s.next] == Waiting(session)
            && s.next in end.futures
            && (end.futures[s.next] == Done(session, None) <==> s.sessions[session].preserved != map[])
            && (end.futures[s.next] == Waiting(session) <==> s.sessions[session].preserved == map[])
  {
    var w, session := s.tasks[task], s.tasks[task].session;
    var sch, first := s.sessions[session], ExitFirstHalf(s, session);
    assert first.sessions.Keys == if sch.preserved == map[] then s.sessions.Keys - {session} else s.sessions.Keys;
    var found := CurrentSchedule(first, session, s.next + 3);
    GapSubmit(first, config, sub, found);
    assert found.ident == w.schedule <==> sch.preserved != map[];
  }

  lemma GapSubmit(s: State, config: Config, sub: Submission, found: Schedule)
    requires !Expired(sub, config) && sub.starts && Priority(sub.observation) != 3
    requires found == CurrentSchedule(s, sub.observation.sessionId, s.next + 3)
    requires found.worker.None? && found.pending.None? && found.running.None?
    requires sub.observation.sessionId in s.sessions || |s.sessions| < config.maxSessions
    ensures var s' := AfterSubmit(s, config, sub);
            && s.next in s'.futures && s'.futures[s.next] == Waiting(sub.observation.sessionId)
            && sub.observation.sessionId in s'.sessions
            && s'.sessions[sub.observation.sessionId]
               == found.(pending := Some(NewItem(sub, s.next + 1, s.next)), worker := Some(s.next + 2))
  {
  }

  // ---------------------------------------------------------------------------------------
  // Any steps between the halves
  // ---------------------------------------------------------------------------------------

  /** The states of a gap: it starts where the first half leaves the scheduler, which as far as the
      other steps can tell is the whole exit, and runs through any steps. */
  ghost predicate IsGap(s: State, task: Id, states: seq<State>, steps: seq<Step>, config: Config, world: World) {
    && AboutToExit(s, task) && IsPath(states, steps, config, world)
    && states[0] == ExitFirstHalf(s, s.tasks[task].session).(tasks := s.tasks - {task})
  }

  lemma GapKeepsInv(s: State, task: Id, states: seq<State>, steps: seq<Step>, config: Config, world: World, i: nat)
    requires Inv(s, config, world) && IsGap(s, task, states, steps, config, world) && i < |states|
    ensures Inv(states[i], config, world)
  {
    assert states[0] == AfterWorkerTurn(s, task);
    WorkerTurnKeepsInv(s, config, task, world);
    PathKeepsInv(states, steps, config, world, i);
  }

  /** A future of the session is pending or running. */
  ghost predicate InReach(s: State, session: string, f: Id) {
    session in s.sessions && (Owns(s.sessions[session], PendingSlot, f) || Owns(s.sessions[session], RunningSlot, f))
  }

  /** After any steps in the gap, the second half resolves a waiting future to nothing if and only if
      the schedule of the worker that left is still the tracked one and has the future pending or
      running; it touches no other future, and it signs off whatever worker the schedule has by then
      without ending that worker's task. */
  lemma GapDrops(s: State, task: Id, states: seq<State>, steps: seq<Step>, config: Config, world: World, f: Id)
    requires Inv(s, config, world) && IsGap(s, task, states, steps, config, world)
    requires f in states[|steps|].futures && states[|steps|].futures[f].Waiting?
    ensures var session, ident, s' := s.tasks[task].session, s.tasks[task].schedule, states[|steps|];
            var end := ExitSecondHalf(s', session, ident, task);
            && f in end.futures
            && (end.futures[f] == Done(session, None) <==> Tracked(s', session, ident) && InReach(s', session, f))
            && (end.futures[f] == s'.futures[f] <==> !(Tracked(s', session, ident) && InReach(s', session, f)))
            && (Tracked(end, session, ident) ==> end.sessions[session].worker.None?)
            && end.tasks == s'.tasks - {task}
  {
    GapKeepsInv(s, task, states, steps, config, world, |steps|);
    SecondHalfDrops(states[|steps|], config, world, s.tasks[task].session, s.tasks[task].schedule, task, f);
  }

  lemma SecondHalfDrops(s: State, config: Config, world: World, session: string, ident: Id, task: Id, f: Id)
    requires Inv(s, config, world) && f in s.futures && s.futures[f].Waiting?
    ensures var end := ExitSecondHalf(s, session, ident, task);
            && f in end.futures
            && (Tracked(s, session, ident) && InReach(s, session, f) ==> end.futures[f] == Done(session, None))
            && (!(Tracked(s, session, ident) && InReach(s, session, f)) ==> end.futures[f] == s.futures[f])
            && (Tracked(end, session, ident) ==> end.sessions[session].worker.None?)
            && end.tasks == s.tasks - {task}
  {
    assert FutureOk(f, s);
    if Tracked(s, session, ident) && InReach(s, session, f) {
      assert ScheduleOk(session, s.sessions[session], s, world);
      assert s.futures[f] == Waiting(session);
    }
  }

  /** A schedule keeps its identity, and one opened in the step has a new one. */
  ghost predicate KeepsIdents(s: State, s': State, session: string) {
    && s.next <= s'.next
    && (session in s'.sessions ==>
          (session in s.sessions && s'.sessions[session].ident == s.sessions[session].ident) || s'.sessions[session].ident >= s.next)
  }

  lemma RankedKeepsIdents(s: State, config: Config, sub: Submission, sch: Schedule, completion: Id, session: string, from: Id)
    requires from <= s.next && (sub.observation.sessionId in s.sessions ==> sch.ident == s.sessions[sub.observation.sessionId].ident)
    requires sub.observation.sessionId !in s.sessions ==> sch.ident >= from
    ensures KeepsIdents(s.(next := from), AfterRankedSubmit(s, config, sub, sch, completion), session)
  {
  }

  lemma SubmitKeepsIdents(s: State, config: Config, sub: Submission, session: string)
    ensures KeepsIdents(s, AfterSubmit(s, config, sub), session)
  {
    var sch := CurrentSchedule(s, sub.observation.sessionId, s.next + 3);
    var marked := if Supersedes(sub.observation, sch) then MarkSuperseded(sch) else sch;
    RankedKeepsIdents(Entered(s, sub.observation), config, sub, marked, s.next, session, s.next);
  }

  lemma WorkerTurnKeepsIdents(s: State, task: Id, session: string)
    requires task in s.tasks && s.tasks[task].Worker? && s.tasks[task].phase.Top?
    ensures KeepsIdents(s, AfterWorkerTurn(s, task), session)
  {
  }

  lemma StepKeepsIdents(s: State, config: Config, step: Step, world: World, session: string)
    requires Enabled(s, step, world)
    ensures KeepsIdents(s, After(s, config, step, world), session)
  {
    match step
    case Submit(sub) => SubmitKeepsIdents(s, config, sub, session);
    case WorkerTurn(t) => WorkerTurnKeepsIdents(s, t, session);
    case _ =>
  }

  /** The schedule is not tracked, and its identity will not be drawn again. */
  ghost predicate Forgotten(s: State, session: string, ident: Id) {
    match s
    case State(_, _, _, next) => ident < next && !Tracked(s, session, ident)
  }

  /** A schedule that is no longer tracked is never tracked again. */
  lemma ForgottenStays(states: seq<State>, steps: seq<Step>, config: Config, world: World, i: nat, session: string, ident: Id)
    requires IsPath(states, steps, config, world) && i < |states| && Forgotten(states[i], session, ident)
    ensures Forgotten(states[|steps|], session, ident)
  {
    forall k: nat | k < |steps|
      ensures Forgotten(states[k], session, ident) ==> Forgotten(states[k + 1], session, ident)
    {
      StepForgets(states, steps, config, world, k, session, ident);
    }
    ForgottenChain(states, i, |steps|, session, ident);
  }

  lemma {:induction false} ForgottenChain(states: seq<State>, i: nat, j: nat, session: string, ident: Id)
    requires i <= j < |states| && Forgotten(states[i], session, ident)
    requires forall k: nat :: k < j && Forgotten(states[k], session, ident) ==> Forgotten(states[k + 1], session, ident)
    ensures Forgotten(states[j], session, ident)
  {
    if i < j {
      ForgottenChain(states, i, j - 1, session, ident);
    }
  }

  lemma {:induction false} StepForgets(states: seq<State>, steps: seq<Step>, config: Config, world: World, k: nat, session: string, ident: Id)
    requires IsPath(states, steps, config, world) && k < |steps|
    ensures Forgotten(states[k], session, ident) ==> Forgotten(states[k + 1], session, ident)
    decreases |steps|
  {
    var n := |steps| - 1;
    if k < n {
      StepForgets(states[..n + 1], steps[..n], config, world, k, session, ident);
    } else if Forgotten(states[n], session, ident) {
      FollowerForgets(states[n], states[n + 1], config, steps[n], world, session, ident);
    }
  }

  lemma FollowerForgets(s: State, s': State, config: Config, step: Step, world: World, session: string, ident: Id)
    requires Forgotten(s, session, ident) && (Enabled(s, step, world) ==> s' == After(s, config, step, world))
    ensures Enabled(s, step, world) ==> Forgotten(s', session, ident)
  {
    if Enabled(s, step, world) {
      StepKeepsIdents(s, config, step, world, session);
    }
  }

  /** So the gap is harmless, whatever happens in it, unless preserved user input keeps the schedule
      alive when the worker signs off. */
  lemma GapHarmlessWithoutPreserved(s: State, task: Id, states: seq<State>, steps: seq<Step>, config: Config, world: World)
    requires Inv(s, config, world) && IsGap(s, task, states, steps, config, world)
    requires s.sessions[s.tasks[task].session].preserved == map[]
    ensures var session, ident, s' := s.tasks[task].session, s.tasks[task].schedule, states[|steps|];
            ExitSecondHalf(s', session, ident, task) == s'.(tasks := s'.tasks - {task})
  {
    IdleAtExit(s, config, task, world);
    GapKeepsInv(s, task, states, steps, config, world, 0);
    ForgottenStays(states, steps, config, world, 0, s.tasks[task].session, s.tasks[task].schedule);
  }

  // ---------------------------------------------------------------------------------------
  // A run that loses a reaction
  // ---------------------------------------------------------------------------------------

  const CONFIG := Config(1000, 1, 1)
  const TYPED := RoomEvent("event", 1, UserText, map[])
  const WORLD: World := map["event" := TYPED]
  const USER_INPUT := Observation("session", "user", 0, [], [TYPED], ["event"], [], map[], None, None, false)
  const QUIET := Observation("session", "quiet", 0, [], [], [], [], map[], None, None, false)
  const USER_SUBMIT := Submission(USER_INPUT, 0, 0, 0, true)
  const QUIET_SUBMIT := Submission(QUIET, 0, 0, 0, true)
  const USER_ITEM := Item(1, USER_INPUT, [0], 0, 0, false)
  const QUIET_ITEM := Item(5, QUIET, [4], 0, 0, false)
  const USER_TASK := Preserving("session", 3, USER_ITEM)

  /** The scheduler while the user's input executes and the session's worker is as given. */
  function Moment(worker: Option<Id>, pending: Option<Item>, running: Option<Item>, task: Task, quiet: Future): State {
    State(map["session" := Schedule(3, worker, pending, running, map[2 := USER_ITEM])],
          map[2 := USER_TASK, 6 := task], map[0 := Waiting("session"), 4 := quiet], 8)
  }

  const USER_SUBMITTED := State(map["session" := Schedule(3, None, None, None, map[2 := USER_ITEM])], map[2 := USER_TASK],
                                map[0 := Waiting("session")], 4)
  const QUIET_SUBMITTED := Moment(Some(6), Some(QUIET_ITEM), None, Worker("session", 3, Top), Waiting("session"))
  const QUIET_RUNNING := Moment(Some(6), None, Some(QUIET_ITEM), Worker("session", 3, Executing(5, [4])), Waiting("session"))
  const QUIET_DONE := Moment(Some(6), None, None, Worker("session", 3, Top), Done("session", None))

  lemma ExamplesAreMergeable()
    ensures Mergeable(USER_INPUT, WORLD) && Priority(USER_INPUT) == 3
    ensures Mergeable(QUIET, WORLD) && Priority(QUIET) == 1
  {
    assert TYPED in USER_INPUT.roomEvents && TYPED.eventId in USER_INPUT.triggerEventIds;
    assert UserText in TriggerSources(USER_INPUT);
  }

  lemma UserSubmitted()
    ensures AfterSubmit(INITIAL, CONFIG, USER_SUBMIT) == USER_SUBMITTED
  {
    ExamplesAreMergeable();
  }

  lemma QuietSubmitted()
    ensures AfterSubmit(USER_SUBMITTED, CONFIG, QUIET_SUBMIT) == QUIET_SUBMITTED
  {
    ExamplesAreMergeable();
  }

  lemma QuietRuns()
    ensures AfterWorkerTurn(QUIET_SUBMITTED, 6) == QUIET_RUNNING
    ensures AfterWorkerFinish(QUIET_RUNNING, 6, None) == QUIET_DONE
  {
  }

  lemma PathGrows(states: seq<State>, steps: seq<Step>, step: Step, s': State)
    requires IsPath(states, steps, CONFIG, WORLD)
    requires Enabled(states[|steps|], step, WORLD) && s' == After(states[|steps|], CONFIG, step, WORLD)
    ensures IsPath(states + [s'], steps + [step], CONFIG, WORLD)
  {
    assert (states + [s'])[..|steps| + 1] == states && (steps + [step])[..|steps|] == steps;
  }

  /** Some run from the empty scheduler ends in this state. */
  ghost predicate Reachable(s: State, config: Config, world: World) {
    exists states: seq<State>, steps: seq<Step> :: IsRun(states, steps, config, world) && states[|steps|] == s
  }

  lemma ExampleBegins() returns (states: seq<State>, steps: seq<Step>)
    ensures IsPath(states, steps, CONFIG, WORLD) && states[0] == INITIAL && states[|steps|] == QUIET_SUBMITTED
  {
    ExamplesAreMergeable();
    UserSubmitted();
    QuietSubmitted();
    states, steps := [INITIAL], [];
    PathGrows(states, steps, Submit(USER_SUBMIT), USER_SUBMITTED);
    states, steps := states + [USER_SUBMITTED], steps + [Submit(USER_SUBMIT)];
    PathGrows(states, steps, Submit(QUIET_SUBMIT), QUIET_SUBMITTED);
    states, steps := states + [QUIET_SUBMITTED], steps + [Submit(QUIET_SUBMIT)];
  }

  lemma ExampleIsReachable()
    ensures Reachable(QUIET_DONE, CONFIG, WORLD)
  {
    QuietRuns();
    var states, steps := ExampleBegins();
    PathGrows(states, steps, WorkerTurn(6), QUIET_RUNNING);
    states, steps := states + [QUIET_RUNNING], steps + [WorkerTurn(6)];
    PathGrows(states, steps, WorkerFinish(6, None), QUIET_DONE);
    PathReaches(states + [QUIET_DONE], steps + [WorkerFinish(6, None)]);
  }

  lemma PathReaches(states: seq<State>, steps: seq<Step>)
    requires IsPath(states, steps, CONFIG, WORLD) && states[0] == INITIAL
    ensures Reachable(states[|steps|], CONFIG, WORLD)
  {
    assert IsRun(states, steps, CONFIG, WORLD);
  }

  lemma ReachableInv(s: State, config: Config, world: World)
    requires Reachable(s, config, world)
    ensures Inv(s, config, world)
  {
    var states: seq<State>, steps: seq<Step> :| IsRun(states, steps, config, world) && states[|steps|] == s;
    RunsKeepInv(states, steps, config, world, |steps|);
  }

  /** A reachable state in which a worker is about to exit and a submit in the gap loses its reaction:
      user input is still executing, a first observation was served, and a second one is submitted
      between the halves. */
  lemma ExitGapLosesNewcomerReachably()
    ensures Reachable(QUIET_DONE, CONFIG, WORLD) && AboutToExit(QUIET_DONE, 6)
    ensures var between := AfterSubmit(ExitFirstHalf(QUIET_DONE, "session"), CONFIG, QUIET_SUBMIT);
            var end := ExitSecondHalf(between, "session", 3, 6);
            && 8 in between.futures && between.futures[8] == Waiting("session")
            && 8 in end.futures && end.futures[8] == Done("session", None)
  {
    ExampleIsReachable();
    ReachableInv(QUIET_DONE, CONFIG, WORLD);
    ExamplesAreMergeable();
    ExitGapLosesNewcomer(QUIET_DONE, CONFIG, 6, QUIET_SUBMIT, WORLD);
  }
}
