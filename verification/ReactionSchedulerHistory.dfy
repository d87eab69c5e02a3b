/** Over whole runs: where every item comes from, what it holds, and that user input is kept until its
    execution ends. */
module ReactionSchedulerHistory {
  import opened Observations
  import opened ObservationMerging
  import opened ObservationContents
  import opened Options
  import opened ReactionScheduler
  import opened ReactionSchedulerSafety
  import opened ReactionSchedulerResults
  import opened ReactionSchedulerSubmissions

  ghost function RunningOf(s: State, session: string): Option<Item> {
    if session in s.sessions then s.sessions[session].running else None
  }

  ghost function PreservedOf(s: State, session: string, task: Id): Option<Item> {
    if session in s.sessions && task in s.sessions[session].preserved then Some(s.sessions[session].preserved[task]) else None
  }

  // ---------------------------------------------------------------------------------------
  // Where items come from
  // ---------------------------------------------------------------------------------------

  /** The step is an admitted submit to the session, of user input or not. */
  ghost predicate Admits(s: State, config: Config, step: Step, session: string, user: bool) {
    && step.Submit? && step.submission.observation.sessionId == session
    && (Priority(step.submission.observation) == 3 <==> user) && Accepted(s, config, step.submission)
  }

  lemma RankedFrame(s: State, config: Config, sub: Submission, sch: Schedule, completion: Id, session: string)
    requires session != sub.observation.sessionId
    ensures var s' := AfterRankedSubmit(s, config, sub, sch, completion);
            && (session in s'.sessions <==> session in s.sessions)
            && (session in s.sessions ==> s'.sessions[session] == s.sessions[session])
  {
  }

  /** A submit leaves the other sessions alone. */
  lemma SubmitFrame(s: State, config: Config, sub: Submission, session: string)
    requires session != sub.observation.sessionId
    ensures var s' := AfterSubmit(s, config, sub);
            && (session in s'.sessions <==> session in s.sessions)
            && (session in s.sessions ==> s'.sessions[session] == s.sessions[session])
  {
    if Priority(sub.observation) == 3 {
      UserResult(s, config, sub);
    } else {
      var sch := CurrentSchedule(s, sub.observation.sessionId, s.next + 3);
      RankedResult(s, config, sub, sch);
      RankedFrame(Entered(s, sub.observation), config, sub, if Supersedes(sub.observation, sch) then MarkSuperseded(sch) else sch, s.next, session);
    }
  }

  /** Only an admitted submit below priority 3 changes what a session has pending; otherwise it stays
      or goes. */
  lemma PendingComesFrom(s: State, config: Config, step: Step, world: World, session: string)
    requires Inv(s, config, world) && Enabled(s, step, world)
    ensures var now := PendingOf(After(s, config, step, world), session);
            now.Some? ==> now == PendingOf(s, session) || Admits(s, config, step, session, false)
  {
    match step
    case Submit(sub) => SubmitPending(s, config, sub, world, session);
    case WorkerTurn(t) => WorkerTurnItems(s, t, session);
    case WorkerFinish(t, result) => WorkerFinishItems(s, t, result, session);
    case PreservedFinish(t, result) => PreservedFinishItems(s, t, result, session, t);
    case _ =>
  }

  lemma WorkerTurnItems(s: State, t: Id, session: string)
    requires t in s.tasks && s.tasks[t].Worker? && s.tasks[t].phase.Top?
    ensures var s' := AfterWorkerTurn(s, t);
            && (PendingOf(s', session) == PendingOf(s, session) || PendingOf(s', session).None?)
            && (RunningOf(s', session) == RunningOf(s, session)
                || (RunningOf(s', session) == PendingOf(s, session) && PendingOf(s', session).None? && session == s.tasks[t].session))
            && forall task :: PreservedOf(s', session, task) == PreservedOf(s, session, task)
  {
  }

  lemma WorkerFinishItems(s: State, t: Id, result: Option<Reaction>, session: string)
    requires t in s.tasks && s.tasks[t].Worker? && s.tasks[t].phase.Executing?
    ensures var s' := AfterWorkerFinish(s, t, result);
            && PendingOf(s', session) == PendingOf(s, session)
            && (RunningOf(s', session) == RunningOf(s, session) || RunningOf(s', session).None?)
            && forall task :: PreservedOf(s', session, task) == PreservedOf(s, session, task)
  {
  }

  lemma PreservedFinishItems(s: State, t: Id, result: Option<Reaction>, session: string, task: Id)
    requires t in s.tasks && s.tasks[t].Preserving?
    ensures var s' := AfterPreservedFinish(s, t, result);
            && PendingOf(s', session) == PendingOf(s, session) && RunningOf(s', session) == RunningOf(s, session)
            && (task != t ==> PreservedOf(s', session, task) == PreservedOf(s, session, task))
            && (PreservedOf(s', session, t).Some? ==> PreservedOf(s', session, t) == PreservedOf(s, session, t))
  {
    if session in s.sessions && task != t && task in s.sessions[session].preserved {
      assert task in s.sessions[session].preserved - {t};
    }
  }

  lemma SubmitPending(s: State, config: Config, sub: Submission, world: World, session: string)
    requires Inv(s, config, world) && Mergeable(sub.observation, world)
    ensures Admits(s, config, Submit(sub), session, false) || PendingOf(AfterSubmit(s, config, sub), session) == PendingOf(s, session)
  {
    if session != sub.observation.sessionId {
      SubmitFrame(s, config, sub, session);
    } else if !Accepted(s, config, sub) {
      SubmitWaitsIff(s, config, sub, world);
    } else if Priority(sub.observation) == 3 {
      UserSubmitStoresOwn(s, config, sub);
      UserResult(s, config, sub);
    }
  }

  /** What a session runs was running before, perhaps now superseded, or is what it had pending, taken
      by a worker. */
  lemma RunningComesFrom(s: State, config: Config, step: Step, world: World, session: string)
    requires Inv(s, config, world) && Enabled(s, step, world)
    ensures var now, before := RunningOf(After(s, config, step, world), session), RunningOf(s, session);
            now.Some? ==>
              || (before.Some? && now.value == before.value.(superseded := now.value.superseded)
                  && (now.value.superseded != before.value.superseded ==> Admits(s, config, step, session, false)))
              || (step.WorkerTurn? && now == PendingOf(s, session) && PendingOf(After(s, config, step, world), session).None?)
  {
    match step
    case Submit(sub) => SubmitRunning(s, config, sub, world, session);
    case WorkerTurn(t) => WorkerTurnItems(s, t, session);
    case WorkerFinish(t, result) => WorkerFinishItems(s, t, result, session);
    case PreservedFinish(t, result) => PreservedFinishItems(s, t, result, session, t);
    case _ =>
  }

  lemma SubmitRunning(s: State, config: Config, sub: Submission, world: World, session: string)
    requires Inv(s, config, world) && Mergeable(sub.observation, world)
    ensures var now, before := RunningOf(AfterSubmit(s, config, sub), session), RunningOf(s, session);
            && (now.Some? <==> before.Some?)
            && (now.Some? ==> now.value == before.value.(superseded := now.value.superseded))
            && (now == before || Admits(s, config, Submit(sub), session, false))
  {
    if session != sub.observation.sessionId {
      SubmitFrame(s, config, sub, session);
    } else if !Accepted(s, config, sub) {
      SubmitWaitsIff(s, config, sub, world);
    } else if Priority(sub.observation) == 3 {
      UserSubmitStoresOwn(s, config, sub);
      UserResult(s, config, sub);
    } else {
      RankedSubmitRunning(s, config, sub);
    }
  }

  lemma RankedSubmitRunning(s: State, config: Config, sub: Submission)
    requires Priority(sub.observation) != 3
    ensures var session := sub.observation.sessionId;
            var now, before := RunningOf(AfterSubmit(s, config, sub), session), RunningOf(s, session);
            && (now.Some? <==> before.Some?)
            && (now.Some? ==> now.value == before.value.(superseded := now.value.superseded))
  {
    var sch := CurrentSchedule(s, sub.observation.sessionId, s.next + 3);
    RankedResult(s, config, sub, sch);
  }

  /** Preserved user input was preserved before, or is what a submit has just brought. */
  lemma PreservedComesFrom(s: State, config: Config, step: Step, world: World, session: string, task: Id)
    requires Inv(s, config, world) && Enabled(s, step, world)
    ensures var now := PreservedOf(After(s, config, step, world), session, task);
            now.Some? ==>
              || now == PreservedOf(s, session, task)
              || (Admits(s, config, step, session, true) && task == s.next + 2 && Opens(now.value, step.submission, s.next))
  {
    match step
    case Submit(sub) => SubmitPreserved(s, config, sub, world, session, task);
    case WorkerTurn(t) => WorkerTurnItems(s, t, session);
    case WorkerFinish(t, result) => WorkerFinishItems(s, t, result, session);
    case PreservedFinish(t, result) => PreservedFinishItems(s, t, result, session, task);
    case _ =>
  }

  lemma SubmitPreserved(s: State, config: Config, sub: Submission, world: World, session: string, task: Id)
    requires Inv(s, config, world) && Mergeable(sub.observation, world)
    ensures var now := PreservedOf(AfterSubmit(s, config, sub), session, task);
            || now == PreservedOf(s, session, task)
            || (now.Some? && Admits(s, config, Submit(sub), session, true) && task == s.next + 2 && Opens(now.value, sub, s.next))
  {
    if session != sub.observation.sessionId {
      SubmitFrame(s, config, sub, session);
    } else if !Accepted(s, config, sub) {
      SubmitWaitsIff(s, config, sub, world);
    } else if Priority(sub.observation) == 3 {
      UserSubmitStoresOwn(s, config, sub);
      UserResult(s, config, sub);
    } else {
      RankedSubmitPreserved(s, config, sub, task);
    }
  }

  lemma RankedSubmitPreserved(s: State, config: Config, sub: Submission, task: Id)
    requires Priority(sub.observation) != 3
    ensures PreservedOf(AfterSubmit(s, config, sub), sub.observation.sessionId, task) == PreservedOf(s, sub.observation.sessionId, task)
  {
    var sch := CurrentSchedule(s, sub.observation.sessionId, s.next + 3);
    RankedResult(s, config, sub, sch);
  }

  /** A worker at the top of its loop that finds something pending runs it next, for all its callers;
      finding nothing it signs off and ends, and its session is forgotten unless user input is still
      preserved. */
  lemma WorkerTakes(s: State, config: Config, t: Id, world: World)
    requires Inv(s, config, world) && t in s.tasks && s.tasks[t].Worker? && s.tasks[t].phase.Top? && Scheduled(s, s.tasks[t])
    ensures var session, s' := s.tasks[t].session, AfterWorkerTurn(s, t);
            match PendingOf(s, session)
            case Some(item) =>
              && session in s'.sessions && RunningOf(s', session) == Some(item) && PendingOf(s', session) == None
              && t in s'.tasks && s'.tasks[t] == Worker(session, s.tasks[t].schedule, Executing(item.id, item.completions))
              && s'.sessions[session].worker == Some(t)
            case None =>
              && t !in s'.tasks
              && (session in s'.sessions <==> s.sessions[session].preserved != map[])
              && (session in s'.sessions ==> s'.sessions[session] == s.sessions[session].(worker := None))
    ensures AfterWorkerTurn(s, t).futures == s.futures
  {
    var w := s.tasks[t];
    assert TaskOk(t, s) && ScheduleOk(w.session, s.sessions[w.session], s, world);
  }

  // ---------------------------------------------------------------------------------------
  // User input is kept until its execution ends
  // ---------------------------------------------------------------------------------------

  /** The session's schedule of this identity keeps the item for the task. */
  ghost predicate Keeps(s: State, session: string, ident: Id, task: Id, item: Item) {
    match item
    case Item(_, _, _, _, _, _) => session in s.sessions && s.sessions[session].ident == ident && PreservedOf(s, session, task) == Some(item)
  }

  /** The step neither cancels the session nor ends the task's execution. */
  predicate Spares(step: Step, session: string, task: Id) {
    !(step.CancelSession? && step.session == session) && !(step.PreservedFinish? && step.task == task)
  }

  lemma StepKeeps(s: State, config: Config, step: Step, world: World, session: string, ident: Id, task: Id, item: Item)
    requires Inv(s, config, world) && Enabled(s, step, world) && Keeps(s, session, ident, task, item) && Spares(step, session, task)
    ensures Keeps(After(s, config, step, world), session, ident, task, item)
  {
    match step
    case Submit(sub) => SubmitKeeps(s, config, sub, world, session, ident, task, item);
    case WorkerTurn(t) => WorkerTurnKeeps(s, t, session, ident, task, item);
    case WorkerFinish(t, result) => WorkerFinishKeeps(s, t, result, session, ident, task, item);
    case PreservedFinish(t, result) => OtherFinishKeeps(s, t, result, session, ident, task, item);
    case CancelSession(_) =>
    case Abandon(_) =>
  }

  lemma WorkerTurnKeeps(s: State, t: Id, session: string, ident: Id, task: Id, item: Item)
    requires t in s.tasks && s.tasks[t].Worker? && s.tasks[t].phase.Top? && Keeps(s, session, ident, task, item)
    ensures Keeps(AfterWorkerTurn(s, t), session, ident, task, item)
  {
  }

  lemma WorkerFinishKeeps(s: State, t: Id, result: Option<Reaction>, session: string, ident: Id, task: Id, item: Item)
    requires t in s.tasks && s.tasks[t].Worker? && s.tasks[t].phase.Executing? && Keeps(s, session, ident, task, item)
    ensures Keeps(AfterWorkerFinish(s, t, result), session, ident, task, item)
  {
  }

  lemma OtherFinishKeeps(s: State, t: Id, result: Option<Reaction>, session: string, ident: Id, task: Id, item: Item)
    requires t in s.tasks && s.tasks[t].Preserving? && t != task && Keeps(s, session, ident, task, item)
    ensures Keeps(AfterPreservedFinish(s, t, result), session, ident, task, item)
  {
    assert task in s.sessions[session].preserved - {t};
  }

  lemma SubmitKeeps(s: State, config: Config, sub: Submission, world: World, session: string, ident: Id, task: Id, item: Item)
    requires Inv(s, config, world) && Mergeable(sub.observation, world) && Keeps(s, session, ident, task, item)
    ensures Keeps(AfterSubmit(s, config, sub), session, ident, task, item)
  {
    TaskIsOld(s, config, world, session, task);
    SubmitKeepsOld(s, config, sub, session, ident, task, item);
  }

  lemma TaskIsOld(s: State, config: Config, world: World, session: string, task: Id)
    requires Inv(s, config, world) && PreservedOf(s, session, task).Some?
    ensures task < s.next
  {
    FreshIds(s, config, world);
  }

  lemma SubmitKeepsOld(s: State, config: Config, sub: Submission, session: string, ident: Id, task: Id, item: Item)
    requires task < s.next && Keeps(s, session, ident, task, item)
    ensures Keeps(AfterSubmit(s, config, sub), session, ident, task, item)
  {
    if session != sub.observation.sessionId {
      SubmitFrame(s, config, sub, session);
    } else if Priority(sub.observation) == 3 {
      UserResult(s, config, sub);
    } else {
      RankedResult(s, config, sub, CurrentSchedule(s, session, s.next + 3));
    }
  }

  /** As StepKeeps, for a state known only to follow if the step is enabled. */
  lemma FollowerKeeps(s: State, s': State, config: Config, step: Step, world: World, session: string, ident: Id, task: Id, item: Item)
    requires Inv(s, config, world) && (Enabled(s, step, world) ==> s' == After(s, config, step, world)) && Spares(step, session, task)
    ensures Enabled(s, step, world) && Keeps(s, session, ident, task, item) ==> Keeps(s', session, ident, task, item)
  {
    if Enabled(s, step, world) && Keeps(s, session, ident, task, item) {
      StepKeeps(s, config, step, world, session, ident, task, item);
    }
  }

  lemma LastKeeps(states: seq<State>, steps: seq<Step>, config: Config, world: World, session: string, ident: Id, task: Id, item: Item)
    requires IsPath(states, steps, config, world) && steps != [] && Inv(states[|steps| - 1], config, world)
    requires Spares(steps[|steps| - 1], session, task)
    ensures Keeps(states[|steps| - 1], session, ident, task, item) ==> Keeps(states[|steps|], session, ident, task, item)
  {
    var n := |steps| - 1;
    FollowerKeeps(states[n], states[n + 1], config, steps[n], world, session, ident, task, item);
  }

  lemma {:induction false} KeepsChain(states: seq<State>, i: nat, j: nat, session: string, ident: Id, task: Id, item: Item)
    requires i <= j < |states| && Keeps(states[i], session, ident, task, item)
    requires forall k: nat :: i <= k < j && Keeps(states[k], session, ident, task, item) ==> Keeps(states[k + 1], session, ident, task, item)
    ensures Keeps(states[j], session, ident, task, item)
  {
    if i < j {
      KeepsChain(states, i, j - 1, session, ident, task, item);
    }
  }

  lemma PathKeeps(states: seq<State>, steps: seq<Step>, config: Config, world: World, i: nat,
                  session: string, ident: Id, task: Id, item: Item)
    requires IsRun(states, steps, config, world) && i < |states| && Keeps(states[i], session, ident, task, item)
    requires forall k :: i <= k < |steps| ==> Spares(steps[k], session, task)
    ensures Keeps(states[|steps|], session, ident, task, item)
  {
    forall k: nat | i <= k < |steps|
      ensures Keeps(states[k], session, ident, task, item) ==> Keeps(states[k + 1], session, ident, task, item)
    {
      RunsKeepInv(states, steps, config, world, k);
      PathPrefix(states, steps, config, world, k + 1);
      LastKeeps(states[..k + 2], steps[..k + 1], config, world, session, ident, task, item);
    }
    KeepsChain(states, i, |steps|, session, ident, task, item);
  }

  /** The last step of a path, if it is a submit. */
  lemma LastSubmit(states: seq<State>, steps: seq<Step>, config: Config, world: World)
    requires IsPath(states, steps, config, world) && steps != [] && steps[|steps| - 1].Submit?
    ensures Mergeable(steps[|steps| - 1].submission.observation, world)
    ensures states[|steps|] == AfterSubmit(states[|steps| - 1], config, steps[|steps| - 1].submission)
  {
  }

  lemma SubmitAt(states: seq<State>, steps: seq<Step>, config: Config, world: World, i: nat)
    requires IsPath(states, steps, config, world) && i < |steps| && steps[i].Submit?
    ensures Mergeable(steps[i].submission.observation, world) && states[i + 1] == AfterSubmit(states[i], config, steps[i].submission)
  {
    PathPrefix(states, steps, config, world, i + 1);
    LastSubmit(states[..i + 2], steps[..i + 1], config, world);
  }

  lemma KeptRuns(s: State, config: Config, world: World, session: string, ident: Id, task: Id, item: Item)
    requires Inv(s, config, world) && Keeps(s, session, ident, task, item)
    ensures task in s.tasks && s.tasks[task] == Preserving(session, ident, item)
    ensures forall f :: f in item.completions ==> f in s.futures && s.futures[f] == Waiting(session)
  {
    assert ScheduleOk(session, s.sessions[session], s, world);
    PreservedRuns(s, config, task, world);
  }

  /** Over every run: the future of admitted user input waits, whatever else is submitted, superseded
      or finished, until its session is cancelled or its own execution ends; and then that execution's
      result reaches it. */
  lemma UserInputDelivers(states: seq<State>, steps: seq<Step>, config: Config, world: World, i: nat, result: Option<Reaction>)
    requires IsRun(states, steps, config, world) && i < |steps| && steps[i].Submit?
    requires Accepted(states[i], config, steps[i].submission) && Priority(steps[i].submission.observation) == 3
    requires forall k :: i < k < |steps| ==> Spares(steps[k], steps[i].submission.observation.sessionId, states[i].next + 2)
    ensures var session, future, task, s := steps[i].submission.observation.sessionId, states[i].next, states[i].next + 2, states[|steps|];
            && future in s.futures && s.futures[future] == Waiting(session)
            && task in s.tasks && s.tasks[task].Preserving?
            && future in AfterPreservedFinish(s, task, result).futures
            && AfterPreservedFinish(s, task, result).futures[future] == Done(session, result)
  {
    var sub, task := steps[i].submission, states[i].next + 2;
    var session := sub.observation.sessionId;
    SubmitAt(states, steps, config, world, i);
    UserSubmitStoresOwn(states[i], config, sub);
    var ident, item := states[i + 1].sessions[session].ident, states[i + 1].sessions[session].preserved[task];
    PathKeeps(states, steps, config, world, i + 1, session, ident, task, item);
    RunsKeepInv(states, steps, config, world, |steps|);
    KeptDelivers(states[|steps|], config, world, session, ident, task, item, result);
  }

  lemma KeptDelivers(s: State, config: Config, world: World, session: string, ident: Id, task: Id, item: Item, result: Option<Reaction>)
    requires Inv(s, config, world) && Keeps(s, session, ident, task, item)
    ensures task in s.tasks && s.tasks[task].Preserving?
    ensures forall f :: f in item.completions ==>
      && f in s.futures && s.futures[f] == Waiting(session)
      && f in AfterPreservedFinish(s, task, result).futures && AfterPreservedFinish(s, task, result).futures[f] == Done(session, result)
  {
    KeptRuns(s, config, world, session, ident, task, item);
    PreservedDelivers(s, config, task, result, world);
  }

  // ---------------------------------------------------------------------------------------
  // What a pending item has gathered
  // ---------------------------------------------------------------------------------------

  /** What the step adds to the session's admitted observations below priority 3. */
  ghost function Added(s: State, config: Config, step: Step, session: string): seq<Observation> {
    if Admits(s, config, step, session, false) then [step.submission.observation] else []
  }

  /** The observations of the session's admitted submits below priority 3 after step i and before
      state n, in order. */
  ghost function Newcomers(states: seq<State>, steps: seq<Step>, config: Config, i: nat, n: nat, session: string): seq<Observation>
    requires |states| == |steps| + 1 && n <= |steps|
  {
    if n <= i + 1 then []
    else Newcomers(states, steps, config, i, n - 1, session) + Added(states[n - 1], config, steps[n - 1], session)
  }

  /** Step i opened the item that the session has pending ever since. */
  ghost predicate PendingSince(states: seq<State>, steps: seq<Step>, config: Config, i: nat, session: string)
    requires |states| == |steps| + 1
  {
    && i < |steps| && Admits(states[i], config, steps[i], session, false)
    && !(PendingOf(states[i], session).Some? && TakesIn(PendingOf(states[i], session).value, steps[i].submission))
    && forall k :: i < k <= |steps| ==> PendingOf(states[k], session).Some? && PendingOf(states[k], session).value.id == states[i].next + 1
  }

  /** Between two states with the same item pending, it is unchanged, or an admitted newcomer was
      merged into it. */
  lemma PendingGathers(s: State, config: Config, step: Step, world: World, session: string)
    requires Inv(s, config, world) && Enabled(s, step, world)
    requires PendingOf(s, session).Some? && PendingOf(After(s, config, step, world), session).Some?
    requires PendingOf(After(s, config, step, world), session).value.id == PendingOf(s, session).value.id
    ensures var before, now := PendingOf(s, session).value.observation, PendingOf(After(s, config, step, world), session).value.observation;
            if Admits(s, config, step, session, false)
            then before.sessionId == session == step.submission.observation.sessionId && now == Merge(before, step.submission.observation)
            else now == before
  {
    if Admits(s, config, step, session, false) {
      PendingId(s, config, world, session);
      RankedSubmitStores(s, config, step.submission, world);
      FoundPending(s, config, step.submission, world);
      RankedResult(s, config, step.submission, CurrentSchedule(s, session, s.next + 3));
    } else {
      PendingComesFrom(s, config, step, world, session);
    }
  }

  lemma PendingId(s: State, config: Config, world: World, session: string)
    requires Inv(s, config, world) && PendingOf(s, session).Some?
    ensures PendingOf(s, session).value.id < s.next
  {
    assert ScheduleOk(session, s.sessions[session], s, world);
    assert At(s.sessions[session], PendingSlot) == s.sessions[session].pending;
  }

  /** The pending item held before and holds now, after these observations were added. */
  ghost predicate Gathers(before: Observation, now: Observation, added: seq<Observation>, session: string, world: World) {
    if added == [] then now == before
    else
      && added == [added[0]] && before.sessionId == session == added[0].sessionId && Mergeable(added[0], world)
      && now == Merge(before, added[0])
  }

  lemma FollowerGathers(s: State, s': State, config: Config, step: Step, world: World, session: string)
    requires Inv(s, config, world) && (Enabled(s, step, world) ==> s' == After(s, config, step, world))
    requires PendingOf(s, session).Some? && PendingOf(s', session).Some? && PendingOf(s', session).value.id == PendingOf(s, session).value.id
    ensures Enabled(s, step, world) ==>
              Gathers(PendingOf(s, session).value.observation, PendingOf(s', session).value.observation, Added(s, config, step, session), session, world)
  {
    if Enabled(s, step, world) {
      PendingGathers(s, config, step, world, session);
    }
  }

  lemma LastGathers(states: seq<State>, steps: seq<Step>, config: Config, world: World, session: string)
    requires IsPath(states, steps, config, world) && steps != [] && Inv(states[|steps| - 1], config, world)
    requires PendingOf(states[|steps| - 1], session).Some? && PendingOf(states[|steps|], session).Some?
    requires PendingOf(states[|steps|], session).value.id == PendingOf(states[|steps| - 1], session).value.id
    ensures Gathers(PendingOf(states[|steps| - 1], session).value.observation, PendingOf(states[|steps|], session).value.observation,
                    Added(states[|steps| - 1], config, steps[|steps| - 1], session), session, world)
  {
    var n := |steps| - 1;
    FollowerGathers(states[n], states[n + 1], config, steps[n], world, session);
  }

  /** The observation is the left-to-right merge of these. */
  ghost predicate IsMergeOf(o: Observation, os: seq<Observation>, session: string, world: World) {
    os != [] && OneRoom(os, session, world) && o == MergeRun(os, session, world)
  }

  lemma MergeRunMore(held: Observation, now: Observation, os: seq<Observation>, added: seq<Observation>, session: string, world: World)
    requires IsMergeOf(held, os, session, world) && Gathers(held, now, added, session, world)
    ensures IsMergeOf(now, os + added, session, world)
  {
    if added == [] {
      assert os + added == os;
    } else {
      assert (os + added)[..|os + added| - 1] == os;
      assert forall x :: x in os + added ==> x in os || x == added[0];
    }
  }

  /** What every step from i on adds to the pending item. */
  ghost predicate GathersAt(states: seq<State>, steps: seq<Step>, config: Config, world: World, k: nat, session: string)
    requires |states| == |steps| + 1 && k < |steps|
  {
    && PendingOf(states[k], session).Some? && PendingOf(states[k + 1], session).Some?
    && Gathers(PendingOf(states[k], session).value.observation, PendingOf(states[k + 1], session).value.observation,
               Added(states[k], config, steps[k], session), session, world)
  }

  /** In state n the session's pending item is the merge of first and the newcomers since step i. */
  ghost predicate MergedAt(states: seq<State>, steps: seq<Step>, config: Config, world: World, i: nat, n: nat, session: string, first: Observation)
    requires |states| == |steps| + 1 && n <= |steps|
  {
    match PendingOf(states[n], session)
    case None => false
    case Some(item) => IsMergeOf(item.observation, [first] + Newcomers(states, steps, config, i, n, session), session, world)
  }

  lemma GatherStep(states: seq<State>, steps: seq<Step>, config: Config, world: World, i: nat, k: nat, session: string, first: Observation)
    requires |states| == |steps| + 1 && i < k < |steps| && GathersAt(states, steps, config, world, k, session)
    requires MergedAt(states, steps, config, world, i, k, session, first)
    ensures MergedAt(states, steps, config, world, i, k + 1, session, first)
  {
    MergeRunMore(PendingOf(states[k], session).value.observation, PendingOf(states[k + 1], session).value.observation,
                 [first] + Newcomers(states, steps, config, i, k, session), Added(states[k], config, steps[k], session), session, world);
    NewcomersMore(states, steps, config, i, k, session, first);
  }

  lemma NewcomersMore(states: seq<State>, steps: seq<Step>, config: Config, i: nat, k: nat, session: string, first: Observation)
    requires |states| == |steps| + 1 && i < k < |steps|
    ensures [first] + Newcomers(states, steps, config, i, k + 1, session)
         == [first] + Newcomers(states, steps, config, i, k, session) + Added(states[k], config, steps[k], session)
  {
  }

  lemma {:induction false} GatherChain(states: seq<State>, steps: seq<Step>, config: Config, world: World, i: nat, n: nat, session: string,
                                       first: Observation)
    requires |states| == |steps| + 1 && i < n <= |steps| && MergedAt(states, steps, config, world, i, i + 1, session, first)
    requires forall k: nat :: i < k < n && MergedAt(states, steps, config, world, i, k, session, first) ==>
                                MergedAt(states, steps, config, world, i, k + 1, session, first)
    ensures MergedAt(states, steps, config, world, i, n, session, first)
  {
    if n > i + 1 {
      GatherChain(states, steps, config, world, i, n - 1, session, first);
    }
  }

  lemma RunGathersAt(states: seq<State>, steps: seq<Step>, config: Config, world: World, i: nat, k: nat, session: string)
    requires IsRun(states, steps, config, world) && PendingSince(states, steps, config, i, session) && i < k < |steps|
    ensures GathersAt(states, steps, config, world, k, session)
  {
    RunsKeepInv(states, steps, config, world, k);
    PathPrefix(states, steps, config, world, k + 1);
    LastGathers(states[..k + 2], steps[..k + 1], config, world, session);
  }

  lemma RunOpens(states: seq<State>, steps: seq<Step>, config: Config, world: World, i: nat, session: string)
    requires IsRun(states, steps, config, world) && PendingSince(states, steps, config, i, session)
    ensures MergedAt(states, steps, config, world, i, i + 1, session, steps[i].submission.observation)
  {
    RunsKeepInv(states, steps, config, world, i);
    SubmitAt(states, steps, config, world, i);
    RankedSubmitStores(states[i], config, steps[i].submission, world);
    OneIsMerge(steps[i].submission.observation, session, world);
  }

  lemma OneIsMerge(o: Observation, session: string, world: World)
    requires o.sessionId == session && Mergeable(o, world)
    ensures IsMergeOf(o, [o] + [], session, world)
  {
    assert [o] + [] == [o];
  }

  /** Over every run: a pending item holds exactly the left-to-right merge of the observation it was
      opened with and those of the admitted submits since. */
  lemma PendingIsMerge(states: seq<State>, steps: seq<Step>, config: Config, world: World, i: nat, session: string)
    requires IsRun(states, steps, config, world) && PendingSince(states, steps, config, i, session)
    ensures MergedAt(states, steps, config, world, i, |steps|, session, steps[i].submission.observation)
  {
    var first := steps[i].submission.observation;
    RunOpens(states, steps, config, world, i, session);
    forall k: nat | i < k < |steps| && MergedAt(states, steps, config, world, i, k, session, first)
      ensures MergedAt(states, steps, config, world, i, k + 1, session, first)
    {
      RunGathersAt(states, steps, config, world, i, k, session);
      GatherStep(states, steps, config, world, i, k, session, first);
    }
    GatherChain(states, steps, config, world, i, |steps|, session, first);
  }
}
