/** What the scheduler promises its callers, over every reachable state and every run. */
module ReactionSchedulerResults {
  import opened Observations
  import opened ObservationMerging
  import opened Options
  import opened ReactionScheduler
  import opened ReactionSchedulerSafety

  // ---------------------------------------------------------------------------------------
  // Futures are conserved
  // ---------------------------------------------------------------------------------------

  /** A future waits iff an item of its session's schedule owns it, and then exactly one does. */
  lemma WaitingIffOwnedOnce(s: State, config: Config, world: World, f: Id)
    requires Inv(s, config, world) && f in s.futures
    ensures s.futures[f].Waiting? <==> exists x, slot :: x in s.sessions && Owns(s.sessions[x], slot, f)
    ensures forall x, y, a, b :: x in s.sessions && y in s.sessions && Owns(s.sessions[x], a, f) && Owns(s.sessions[y], b, f)
                                 ==> x == y == s.futures[f].session && a == b
  {
    FreshIds(s, config, world);
    assert FutureOk(f, s);
    forall x, y, a, b | x in s.sessions && y in s.sessions && Owns(s.sessions[x], a, f) && Owns(s.sessions[y], b, f)
      ensures x == y == s.futures[f].session && a == b
    {
      assert s.futures[f] == Waiting(x) && s.futures[f] == Waiting(y);
      assert ScheduleOk(x, s.sessions[x], s, world);
    }
  }

  /** No step forgets a future or resolves it a second time. */
  lemma StepResolvesOnce(s: State, config: Config, step: Step, world: World, f: Id)
    requires Inv(s, config, world) && Enabled(s, step, world) && f in s.futures
    ensures f in After(s, config, step, world).futures
    ensures s.futures[f].Done? ==> After(s, config, step, world).futures[f] == s.futures[f]
  {
    if step.Submit? {
      assert FutureOk(f, s);
      SubmitFutures(s, config, step.submission, f);
    }
  }

  /** f is kept, possibly resolved to nothing. */
  ghost predicate KeptOrDropped(before: State, after: State, f: Id) {
    f in before.futures ==>
      && f in after.futures
      && (after.futures[f] == before.futures[f]
          || (before.futures[f].Waiting? && after.futures[f] == Done(before.futures[f].session, None)))
  }

  lemma RankedFutures(s: State, config: Config, sub: Submission, sch: Schedule, completion: Id, f: Id)
    ensures KeptOrDropped(s, AfterRankedSubmit(s, config, sub, sch, completion), f)
  {
  }

  /** A submit can only resolve futures, and only to nothing. */
  lemma SubmitFutures(s: State, config: Config, sub: Submission, f: Id)
    requires f in s.futures && f != s.next
    ensures KeptOrDropped(s, AfterSubmit(s, config, sub), f)
  {
    var o := sub.observation;
    var entered := Entered(s, o);
    assert KeptOrDropped(s, entered, f) && KeptOrDropped(entered, Rejected(entered, s.next), f);
    var sch := CurrentSchedule(s, o.sessionId, s.next + 3);
    RankedFutures(entered, config, sub, if Supersedes(o, sch) then MarkSuperseded(sch) else sch, s.next, f);
  }

  /** Over a whole run a result, once set, never changes. */
  lemma {:induction false} RunResolvesOnce(states: seq<State>, steps: seq<Step>, config: Config, world: World, i: nat, j: nat, f: Id)
    requires IsRun(states, steps, config, world) && i <= j < |states|
    requires f in states[i].futures
    ensures f in states[j].futures
    ensures states[i].futures[f].Done? ==> states[j].futures[f] == states[i].futures[f]
    decreases |steps|
  {
    var n := |steps| - 1;
    if i < j <= n {
      RunResolvesOnce(states[..n + 1], steps[..n], config, world, i, j, f);
    } else if i < j {
      RunResolvesOnce(states[..n + 1], steps[..n], config, world, i, n, f);
      LastStepResolvesOnce(states, steps, config, world, f);
    }
  }

  lemma LastStepResolvesOnce(states: seq<State>, steps: seq<Step>, config: Config, world: World, f: Id)
    requires IsRun(states, steps, config, world) && steps != [] && f in states[|steps| - 1].futures
    ensures f in states[|steps|].futures
    ensures states[|steps| - 1].futures[f].Done? ==> states[|steps|].futures[f] == states[|steps| - 1].futures[f]
  {
    var n := |steps| - 1;
    RunsKeepInv(states, steps, config, world, n);
    FollowsResolvesOnce(states[n], states[n + 1], config, steps[n], world, f);
  }

  lemma FollowsResolvesOnce(s: State, s': State, config: Config, step: Step, world: World, f: Id)
    requires Inv(s, config, world) && f in s.futures
    requires Enabled(s, step, world) ==> s' == After(s, config, step, world)
    ensures Enabled(s, step, world) ==> f in s'.futures && (s.futures[f].Done? ==> s'.futures[f] == s.futures[f])
  {
    if Enabled(s, step, world) {
      StepResolvesOnce(s, config, step, world, f);
    }
  }

  /** Steps that finish no execution resolve futures to nothing only. */
  lemma OtherStepsDrop(s: State, config: Config, step: Step, world: World, f: Id)
    requires Inv(s, config, world) && Enabled(s, step, world) && f in s.futures
    requires !step.WorkerFinish? && !step.PreservedFinish?
    ensures KeptOrDropped(s, After(s, config, step, world), f)
  {
    if step.Submit? {
      assert FutureOk(f, s);
      SubmitFutures(s, config, step.submission, f);
    } else if step.CancelSession? {
      CancelResolves(s, config, step.session, world, f);
    }
  }

  /** The execution that ends in this step delivers r to f: its item is current, not superseded
      and owns f. */
  ghost predicate Delivers(s: State, step: Step, f: Id, r: Reaction) {
    match step
    case WorkerFinish(t, result) =>
      && result == Some(r) && t in s.tasks && s.tasks[t].Worker? && s.tasks[t].phase.Executing?
      && Scheduled(s, s.tasks[t]) && s.sessions[s.tasks[t].session].running.Some?
      && var item := s.sessions[s.tasks[t].session].running.value;
         item.id == s.tasks[t].phase.item && !item.superseded && f in item.completions
    case PreservedFinish(t, result) =>
      && result == Some(r) && t in s.tasks && s.tasks[t].Preserving?
      && Scheduled(s, s.tasks[t]) && t in s.sessions[s.tasks[t].session].preserved
      && f in s.sessions[s.tasks[t].session].preserved[t].completions
    case _ => false
  }

  /** The session still has the schedule that the task was started for. */
  ghost predicate Scheduled(s: State, task: Task) {
    task.session in s.sessions && s.sessions[task.session].ident == task.schedule
  }

  /** A result other than nothing comes from an item that is still current and not superseded. */
  lemma ResultOnlyFromCurrent(s: State, config: Config, step: Step, world: World, f: Id, r: Reaction)
    requires Inv(s, config, world) && Enabled(s, step, world) && f in s.futures
    requires s.futures[f].Waiting? && f in After(s, config, step, world).futures
    requires After(s, config, step, world).futures[f] == Done(s.futures[f].session, Some(r))
    ensures Delivers(s, step, f, r)
  {
    if step.WorkerFinish? {
      FinishResult(s, config, step.task, step.result, world, f, r);
    } else if step.PreservedFinish? {
      PreservedResult(s, config, step.task, step.result, world, f, r);
    } else {
      OtherStepsDrop(s, config, step, world, f);
    }
  }

  lemma FinishResult(s: State, config: Config, t: Id, result: Option<Reaction>, world: World, f: Id, r: Reaction)
    requires Inv(s, config, world) && f in s.futures && s.futures[f].Waiting?
    requires t in s.tasks && s.tasks[t].Worker? && s.tasks[t].phase.Executing?
    requires AfterWorkerFinish(s, t, result).futures[f] == Done(s.futures[f].session, Some(r))
    ensures result == Some(r) && StillCurrent(s, s.tasks[t])
    ensures f in s.sessions[s.tasks[t].session].running.value.completions
  {
    WorkerRuns(s, config, t, world);
  }

  lemma PreservedResult(s: State, config: Config, t: Id, result: Option<Reaction>, world: World, f: Id, r: Reaction)
    requires Inv(s, config, world) && f in s.futures && s.futures[f].Waiting?
    requires t in s.tasks && s.tasks[t].Preserving?
    requires AfterPreservedFinish(s, t, result).futures[f] == Done(s.futures[f].session, Some(r))
    ensures result == Some(r) && StillPreserved(s, t)
    ensures f in s.sessions[s.tasks[t].session].preserved[t].completions
  {
    PreservedRuns(s, config, t, world);
  }

  /** Conversely, when the execution of a worker whose schedule is still the session's ends, every
      caller of the running item gets its result, or nothing if the item was superseded; once the
      schedule is gone, its callers already have nothing more to come. */
  lemma CurrentDelivers(s: State, config: Config, t: Id, result: Option<Reaction>, world: World)
    requires Inv(s, config, world) && t in s.tasks && s.tasks[t].Worker? && s.tasks[t].phase.Executing?
    ensures var w, s' := s.tasks[t], AfterWorkerFinish(s, t, result);
            if Scheduled(s, w) then
              && s.sessions[w.session].running.Some?
              && var item := s.sessions[w.session].running.value;
                 && item.completions == w.phase.completions
                 && forall f :: f in item.completions ==>
                      f in s'.futures && s'.futures[f] == Done(w.session, if item.superseded then None else result)
            else forall f :: f in w.phase.completions ==> f in s.futures && s.futures[f].Done? && f in s'.futures && s'.futures[f] == s.futures[f]
  {
    WorkerRuns(s, config, t, world);
  }

  /** The same for preserved user input, which nothing supersedes: whenever its schedule is still the
      session's, its callers get its result, whatever else the session runs or has pending. */
  lemma PreservedDelivers(s: State, config: Config, t: Id, result: Option<Reaction>, world: World)
    requires Inv(s, config, world) && t in s.tasks && s.tasks[t].Preserving?
    ensures var task, s' := s.tasks[t], AfterPreservedFinish(s, t, result);
            if Scheduled(s, task) then
              && t in s.sessions[task.session].preserved && s.sessions[task.session].preserved[t] == task.item
              && forall f :: f in task.item.completions ==> f in s'.futures && s'.futures[f] == Done(task.session, result)
            else forall f :: f in task.item.completions ==> f in s.futures && s.futures[f].Done? && f in s'.futures && s'.futures[f] == s.futures[f]
  {
    PreservedRuns(s, config, t, world);
  }

  /** Cancelling a session leaves none of its futures waiting, and touches no other session. */
  lemma CancelResolves(s: State, config: Config, session: string, world: World, f: Id)
    requires Inv(s, config, world) && f in s.futures
    ensures var s' := AfterCancel(s, session);
            && f in s'.futures && session !in s'.sessions
            && (s.futures[f].session == session ==> s'.futures[f].Done?)
            && (s.futures[f] == Waiting(session) ==> s'.futures[f] == Done(session, None))
            && (s.futures[f].session != session ==> s'.futures[f] == s.futures[f])
  {
    assert FutureOk(f, s);
    if session in s.sessions {
      CancelledFutures(s, config, session, world);
    }
  }

  /** Once no task is left, no session is tracked and no future is waiting. */
  lemma DrainedResolves(s: State, config: Config, world: World)
    requires Inv(s, config, world) && s.tasks == map[]
    ensures s.sessions == map[]
    ensures forall f :: f in s.futures ==> s.futures[f].Done?
  {
    forall x
      ensures x !in s.sessions
    {
      assert x in s.sessions ==> ScheduleOk(x, s.sessions[x], s, world);
    }
    forall f | f in s.futures
      ensures s.futures[f].Done?
    {
      assert FutureOk(f, s);
    }
  }

  // ---------------------------------------------------------------------------------------
  // The order
  // ---------------------------------------------------------------------------------------

  ghost predicate Admitted(s: State, config: Config, sub: Submission) {
    !Expired(sub, config) && sub.observation.sessionId in s.sessions
  }

  /** In every reachable state a pending item ranks no higher than a running one in force. */
  lemma PendingRanksBelowRunning(s: State, config: Config, world: World, session: string)
    requires Inv(s, config, world) && session in s.sessions
    ensures var sch := s.sessions[session];
            sch.running.Some? && !sch.running.value.superseded && sch.pending.Some?
            ==> Rank(sch.pending.value.observation) <= Rank(sch.running.value.observation)
  {
    assert ScheduleOk(session, s.sessions[session], s, world);
  }

  /** Ranks of running and pending items: screen-only 0, other priority 1, other priority 2. */
  lemma RanksAreTotal(o: Observation)
    ensures Priority(o) != 3 ==> (Rank(o) == 0 <==> IsScreenOnly(o)) && (Rank(o) == 1 <==> !IsScreenOnly(o) && Priority(o) == 1)
                                 && (Rank(o) == 2 <==> !IsScreenOnly(o) && Priority(o) == 2)
    ensures Priority(o) == 3 ==> Rank(o) == 3 && !IsScreenOnly(o)
  {
    if Priority(o) == 3 {
      assert UserText in TriggerSources(o) - {ScreenObservation} || UserVoice in TriggerSources(o) - {ScreenObservation};
    }
  }

  /** A newcomer that joins the pending item has its ambient flag, and so has the merge: the pending
      item is never of priority 3, at which alone a merge could change it. */
  lemma JoinsKeepAmbient(s: State, config: Config, sub: Submission, world: World)
    requires Inv(s, config, world) && sub.observation.sessionId in s.sessions
    requires Joins(sub, s.sessions[sub.observation.sessionId])
    ensures var o, p := sub.observation, s.sessions[sub.observation.sessionId].pending.value.observation;
            && p.sessionId == o.sessionId && Priority(p) != 3 && CanMergePending(p, o)
            && IsAmbient(Merge(p, o)) == IsAmbient(p) == IsAmbient(o)
  {
    var o, sch := sub.observation, s.sessions[sub.observation.sessionId];
    assert ScheduleOk(o.sessionId, sch, s, world);
    assert At(sch, PendingSlot) == sch.pending;
    assert ItemOk(sch.pending.value, PendingSlot, o.sessionId, s, world);
    JoinsMerge(sch.pending.value.observation, o);
  }

  lemma JoinsMerge(p: Observation, o: Observation)
    requires p.sessionId == o.sessionId && Priority(p) != 3
    requires Rank(p) == Rank(o) && IsAmbient(p) == IsAmbient(o)
    ensures CanMergePending(p, o) && IsAmbient(Merge(p, o)) == IsAmbient(p)
  {
    RanksAreTotal(p);
    RanksAreTotal(o);
    assert CanMergePending(p, o);
    MergeAmbient(p, o);
  }

  /** Exactly when a running reaction is superseded and a newcomer below priority 3 is dropped. */
  lemma SubmitOutcome(s: State, config: Config, sub: Submission, world: World)
    requires Inv(s, config, world) && Mergeable(sub.observation, world)
    requires Admitted(s, config, sub) && Priority(sub.observation) != 3
    requires s.sessions[sub.observation.sessionId].worker.Some?
    ensures var o := sub.observation;
            var sch, s' := s.sessions[o.sessionId], AfterSubmit(s, config, sub);
            && o.sessionId in s'.sessions
            && s.next in s'.futures
            && var sch' := s'.sessions[o.sessionId];
               && (s'.futures[s.next].Done? <==>
                     || (sch.pending.Some? && Rank(o) < Rank(sch.pending.value.observation))
                     || (sch.running.Some? && !IsAmbient(o) && Rank(o) < Rank(sch.running.value.observation)))
               && (s'.futures[s.next].Waiting? <==> Owns(sch', PendingSlot, s.next))
               && (sch.running.Some? ==>
                     && sch'.running.Some?
                     && (sch'.running.value.superseded <==>
                           sch.running.value.superseded || Rank(o) > Rank(sch.running.value.observation)))
  {
    var o := sub.observation;
    if Drops(o, s.sessions[o.sessionId]) {
      SubmitDropped(s, config, sub);
      PendingRanksBelowRunning(s, config, world, o.sessionId);
      NotOwnedYet(s, config, world, o.sessionId);
    } else {
      SubmitQueued(s, config, sub, world);
    }
  }

  lemma SubmitDropped(s: State, config: Config, sub: Submission)
    requires Admitted(s, config, sub) && Priority(sub.observation) != 3
    requires Drops(sub.observation, s.sessions[sub.observation.sessionId])
    ensures var s' := AfterSubmit(s, config, sub);
            s'.sessions == s.sessions && s.next in s'.futures && s'.futures[s.next].Done?
  {
  }

  lemma SubmitQueued(s: State, config: Config, sub: Submission, world: World)
    requires Inv(s, config, world) && Mergeable(sub.observation, world)
    requires Admitted(s, config, sub) && Priority(sub.observation) != 3
    requires s.sessions[sub.observation.sessionId].worker.Some? && !Drops(sub.observation, s.sessions[sub.observation.sessionId])
    ensures var o := sub.observation;
            var sch, s' := s.sessions[o.sessionId], AfterSubmit(s, config, sub);
            var marked := if Supersedes(o, sch) then MarkSuperseded(sch) else sch;
            && o.sessionId in s'.sessions && s.next in s'.futures
            && s'.futures[s.next] == Waiting(o.sessionId) && Owns(s'.sessions[o.sessionId], PendingSlot, s.next)
            && s'.sessions[o.sessionId] == marked.(pending := s'.sessions[o.sessionId].pending)
  {
    var o := sub.observation;
    var sch, s' := s.sessions[o.sessionId], AfterSubmit(s, config, sub);
    var marked := if Supersedes(o, sch) then MarkSuperseded(sch) else sch;
    FreshIds(s, config, world);
    SubmitKeepsInv(s, config, sub, world);
    RankedStores(Entered(s, o), config, sub, marked, s.next);
    assert Owns(s'.sessions[o.sessionId], PendingSlot, s.next);
    assert s'.futures[s.next] == Waiting(o.sessionId) by {
      FreshIds(s', config, world);
    }
  }

  lemma NotOwnedYet(s: State, config: Config, world: World, session: string)
    requires Inv(s, config, world) && session in s.sessions
    ensures forall slot :: !Owns(s.sessions[session], slot, s.next)
  {
    FreshIds(s, config, world);
  }

  /** A ranked submit that finds a worker leaves the newcomer's future in the pending item. */
  lemma RankedStores(s: State, config: Config, sub: Submission, sch: Schedule, completion: Id)
    requires sch.worker.Some?
    ensures var s' := AfterRankedSubmit(s, config, sub, sch, completion);
            && sub.observation.sessionId in s'.sessions
            && var sch' := s'.sessions[sub.observation.sessionId];
               sch'.pending.Some? && completion in sch'.pending.value.completions
               && sch' == sch.(pending := sch'.pending)
  {
  }

  /** No submit newly supersedes a running reaction and drops the newcomer as well. */
  lemma NeverSupersedesAndDrops(s: State, config: Config, sub: Submission, world: World)
    requires Inv(s, config, world) && Mergeable(sub.observation, world)
    requires Admitted(s, config, sub) && Priority(sub.observation) != 3
    requires s.sessions[sub.observation.sessionId].running.Some?
    requires !s.sessions[sub.observation.sessionId].running.value.superseded
    requires sub.observation.sessionId in AfterSubmit(s, config, sub).sessions
    requires var sch' := AfterSubmit(s, config, sub).sessions[sub.observation.sessionId]; sch'.running.Some? && sch'.running.value.superseded
    ensures s.next in AfterSubmit(s, config, sub).futures && AfterSubmit(s, config, sub).futures[s.next].Waiting?
  {
    assert ScheduleOk(sub.observation.sessionId, s.sessions[sub.observation.sessionId], s, world);
    PendingRanksBelowRunning(s, config, world, sub.observation.sessionId);
    SubmitOutcome(s, config, sub, world);
  }

  /** User input bypasses the order, and no submit displaces it or what is already running. */
  lemma OnlyPendingIsDisplaced(s: State, config: Config, sub: Submission, world: World, session: string, slot: Slot)
    requires Inv(s, config, world) && Mergeable(sub.observation, world)
    requires session in s.sessions && slot != PendingSlot && At(s.sessions[session], slot).Some?
    ensures var s' := AfterSubmit(s, config, sub);
            && session in s'.sessions
            && At(s'.sessions[session], slot).Some?
            && At(s'.sessions[session], slot).value.completions == At(s.sessions[session], slot).value.completions
            && (slot.PreservedSlot? ==> At(s'.sessions[session], slot) == At(s.sessions[session], slot))
            && (forall f :: f in At(s.sessions[session], slot).value.completions ==> f in s'.futures && s'.futures[f] == Waiting(session))
  {
    var s' := AfterSubmit(s, config, sub);
    FreshIds(s, config, world);
    var sch := s.sessions[session];
    forall t | t in sch.preserved
      ensures t != s.next + 2
    {
    }
    SubmitKeepsInv(s, config, sub, world);
    SubmitKeepsSlot(s, config, sub, session, slot);
    FreshIds(s', config, world);
    forall f | f in At(sch, slot).value.completions
      ensures f in s'.futures && s'.futures[f] == Waiting(session)
    {
      assert Owns(s'.sessions[session], slot, f);
    }
  }

  /** The slot of the session keeps its item's callers, a preserved one its whole item. */
  ghost predicate SlotKept(s: State, s': State, session: string, slot: Slot)
    requires session in s.sessions
  {
    match At(s.sessions[session], slot)
    case None => true
    case Some(item) =>
      && session in s'.sessions && At(s'.sessions[session], slot).Some?
      && At(s'.sessions[session], slot).value.completions == item.completions
      && (slot.PreservedSlot? ==> At(s'.sessions[session], slot) == Some(item))
  }

  lemma UserSubmitKeepsSlot(s: State, sub: Submission, sch: Schedule, completion: Id, session: string, slot: Slot)
    requires session in s.sessions && slot != PendingSlot && slot != PreservedSlot(completion + 2)
    requires sub.observation.sessionId == session ==> sch == s.sessions[session]
    ensures SlotKept(s, AfterUserSubmit(s, sub, sch, completion), session, slot)
  {
  }

  lemma RankedSubmitKeepsSlot(s: State, config: Config, sub: Submission, sch: Schedule, completion: Id, session: string, slot: Slot)
    requires session in s.sessions && slot != PendingSlot
    requires sub.observation.sessionId == session ==>
               sch == s.sessions[session] || (s.sessions[session].running.Some? && sch == MarkSuperseded(s.sessions[session]))
    ensures SlotKept(s, AfterRankedSubmit(s, config, sub, sch, completion), session, slot)
  {
  }

  lemma SubmitKeepsSlot(s: State, config: Config, sub: Submission, session: string, slot: Slot)
    requires session in s.sessions && slot != PendingSlot && At(s.sessions[session], slot).Some?
    requires slot != PreservedSlot(s.next + 2)
    ensures SlotKept(s, AfterSubmit(s, config, sub), session, slot)
  {
    var o := sub.observation;
    var sch, entered := CurrentSchedule(s, o.sessionId, s.next + 3), Entered(s, o);
    UserSubmitKeepsSlot(entered, sub, sch, s.next, session, slot);
    RankedSubmitKeepsSlot(entered, config, sub, if Supersedes(o, sch) then MarkSuperseded(sch) else sch, s.next, session, slot);
  }
}
