/** The scheduler as the mutable object it is, each method one critical section of the code.

    The bodies follow the branches of the code; their contracts are the steps of the transition
    system, whose submit is stated with the single rank order.
  */
module ReactionSchedulerClass {
  import opened Lexicographic
  import opened Observations
  import opened ObservationMerging
  import opened Options
  import opened ReactionScheduler
  import opened ReactionSchedulerSafety
  import opened ReactionSchedulerResults

  /** Collect the targets named by two observations, as the code does, in a loop over the events. */
  method CollectTargets(first: Observation, latest: Observation) returns (m: MergedTarget)
    ensures m == MergeTargets(first, latest)
  {
    if first.targetAmbiguous || latest.targetAmbiguous {
      return MergedTarget(None, None, true);
    }
    var targets := DirectTargets(first) + DirectTargets(latest);
    var fromFirst := EventLoop(first);
    var fromLatest := EventLoop(latest);
    targets := targets + fromFirst + fromLatest;
    assert targets == AllTargets(first) + AllTargets(latest);
    if |targets| != 1 {
      return MergedTarget(None, None, |targets| > 1);
    }
    m := TheOnly(targets);
  }

  method EventLoop(o: Observation) returns (targets: set<Target>)
    ensures targets == TriggerTargets(o)
  {
    targets := {};
    if o.triggerEventIds == [] {
      return;
    }
    for i := 0 to |o.roomEvents|
      invariant forall t :: t in targets <==> exists e :: e in o.roomEvents[..i] && e.eventId in o.triggerEventIds && t in EventTargets(e)
    {
      var e := o.roomEvents[i];
      assert o.roomEvents[..i + 1] == o.roomEvents[..i] + [e];
      if e.eventId in o.triggerEventIds {
        targets := targets + EventTargets(e);
      }
    }
    assert o.roomEvents[..|o.roomEvents|] == o.roomEvents;
  }

  /** What the invariant says about the schedule a submit meets. */
  ghost predicate Met(sch: Schedule, known: map<Id, Future>) {
    && (sch.running.Some? ==> Priority(sch.running.value.observation) != 3)
    && (sch.pending.Some? ==> Priority(sch.pending.value.observation) != 3)
    && (sch.worker.None? ==> sch.pending.None? && sch.running.None?)
    && RankOk(sch)
    && (sch.pending.Some? ==> forall f :: f in sch.pending.value.completions ==> f in known)
  }

  lemma SubmitFinds(s: State, session: string, config: Config, world: World)
    requires Inv(s, config, world) && session in s.sessions
    ensures Met(s.sessions[session], s.futures)
    ensures s.sessions[session].pending.Some? ==> s.sessions[session].pending.value.observation.sessionId == session
    ensures !Idle(s.sessions[session])
  {
    var sch := s.sessions[session];
    assert ScheduleOk(session, sch, s, world);
    assert At(sch, PendingSlot) == sch.pending && At(sch, RunningSlot) == sch.running;
    assert sch.pending.Some? ==> ItemOk(sch.pending.value, PendingSlot, session, s, world);
    assert sch.running.Some? ==> ItemOk(sch.running.value, RunningSlot, session, s, world);
  }

  lemma StoreAgain(sessions: map<string, Schedule>, session: string, sch: Schedule)
    ensures session in sessions && sessions[session] == sch && !Idle(sch) ==> Keep(sessions, session, sch) == sessions
    ensures session !in sessions && Idle(sch) ==> Keep(sessions[session := sch], session, sch) == sessions
    ensures session in sessions && sessions[session] == sch ==> sessions[session := sch] == sessions
    ensures forall x: Schedule :: Put(sessions[session := sch], session, x) == Put(sessions, session, x)
  {
  }

  function Put(sessions: map<string, Schedule>, session: string, sch: Schedule): map<string, Schedule> {
    sessions[session := sch]
  }

  /** The step of a submit that passed the expiry and capacity checks, from the state in which
      its session has a schedule. */
  lemma AfterSubmitFound(s: State, config: Config, sub: Submission, found: map<string, Schedule>)
    requires !Expired(sub, config)
    requires var o := sub.observation;
             && (o.sessionId in s.sessions || |s.sessions| < config.maxSessions)
             && (o.sessionId in s.sessions ==> !Idle(s.sessions[o.sessionId]))
             && found == s.sessions[o.sessionId := CurrentSchedule(s, o.sessionId, s.next + 3)]
    ensures var o := sub.observation;
            var sch := CurrentSchedule(s, o.sessionId, s.next + 3);
            var marked := if Supersedes(o, sch) then MarkSuperseded(sch) else sch;
            var entered := Entered(s, o).(sessions := found);
            AfterSubmit(s, config, sub) ==
              if Priority(o) == 3 then
                if sub.starts then AfterUserSubmit(entered, sub, sch, s.next)
                else Rejected(entered, s.next).(sessions := Keep(found, o.sessionId, sch))
              else if Drops(o, sch) then Rejected(entered, s.next)
              else if sch.worker.None? && !sub.starts && !Joins(sub, marked)
              then Rejected(entered, s.next).(sessions := Keep(found, o.sessionId, sch))
              else AfterRankedSubmit(entered, config, sub, marked, s.next)
  {
    var o := sub.observation;
    var sch := CurrentSchedule(s, o.sessionId, s.next + 3);
    var marked := if Supersedes(o, sch) then MarkSuperseded(sch) else sch;
    StoreAgain(s.sessions, o.sessionId, sch);
    if Priority(o) == 3 {
      assert Put(found, o.sessionId, sch.(preserved := sch.preserved[s.next + 2 := NewItem(sub, s.next + 1, s.next)]))
        == Put(s.sessions, o.sessionId, sch.(preserved := sch.preserved[s.next + 2 := NewItem(sub, s.next + 1, s.next)]));
    } else if !Drops(o, sch) {
      if Joins(sub, marked) || marked.worker.Some? || sub.starts {
        RankedFromFound(Entered(s, o), config, sub, marked, s.next, found);
      }
    }
  }

  lemma RankedFromFound(s: State, config: Config, sub: Submission, sch: Schedule, completion: Id, found: map<string, Schedule>)
    requires forall x: Schedule :: Put(found, sub.observation.sessionId, x) == Put(s.sessions, sub.observation.sessionId, x)
    requires Joins(sub, sch) || sch.worker.Some? || sub.starts
    ensures AfterRankedSubmit(s.(sessions := found), config, sub, sch, completion) == AfterRankedSubmit(s, config, sub, sch, completion)
  {
    var session := sub.observation.sessionId;
    var after := AfterRankedSubmit(s, config, sub, sch, completion);
    assert after.sessions == Put(s.sessions, session, after.sessions[session]);
    var after' := AfterRankedSubmit(s.(sessions := found), config, sub, sch, completion);
    assert after'.sessions == Put(found, session, after'.sessions[session]);
  }

  /** f belongs to an item whose task is not in rest. */
  predicate HeldByOne(items: map<Id, Item>, rest: set<Id>, f: Id) {
    exists t :: t in items && t !in rest && f in items[t].completions
  }

  class LatestWinsReactionScheduler {
    const config: Config
    var sessions: map<string, Schedule>
    var tasks: map<Id, Task>
    var futures: map<Id, Future>
    var next: Id

    ghost function View(): State
      reads this
    {
      State(sessions, tasks, futures, next)
    }

    ghost predicate Valid(world: World)
      reads this
    {
      Inv(View(), config, world)
    }

    constructor (config: Config)
      ensures this.config == config && View() == INITIAL
      ensures forall world :: Valid(world)
    {
      this.config := config;
      sessions, tasks, futures, next := map[], map[], map[], 0;
    }

    method Resolve(completion: Id, value: Option<Reaction>)
      requires completion in futures
      modifies this`futures
      ensures futures == ResolveAll(old(futures), [completion], value)
    {
      if futures[completion].Waiting? {
        futures := futures[completion := Done(futures[completion].session, value)];
      }
    }

    method ResolveEach(completions: seq<Id>, value: Option<Reaction>)
      requires forall f :: f in completions ==> f in futures
      modifies this`futures
      ensures futures == ResolveAll(old(futures), completions, value)
    {
      for i := 0 to |completions|
        invariant futures == ResolveAll(old(futures), completions[..i], value)
      {
        Resolve(completions[i], value);
        assert completions[..i + 1] == completions[..i] + [completions[i]];
      }
      assert completions[..|completions|] == completions;
    }

    method RemoveIfIdle(session: string)
      requires session in sessions
      modifies this`sessions
      ensures sessions == Keep(old(sessions), session, old(sessions)[session])
    {
      if Idle(sessions[session]) {
        sessions := sessions - {session};
      }
      assert old(sessions)[session := old(sessions)[session]] == old(sessions);
    }

    /** The branch for user text and voice. */
    method SubmitUser(sub: Submission, completion: Id)
      requires sub.observation.sessionId in sessions
      requires completion in futures
      modifies this`sessions, this`tasks, this`futures
      ensures var session := sub.observation.sessionId;
              var sch := old(sessions)[session];
              View() == if sub.starts then AfterUserSubmit(old(View()), sub, sch, completion)
                        else Rejected(old(View()), completion).(sessions := Keep(old(sessions), session, sch))
    {
      var session, task := sub.observation.sessionId, completion + 2;
      var scheduled := NewItem(sub, completion + 1, completion);
      var sch := sessions[session];
      if !sub.starts {
        Resolve(completion, None);
        RemoveIfIdle(session);
      } else {
        tasks := tasks[task := Preserving(session, sch.ident, scheduled)];
        sessions := sessions[session := sch.(preserved := sch.preserved[task := scheduled])];
      }
    }

    /** The decisions the code takes against the running item, by its priority and screen tests. */
    method AgainstRunning(o: Observation, sch: Schedule) returns (reject: bool, queueBehindRunning: bool)
      requires Met(sch, futures) && Priority(o) != 3
      ensures reject <==> sch.running.Some? && !IsAmbient(o) && Rank(o) < Rank(sch.running.value.observation)
      ensures !reject ==> (sch.running.Some? && !queueBehindRunning <==> Supersedes(o, sch))
    {
      reject, queueBehindRunning := false, false;
      if sch.running.None? {
        return;
      }
      var running := sch.running.value.observation;
      RanksAreTotal(o);
      RanksAreTotal(running);
      var priority, runningPriority := Priority(o), Priority(running);
      var runningYields := ScreenTriggerYieldsTo(running, o);
      if ScreenTriggerYieldsTo(o, running) {
        reject := true;
      } else if !runningYields && priority < runningPriority {
        var pendingPriority := if sch.pending.None? then None else Some(Priority(sch.pending.value.observation));
        if IsAmbient(o) || (pendingPriority.Some? && priority > pendingPriority.value) {
          queueBehindRunning := true;
        } else {
          reject := true;
        }
      } else if !runningYields && priority == runningPriority && priority < 3 {
        queueBehindRunning := true;
      }
    }

    /** The decisions against the pending item: reject the newcomer, merge it, or displace pending. */
    method AgainstPending(sub: Submission, sch: Schedule) returns (reject: bool, merge: bool)
      requires Met(sch, futures) && Priority(sub.observation) != 3
      ensures reject <==> sch.pending.Some? && Rank(sub.observation) < Rank(sch.pending.value.observation)
      ensures merge <==> Joins(sub, sch)
    {
      reject, merge := false, false;
      if sch.pending.None? {
        return;
      }
      var o, pending := sub.observation, sch.pending.value;
      RanksAreTotal(o);
      RanksAreTotal(pending.observation);
      EqualRankMerges(pending.observation, o);
      var priority, pendingPriority := Priority(o), Priority(pending.observation);
      if ScreenTriggerYieldsTo(o, pending.observation) {
        reject := true;
      } else if ScreenTriggerYieldsTo(pending.observation, o) {
      } else if priority < pendingPriority {
        reject := true;
      } else if priority > pendingPriority {
      } else if pending.mergeWindowMs != 0 && WithinMergeWindow(sub, pending) && CanMergePending(pending.observation, o) {
        merge := true;
      }
    }

    static predicate WithinMergeWindow(sub: Submission, pending: Item) {
      && sub.nowMs < pending.mergeDeadlineMs
      && sub.observation.createdAtMs < pending.observation.createdAtMs + pending.mergeWindowMs
    }

    /** The branch for observations below priority 3. */
    method SubmitRanked(sub: Submission, completion: Id)
      requires sub.observation.sessionId in sessions && Priority(sub.observation) != 3
      requires Met(sessions[sub.observation.sessionId], futures) && completion in futures
      requires sessions[sub.observation.sessionId].pending.Some?
               ==> sessions[sub.observation.sessionId].pending.value.observation.sessionId == sub.observation.sessionId
      modifies this`sessions, this`tasks, this`futures
      ensures var o := sub.observation;
              var sch := old(sessions)[o.sessionId];
              var marked := if Supersedes(o, sch) then MarkSuperseded(sch) else sch;
              View() == if Drops(o, sch) then Rejected(old(View()), completion)
                        else if sch.worker.None? && !sub.starts
                        then Rejected(old(View()), completion).(sessions := Keep(old(sessions), o.sessionId, sch))
                        else AfterRankedSubmit(old(View()), config, sub, marked, completion)
    {
      var o, session := sub.observation, sub.observation.sessionId;
      var sch := sessions[session];
      var rejected, queueBehindRunning := AgainstRunning(o, sch);
      if rejected {
        Resolve(completion, None);
        return;
      }
      if sch.running.Some? && !queueBehindRunning {
        sch := sch.(running := Some(sch.running.value.(superseded := true)));
        sessions := sessions[session := sch];
      }
      assert sch.worker.None? ==> sch.pending.None?;
      var outranked, merge := AgainstPending(sub, sch);
      if outranked {
        Resolve(completion, None);
        assert old(sessions)[session := old(sessions)[session]] == old(sessions);
        return;
      }
      if merge {
        MergeIntoPending(sub, session, completion);
        return;
      }
      DisplacePending(sch);
      StorePending(sub, session, sch, completion);
    }

    method DisplacePending(sch: Schedule)
      requires sch.pending.Some? ==> forall f :: f in sch.pending.value.completions ==> f in futures
      modifies this`futures
      ensures futures == if sch.pending.Some? then ResolveAll(old(futures), sch.pending.value.completions, None) else old(futures)
      ensures futures.Keys == old(futures).Keys
    {
      if sch.pending.Some? {
        ResolveEach(sch.pending.value.completions, None);
      }
    }

    method MergeIntoPending(sub: Submission, session: string, completion: Id)
      requires session == sub.observation.sessionId && session in sessions && sessions[session].pending.Some?
      requires sessions[session].pending.value.observation.sessionId == session
      requires forall f :: f in sessions[session].pending.value.completions ==> f in futures
      modifies this`sessions, this`futures
      ensures var sch := old(sessions)[session];
              && sessions == old(sessions)[session := sch.(pending := Some(Joined(sub, sch.pending.value, config, completion)))]
              && futures == ResolveAll(old(futures), Displaced(sch.pending.value, config), None)
    {
      var sch := sessions[session];
      var pending := sch.pending.value;
      var completions := DropOldest(pending);
      var merged := MergeInLoop(pending.observation, sub.observation);
      sessions := sessions[session := sch.(pending := Some(pending.(observation := merged, completions := completions + [completion])))];
    }

    method DropOldest(pending: Item) returns (completions: seq<Id>)
      requires forall f :: f in pending.completions ==> f in futures
      modifies this`futures
      ensures completions == pending.completions[|Displaced(pending, config)|..]
      ensures futures == ResolveAll(old(futures), Displaced(pending, config), None)
    {
      completions := pending.completions;
      if |completions| >= config.maxPending && completions != [] {
        Resolve(completions[0], None);
        completions := completions[1..];
      }
    }

    static method MergeInLoop(first: Observation, latest: Observation) returns (m: Observation)
      requires first.sessionId == latest.sessionId
      ensures m == Merge(first, latest)
    {
      var t := CollectTargets(first, latest);
      m := Observation(
        first.sessionId, latest.observationId,
        if first.createdAtMs <= latest.createdAtMs then first.createdAtMs else latest.createdAtMs,
        Canonical(first.frames + latest.frames, FrameId, FrameKey),
        Canonical(first.roomEvents + latest.roomEvents, EventId, EventKey),
        Dedupe(first.triggerEventIds + latest.triggerEventIds),
        Dedupe(first.triggerFrameIds + latest.triggerFrameIds),
        first.userContext + latest.userContext,
        t.viewer, t.persona, t.ambiguous);
    }

    /** The newcomer becomes pending; without a worker one is started, or the newcomer is given up. */
    method StorePending(sub: Submission, session: string, sch: Schedule, completion: Id)
      requires session == sub.observation.sessionId && session in sessions && sessions[session] == sch
      requires completion in futures && (sch.worker.None? ==> sch.pending.None?)
      modifies this`sessions, this`tasks, this`futures
      ensures var item, task := NewItem(sub, completion + 1, completion), completion + 2;
              if sch.worker.Some? then
                sessions == old(sessions)[session := sch.(pending := Some(item))] && tasks == old(tasks) && futures == old(futures)
              else if sub.starts then
                && sessions == old(sessions)[session := sch.(pending := Some(item), worker := Some(task))]
                && tasks == old(tasks)[task := Worker(session, sch.ident, Top)] && futures == old(futures)
              else
                && sessions == Keep(old(sessions), session, sch) && tasks == old(tasks)
                && futures == ResolveAll(old(futures), [completion], None)
    {
      var scheduled, task := NewItem(sub, completion + 1, completion), completion + 2;
      sessions := sessions[session := sch.(pending := Some(scheduled))];
      if sch.worker.None? {
        if sub.starts {
          tasks := tasks[task := Worker(session, sch.ident, Top)];
          sessions := sessions[session := sessions[session].(worker := Some(task))];
        } else {
          sessions := sessions[session := sessions[session].(pending := None)];
          Resolve(completion, None);
          assert sessions == old(sessions);
          RemoveIfIdle(session);
        }
      }
    }

    /** `submit` once its future exists; what it needs of the schedule follows from the invariant. */
    method SubmitLocked(sub: Submission) returns (completion: Id)
      requires sub.observation.sessionId in sessions ==>
        && Met(sessions[sub.observation.sessionId], futures)
        && (sessions[sub.observation.sessionId].pending.Some?
            ==> sessions[sub.observation.sessionId].pending.value.observation.sessionId == sub.observation.sessionId)
        && !Idle(sessions[sub.observation.sessionId])
      modifies this
      ensures completion == old(next)
      ensures View() == AfterSubmit(old(View()), config, sub)
    {
      var o := sub.observation;
      completion := next;
      futures, next := futures[completion := Waiting(o.sessionId)], next + 4;
      if sub.checkedAtMs >= o.createdAtMs + config.ttlMs {
        Resolve(completion, None);
        return;
      }
      if o.sessionId !in sessions {
        if |sessions| >= config.maxSessions {
          Resolve(completion, None);
          return;
        }
        sessions := sessions[o.sessionId := Schedule(completion + 3, None, None, None, map[])];
      }
      AfterSubmitFound(old(View()), config, sub, sessions);
      if Priority(o) == 3 {
        SubmitUser(sub, completion);
      } else {
        SubmitRanked(sub, completion);
      }
    }

    /** `submit` */
    method Submit(sub: Submission, ghost world: World) returns (completion: Id)
      requires Valid(world) && Mergeable(sub.observation, world)
      modifies this
      ensures completion == old(next)
      ensures View() == AfterSubmit(old(View()), config, sub)
      ensures Valid(world)
    {
      SubmitKeepsInv(View(), config, sub, world);
      if sub.observation.sessionId in sessions {
        SubmitFinds(View(), sub.observation.sessionId, config, world);
      }
      completion := SubmitLocked(sub);
    }

    /** `cancel_session` up to the end of its critical section. */
    method CancelSession(session: string, ghost world: World)
      requires Valid(world)
      modifies this
      ensures View() == AfterCancel(old(View()), session)
      ensures Valid(world)
    {
      CancelKeepsInv(View(), config, session, world);
      if session in sessions {
        HeldAreKnown(View(), session, config, world);
        CancelLocked(session);
      }
    }

    method CancelLocked(session: string)
      requires session in sessions && forall f: Id :: Holds(sessions[session], f) ==> f in futures
      modifies this`sessions, this`futures
      ensures View() == AfterCancel(old(View()), session)
    {
      ResolveSchedule(sessions[session]);
      sessions := sessions - {session};
    }

    /** Resolve everything a schedule owns to nothing. */
    method ResolveSchedule(sch: Schedule)
      requires forall f: Id :: Holds(sch, f) ==> f in futures
      modifies this`futures
      ensures futures == map f | f in old(futures) ::
        if old(futures)[f].Waiting? && Holds(sch, f) then Done(old(futures)[f].session, None) else old(futures)[f]
    {
      if sch.pending.Some? {
        ResolveEach(sch.pending.value.completions, None);
      }
      if sch.running.Some? {
        ResolveEach(sch.running.value.completions, None);
      }
      ResolveItems(sch.preserved);
      assert forall f :: HeldByOne(sch.preserved, {}, f) <==> exists t :: t in sch.preserved && f in sch.preserved[t].completions;
    }

    /** Resolve the futures of every preserved item to nothing. */
    method ResolveItems(items: map<Id, Item>)
      requires forall t, f: Id :: t in items && f in items[t].completions ==> f in futures
      modifies this`futures
      ensures futures == map f | f in old(futures) ::
        if old(futures)[f].Waiting? && HeldByOne(items, {}, f) then Done(old(futures)[f].session, None) else old(futures)[f]
    {
      var rest := items.Keys;
      while rest != {}
        invariant rest <= items.Keys && futures.Keys == old(futures).Keys
        invariant forall f :: f in futures ==>
          futures[f] == if old(futures)[f].Waiting? && HeldByOne(items, rest, f) then Done(old(futures)[f].session, None) else old(futures)[f]
        decreases rest
      {
        var t :| t in rest;
        ResolveEach(items[t].completions, None);
        rest := rest - {t};
      }
    }

    /** One turn of the worker loop: take the pending item, or leave. */
    method WorkerTurn(task: Id, ghost world: World)
      requires Valid(world)
      requires task in tasks && tasks[task].Worker? && tasks[task].phase.Top?
      modifies this
      ensures View() == AfterWorkerTurn(old(View()), task)
      ensures Valid(world)
    {
      WorkerTurnKeepsInv(View(), config, task, world);
      TurnLocked(task);
    }

    method TurnLocked(task: Id)
      requires task in tasks && tasks[task].Worker? && tasks[task].phase.Top?
      modifies this`sessions, this`tasks
      ensures View() == AfterWorkerTurn(old(View()), task)
    {
      var w := tasks[task];
      if w.session in sessions && sessions[w.session].ident == w.schedule {
        var sch := sessions[w.session];
        var scheduled := sch.pending;
        if scheduled.None? {
          Store(w.session, sch.(worker := None));
          tasks := tasks - {task};
        } else {
          sessions := sessions[w.session := sch.(pending := None, running := scheduled)];
          tasks := tasks[task := w.(phase := Executing(scheduled.value.id, scheduled.value.completions))];
        }
      } else {
        tasks := tasks - {task};
      }
    }

    /** Update the stored schedule and drop it when it became idle. */
    method Store(session: string, sch: Schedule)
      requires session in sessions
      modifies this`sessions
      ensures sessions == Keep(old(sessions), session, sch)
    {
      sessions := sessions[session := sch];
      assert sessions - {session} == old(sessions) - {session};
      RemoveIfIdle(session);
    }

    /** The worker's execution ended, with a result or without one. */
    method WorkerFinish(task: Id, result: Option<Reaction>, ghost world: World)
      requires Valid(world)
      requires task in tasks && tasks[task].Worker? && tasks[task].phase.Executing?
      modifies this
      ensures View() == AfterWorkerFinish(old(View()), task, result)
      ensures Valid(world)
    {
      WorkerFinishKeepsInv(View(), config, task, result, world);
      CarriedFutures(View(), config, task, world);
      FinishLocked(task, result);
    }

    method FinishLocked(task: Id, result: Option<Reaction>)
      requires task in tasks && tasks[task].Worker? && tasks[task].phase.Executing?
      requires forall f :: f in tasks[task].phase.completions ==> f in futures
      modifies this`sessions, this`tasks, this`futures
      ensures View() == AfterWorkerFinish(old(View()), task, result)
    {
      var w := tasks[task];
      var tracked := w.session in sessions && sessions[w.session].ident == w.schedule;
      var stillCurrent := false;
      if tracked {
        var running := sessions[w.session].running;
        stillCurrent := running.Some? && running.value.id == w.phase.item && !running.value.superseded;
        sessions := sessions[w.session := sessions[w.session].(running := None)];
      }
      ResolveEach(w.phase.completions, if stillCurrent then result else None);
      tasks := tasks[task := w.(phase := Top)];
    }

    /** A preserved execution ended. */
    method PreservedFinish(task: Id, result: Option<Reaction>, ghost world: World)
      requires Valid(world)
      requires task in tasks && tasks[task].Preserving?
      modifies this
      ensures View() == AfterPreservedFinish(old(View()), task, result)
      ensures Valid(world)
    {
      PreservedFinishKeepsInv(View(), config, task, result, world);
      CarriedFutures(View(), config, task, world);
      LeaveLocked(task, result);
    }

    method LeaveLocked(task: Id, result: Option<Reaction>)
      requires task in tasks && tasks[task].Preserving?
      requires forall f :: f in tasks[task].item.completions ==> f in futures
      modifies this`sessions, this`tasks, this`futures
      ensures View() == AfterPreservedFinish(old(View()), task, result)
    {
      var t := tasks[task];
      var stillCurrent :=
        t.session in sessions && sessions[t.session].ident == t.schedule && task in sessions[t.session].preserved;
      ResolveEach(t.item.completions, if stillCurrent then result else None);
      if stillCurrent {
        var sch := sessions[t.session];
        Store(t.session, sch.(preserved := sch.preserved - {task}));
      }
      tasks := tasks - {task};
    }
  }

  lemma HeldAreKnown(s: State, session: string, config: Config, world: World)
    requires Inv(s, config, world) && session in s.sessions
    ensures forall f: Id :: Holds(s.sessions[session], f) ==> f in s.futures
  {
    FreshIds(s, config, world);
    forall f: Id | Holds(s.sessions[session], f)
      ensures f in s.futures
    {
      HoldsIff(s.sessions[session], f);
    }
  }
}
