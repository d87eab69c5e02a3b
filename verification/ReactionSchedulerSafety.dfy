/** Safety of the reaction scheduler over whole runs. */
module ReactionSchedulerSafety {
  import opened Observations
  import opened ObservationMerging
  import opened Options
  import opened ReactionScheduler
  import opened Sequences

  // ---------------------------------------------------------------------------------------
  // A step concerns one session
  // ---------------------------------------------------------------------------------------

  /** Futures the schedule owns, except in slot k, are still waiting in s'. */
  ghost predicate KeepsWaiting(session: string, sch: Schedule, k: Option<Slot>, s': State) {
    forall slot, f: Id :: Owns(sch, slot, f) && Some(slot) != k ==> f in s'.futures && s'.futures[f] == Waiting(session)
  }

  /** Changing the item of one slot keeps the items well formed. */
  lemma SlotChanged(session: string, sch: Schedule, sch': Schedule, k: Slot, s: State, s': State, world: World)
    requires ItemsOk(session, sch, s, world) && s.next <= s'.next
    requires forall slot :: slot != k ==> At(sch', slot) == At(sch, slot)
    requires KeepsWaiting(session, sch, Some(k), s')
    requires At(sch', k).Some? ==> ItemOk(At(sch', k).value, k, session, s', world)
    requires forall slot, f: Id :: slot != k && Owns(sch, slot, f) ==> !Owns(sch', k, f)
    ensures ItemsOk(session, sch', s', world)
  {
    forall slot | At(sch', slot).Some?
      ensures ItemOk(At(sch', slot).value, slot, session, s', world)
    {
      if slot != k {
        var item := At(sch, slot).value;
        assert ItemOk(item, slot, session, s, world);
        assert forall f: Id :: f in item.completions ==> Owns(sch, slot, f);
      }
    }
    forall x, y, f: Id | Owns(sch', x, f) && Owns(sch', y, f)
      ensures x == y
    {
      assert x != k ==> Owns(sch, x, f);
      assert y != k ==> Owns(sch, y, f);
    }
  }

  lemma ScheduleFramed(session: string, sch: Schedule, s: State, s': State, world: World)
    requires ScheduleOk(session, sch, s, world)
    requires s.next <= s'.next
    requires KeepsWaiting(session, sch, None, s')
    requires forall t :: sch.worker == Some(t) || t in sch.preserved ==> t in s.tasks && t in s'.tasks && s'.tasks[t] == s.tasks[t]
    ensures ScheduleOk(session, sch, s', world)
  {
    forall slot | At(sch, slot).Some?
      ensures ItemOk(At(sch, slot).value, slot, session, s', world)
    {
      var item := At(sch, slot).value;
      assert ItemOk(item, slot, session, s, world);
      assert forall f: Id :: f in item.completions ==> Owns(sch, slot, f);
    }
  }

  /** s' differs from s only in what belongs to one session. */
  ghost predicate Local(s: State, s': State, session: string) {
    && s.next <= s'.next
    && (forall x :: x in s.sessions && x != session ==> x in s'.sessions && s'.sessions[x] == s.sessions[x])
    && (forall x :: x in s'.sessions && x != session ==> x in s.sessions)
    && (forall f :: f in s.futures ==> f in s'.futures && s'.futures[f].session == s.futures[f].session)
    && (forall f :: f in s.futures && s.futures[f].session != session ==> s'.futures[f] == s.futures[f])
    && (forall f :: f in s.futures && s.futures[f].Done? ==> s'.futures[f] == s.futures[f])
    && (forall f :: f in s'.futures && f !in s.futures ==> s'.futures[f].session == session)
    && (forall t :: t in s.tasks && s.tasks[t].session != session ==> t in s'.tasks && s'.tasks[t] == s.tasks[t])
    && (forall t :: t in s'.tasks && s'.tasks[t].session != session ==> t in s.tasks && s.tasks[t] == s'.tasks[t])
  }

  /** What a step must establish for the session it concerns. */
  ghost predicate SessionOk(s: State, session: string, world: World) {
    && (session in s.sessions ==> ScheduleOk(session, s.sessions[session], s, world))
    && (forall f :: f in s.futures && s.futures[f].session == session ==> FutureOk(f, s))
    && (forall t :: t in s.tasks && s.tasks[t].session == session ==> TaskOk(t, s))
  }

  lemma LocalStep(s: State, s': State, session: string, config: Config, world: World)
    requires Inv(s, config, world)
    requires Local(s, s', session) && SessionOk(s', session, world)
    requires |s'.sessions| <= config.maxSessions
    ensures Inv(s', config, world)
  {
    FreshIds(s, config, world);
    forall x | x in s'.sessions
      ensures ScheduleOk(x, s'.sessions[x], s', world)
    {
      if x != session {
        var sch := s.sessions[x];
        assert ScheduleOk(x, sch, s, world);
        ScheduleFramed(x, sch, s, s', world);
      }
    }
    forall f | f in s'.futures
      ensures FutureOk(f, s')
    {
      if s'.futures[f].session != session {
        assert FutureOk(f, s);
      }
    }
    forall t | t in s'.tasks
      ensures TaskOk(t, s')
    {
      if s'.tasks[t].session != session {
        assert TaskOk(t, s);
      }
    }
  }

  // ---------------------------------------------------------------------------------------
  // Submit
  // ---------------------------------------------------------------------------------------

  ghost function Entered(s: State, o: Observation): State {
    s.(futures := s.futures[s.next := Waiting(o.sessionId)], next := s.next + 4)
  }

  lemma FreshIds(s: State, config: Config, world: World)
    requires Inv(s, config, world)
    ensures s.next !in s.futures && s.next + 2 !in s.tasks
    ensures forall f :: f in s.futures ==> f < s.next
    ensures forall t :: t in s.tasks ==> t < s.next
    ensures forall x :: x in s.sessions ==> KeepsWaiting(x, s.sessions[x], None, s)
    ensures forall x, t :: x in s.sessions && t in s.sessions[x].preserved ==> t < s.next
  {
    forall f | f in s.futures
      ensures f < s.next
    {
      assert FutureOk(f, s);
    }
    forall t | t in s.tasks
      ensures t < s.next
    {
      assert TaskOk(t, s);
    }
    forall x | x in s.sessions
      ensures KeepsWaiting(x, s.sessions[x], None, s)
      ensures forall t :: t in s.sessions[x].preserved ==> t < s.next
    {
      assert ScheduleOk(x, s.sessions[x], s, world);
      forall slot, f: Id | Owns(s.sessions[x], slot, f)
        ensures f in s.futures && s.futures[f] == Waiting(x)
      {
        assert ItemOk(At(s.sessions[x], slot).value, slot, x, s, world);
      }
    }
  }

  /** Tasks outside the tracked schedule of a session are unaffected when it keeps its identity. */
  lemma TasksFramed(s: State, s': State, session: string, added: Id)
    requires forall t :: t in s.tasks ==> TaskOk(t, s)
    requires s.next <= s'.next
    requires forall f :: f in s.futures ==> f in s'.futures && (s.futures[f].Done? ==> s'.futures[f].Done?)
    requires forall x :: x in s.sessions ==> x in s'.sessions && s'.sessions[x].ident == s.sessions[x].ident
    requires forall x :: x in s.sessions && s.sessions[x].worker.Some? ==> s'.sessions[x].worker == s.sessions[x].worker
    requires forall x, t :: x in s.sessions && t in s.sessions[x].preserved ==> t in s'.sessions[x].preserved
    requires forall x :: x in s'.sessions && x !in s.sessions ==> s'.sessions[x].ident >= s.next
    requires forall t :: t in s'.tasks && t != added ==> t in s.tasks && s'.tasks[t] == s.tasks[t]
    ensures forall t :: t in s'.tasks && t != added ==> TaskOk(t, s')
  {
    forall t | t in s'.tasks && t != added
      ensures TaskOk(t, s')
    {
      assert TaskOk(t, s);
    }
  }

  /** Adding futures that are done at once concerns nobody. */
  lemma DoneFuturesKeepInv(s: State, s': State, config: Config, world: World)
    requires Inv(s, config, world)
    requires s'.sessions == s.sessions && s'.tasks == s.tasks && s.next <= s'.next
    requires forall f :: f in s.futures ==> f in s'.futures && s'.futures[f] == s.futures[f]
    requires forall f :: f in s'.futures && f !in s.futures ==> s'.futures[f].Done? && f < s'.next
    ensures Inv(s', config, world)
  {
    FreshIds(s, config, world);
    forall x | x in s'.sessions
      ensures ScheduleOk(x, s'.sessions[x], s', world)
    {
      assert ScheduleOk(x, s.sessions[x], s, world);
      assert KeepsWaiting(x, s.sessions[x], None, s);
      ScheduleFramed(x, s.sessions[x], s, s', world);
    }
    forall f | f in s'.futures
      ensures FutureOk(f, s')
    {
      if f in s.futures {
        assert FutureOk(f, s);
      }
    }
    forall t | t in s'.tasks
      ensures TaskOk(t, s')
    {
      assert TaskOk(t, s);
    }
  }

  lemma RejectedKeepsInv(s: State, config: Config, o: Observation, world: World)
    requires Inv(s, config, world)
    ensures Inv(Rejected(Entered(s, o), s.next), config, world)
  {
    FreshIds(s, config, world);
    DoneFuturesKeepInv(s, Rejected(Entered(s, o), s.next), config, world);
  }

  ghost predicate Owned(sch: Schedule, f: Id) {
    exists slot :: Owns(sch, slot, f)
  }

  /** What sch owned and still waits in s' is owned by sch'. */
  ghost predicate OwnersKept(sch: Schedule, sch': Schedule, s': State) {
    forall slot, f: Id :: Owns(sch, slot, f) && f in s'.futures && s'.futures[f].Waiting? ==> Owned(sch', f)
  }

  /** Every waiting future of s is owned in s', and so is the new one. */
  lemma FuturesFramed(s: State, s': State, session: string)
    requires forall f :: f in s.futures ==> FutureOk(f, s)
    requires s.next <= s'.next
    requires forall f :: f in s'.futures ==> f in s.futures || f < s'.next
    requires forall f :: f in s.futures && f in s'.futures && s'.futures[f].Waiting? ==> s'.futures[f] == s.futures[f]
    requires session in s'.sessions
    requires session in s.sessions ==> OwnersKept(s.sessions[session], s'.sessions[session], s')
    requires forall f :: f in s'.futures && f !in s.futures && s'.futures[f].Waiting? ==> Owned(s'.sessions[session], f)
    ensures forall f :: f in s'.futures && s'.futures[f].session == session ==> FutureOk(f, s')
  {
    forall f | f in s'.futures && s'.futures[f].session == session
      ensures FutureOk(f, s')
    {
      if f in s.futures {
        assert FutureOk(f, s);
        if s'.futures[f].Waiting? {
          var slot :| Owns(s.sessions[session], slot, f);
        }
      }
    }
  }

  /** A schedule with one more preserved item is well formed. */
  lemma PreservedAdded(session: string, sch: Schedule, task: Id, item: Item, s: State, s': State, world: World)
    requires task !in sch.preserved && s.next <= s'.next
    requires ItemsOk(session, sch, s, world) && RankOk(sch)
    requires KeepsWaiting(session, sch, None, s')
    requires ItemOk(item, PreservedSlot(task), session, s', world)
    requires forall slot, f: Id :: Owns(sch, slot, f) ==> f !in item.completions
    requires WorkerOk(session, sch, s') || (sch.worker.None? && sch.pending.None? && sch.running.None?)
    requires PreservedOk(session, sch, s') && sch.ident < s'.next
    requires task in s'.tasks && s'.tasks[task] == Preserving(session, sch.ident, item)
    ensures var sch' := sch.(preserved := sch.preserved[task := item]);
            ScheduleOk(session, sch', s', world) && OwnersKept(sch, sch', s') && forall f :: f in item.completions ==> Owned(sch', f)
  {
    var sch' := sch.(preserved := sch.preserved[task := item]);
    assert forall slot :: slot != PreservedSlot(task) ==> At(sch', slot) == At(sch, slot);
    assert At(sch', PreservedSlot(task)) == Some(item);
    SlotChanged(session, sch, sch', PreservedSlot(task), s, s', world);
    forall slot, f: Id | Owns(sch, slot, f)
      ensures Owned(sch', f)
    {
      assert slot != PreservedSlot(task);
      assert Owns(sch', slot, f);
    }
    forall f | f in item.completions
      ensures Owned(sch', f)
    {
      assert Owns(sch', PreservedSlot(task), f);
    }
  }

  lemma NewItemOk(sub: Submission, slot: Slot, id: Id, completion: Id, s': State, world: World)
    requires Mergeable(sub.observation, world)
    requires id < s'.next
    requires completion in s'.futures && s'.futures[completion] == Waiting(sub.observation.sessionId)
    requires Priority(sub.observation) == 3 <==> slot.PreservedSlot?
    ensures ItemOk(NewItem(sub, id, completion), slot, sub.observation.sessionId, s', world)
  {
  }

  /** s' stores schedule sch' for the session, adds one waiting future and possibly one task. */
  ghost predicate Stores(s: State, s': State, session: string, sch': Schedule) {
    && s'.sessions == s.sessions[session := sch']
    && s'.next == s.next + 4
    && s.next in s'.futures && s'.futures[s.next] == Waiting(session)
    && (forall f :: f in s'.futures <==> f == s.next || f in s.futures)
    && (forall f :: f in s.futures && s'.futures[f] != s.futures[f]
          ==> s.futures[f] == Waiting(session) && s'.futures[f] == Done(session, None))
    && (s'.tasks == s.tasks
        || (s.next + 2 in s'.tasks && s'.tasks == s.tasks[s.next + 2 := s'.tasks[s.next + 2]] && s'.tasks[s.next + 2].session == session))
  }

  lemma StoreIsLocal(s: State, s': State, session: string, sch': Schedule)
    requires Stores(s, s', session, sch')
    requires s.next !in s.futures && s.next + 2 !in s.tasks
    ensures Local(s, s', session)
  {
  }

  /** The schedule before the step, when the step may also open the session. */
  ghost predicate Precedes(s: State, session: string, sch: Schedule) {
    if session in s.sessions then sch == s.sessions[session]
    else sch == Schedule(s.next + 3, None, None, None, map[])
  }

  lemma StoreFutures(s: State, s': State, session: string, sch: Schedule, sch': Schedule)
    requires forall f :: f in s.futures ==> FutureOk(f, s)
    requires Stores(s, s', session, sch') && Precedes(s, session, sch)
    requires OwnersKept(sch, sch', s') && Owned(sch', s.next)
    ensures forall f :: f in s'.futures && s'.futures[f].session == session ==> FutureOk(f, s')
  {
    FuturesFramed(s, s', session);
  }

  /** The task a step starts is the schedule's worker or one of its preserved tasks. */
  ghost predicate AddedTaskOk(t: Id, s': State, sch': Schedule) {
    t in s'.tasks ==>
      && s'.tasks[t].schedule == sch'.ident
      && (if s'.tasks[t].Worker? then sch'.worker == Some(t) else t in sch'.preserved)
  }

  lemma StoreTasks(s: State, s': State, session: string, sch: Schedule, sch': Schedule)
    requires forall t :: t in s.tasks ==> TaskOk(t, s)
    requires Stores(s, s', session, sch') && Precedes(s, session, sch)
    requires sch'.ident == sch.ident < s'.next
    requires sch.worker.Some? ==> sch'.worker == sch.worker
    requires forall t :: t in sch.preserved ==> t in sch'.preserved
    requires AddedTaskOk(s.next + 2, s', sch') && s.next + 2 !in s.tasks
    ensures forall t :: t in s'.tasks ==> TaskOk(t, s')
  {
    TasksFramed(s, s', session, s.next + 2);
  }

  lemma StoreKeepsInv(s: State, s': State, session: string, sch: Schedule, sch': Schedule, config: Config, world: World)
    requires Inv(s, config, world) && Stores(s, s', session, sch')
    requires Precedes(s, session, sch) && (session in s.sessions || |s.sessions| < config.maxSessions)
    requires ScheduleOk(session, sch', s', world)
    requires sch'.ident == sch.ident
    requires sch.worker.Some? ==> sch'.worker == sch.worker
    requires forall t :: t in sch.preserved ==> t in sch'.preserved
    requires OwnersKept(sch, sch', s') && Owned(sch', s.next)
    requires AddedTaskOk(s.next + 2, s', sch')
    ensures Inv(s', config, world)
  {
    FreshIds(s, config, world);
    StoreIsLocal(s, s', session, sch');
    StoreFutures(s, s', session, sch, sch');
    StoreTasks(s, s', session, sch, sch');
    assert s'.sessions.Keys == s.sessions.Keys + {session};
    LocalStep(s, s', session, config, world);
  }

  /** What holds of the schedule a submit finds, whether it exists or has just been opened. */
  ghost predicate Found(session: string, sch: Schedule, s: State, s': State, world: World) {
    match sch
    case Schedule(ident, worker, pending, running, preserved) =>
    && s.next <= s'.next && ident < s'.next
    && ItemsOk(session, sch, s, world) && RankOk(sch)
    && KeepsWaiting(session, sch, None, s)
    && (WorkerOk(session, sch, s') || (worker.None? && pending.None? && running.None?))
    && PreservedOk(session, sch, s')
    && s.next + 2 !in preserved
    && (forall slot, f: Id :: Owns(sch, slot, f) ==> f != s.next)
  }

  lemma FindSchedule(s: State, s': State, session: string, config: Config, world: World)
    requires Inv(s, config, world)
    requires s'.next == s.next + 4
    requires forall t :: t in s.tasks ==> t in s'.tasks && s'.tasks[t] == s.tasks[t]
    ensures Precedes(s, session, CurrentSchedule(s, session, s.next + 3))
    ensures Found(session, CurrentSchedule(s, session, s.next + 3), s, s', world)
    ensures s.next !in s.futures && s.next + 2 !in s.tasks
  {
    FreshIds(s, config, world);
    if session in s.sessions {
      FindTracked(s, s', session, s.sessions[session], world);
    } else {
      FindOpened(s, s', session, world);
    }
  }

  lemma FindTracked(s: State, s': State, session: string, sch: Schedule, world: World)
    requires ScheduleOk(session, sch, s, world) && s'.next == s.next + 4
    requires s.next !in s.futures && s.next + 2 !in s.tasks
    requires forall t :: t in s.tasks ==> t in s'.tasks && s'.tasks[t] == s.tasks[t]
    ensures Found(session, sch, s, s', world)
  {
    forall slot, f: Id | Owns(sch, slot, f)
      ensures f in s.futures && s.futures[f] == Waiting(session)
    {
      assert ItemOk(At(sch, slot).value, slot, session, s, world);
    }
  }

  lemma FindOpened(s: State, s': State, session: string, world: World)
    requires s'.next == s.next + 4
    ensures Found(session, Schedule(s.next + 3, None, None, None, map[]), s, s', world)
  {
    var sch := Schedule(s.next + 3, None, None, None, map[]);
    assert forall slot :: At(sch, slot).None?;
  }

  lemma UserSubmitKeepsInv(s: State, config: Config, sub: Submission, world: World)
    requires Inv(s, config, world) && Mergeable(sub.observation, world)
    requires Priority(sub.observation) == 3 && sub.starts
    requires sub.observation.sessionId in s.sessions || |s.sessions| < config.maxSessions
    ensures var o := sub.observation;
            Inv(AfterUserSubmit(Entered(s, o), sub, CurrentSchedule(s, o.sessionId, s.next + 3), s.next), config, world)
  {
    var o := sub.observation;
    var sch := CurrentSchedule(s, o.sessionId, s.next + 3);
    var s' := AfterUserSubmit(Entered(s, o), sub, sch, s.next);
    var sch' := sch.(preserved := sch.preserved[s.next + 2 := NewItem(sub, s.next + 1, s.next)]);
    FindSchedule(s, s', o.sessionId, config, world);
    UserSubmitStored(s, s', sub, sch, world);
    UserSubmitStores(s, sub, sch, sch');
    StoreKeepsInv(s, s', o.sessionId, sch, sch', config, world);
  }

  lemma StillWaiting(session: string, sch: Schedule, s: State, s': State)
    requires KeepsWaiting(session, sch, None, s) && s.next !in s.futures
    requires s'.futures == s.futures[s.next := Waiting(session)]
    ensures KeepsWaiting(session, sch, None, s')
    ensures forall slot, f: Id :: Owns(sch, slot, f) ==> f != s.next
  {
  }

  lemma UserSubmitStored(s: State, s': State, sub: Submission, sch: Schedule, world: World)
    requires Found(sub.observation.sessionId, sch, s, s', world) && s.next !in s.futures
    requires Mergeable(sub.observation, world) && Priority(sub.observation) == 3
    requires s'.next == s.next + 4 && s'.futures == s.futures[s.next := Waiting(sub.observation.sessionId)]
    requires s.next + 2 in s'.tasks
    requires s'.tasks[s.next + 2] == Preserving(sub.observation.sessionId, sch.ident, NewItem(sub, s.next + 1, s.next))
    ensures var sch' := sch.(preserved := sch.preserved[s.next + 2 := NewItem(sub, s.next + 1, s.next)]);
            && ScheduleOk(sub.observation.sessionId, sch', s', world)
            && OwnersKept(sch, sch', s') && Owned(sch', s.next)
            && AddedTaskOk(s.next + 2, s', sch')
  {
    var session, task, item := sub.observation.sessionId, s.next + 2, NewItem(sub, s.next + 1, s.next);
    NewItemOk(sub, PreservedSlot(task), s.next + 1, s.next, s', world);
    StillWaiting(session, sch, s, s');
    PreservedAdded(session, sch, task, item, s, s', world);
  }

  lemma UserSubmitStores(s: State, sub: Submission, sch: Schedule, sch': Schedule)
    requires sub.starts && s.next !in s.futures
    requires sch' == sch.(preserved := sch.preserved[s.next + 2 := NewItem(sub, s.next + 1, s.next)])
    ensures var o := sub.observation;
            Stores(s, AfterUserSubmit(Entered(s, o), sub, sch, s.next), o.sessionId, sch')
  {
  }

  /** Only the superseded flag changes, so ownership and identity stay. */
  ghost predicate Marked(sch: Schedule, marked: Schedule) {
    marked == sch || (sch.running.Some? && marked == MarkSuperseded(sch))
  }

  lemma MarkedFound(session: string, sch: Schedule, marked: Schedule, s: State, s': State, world: World)
    requires Found(session, sch, s, s', world) && Marked(sch, marked)
    ensures Found(session, marked, s, s', world)
    ensures forall slot, f: Id :: Owns(marked, slot, f) <==> Owns(sch, slot, f)
  {
    if marked != sch {
      assert forall slot :: slot != RunningSlot ==> At(marked, slot) == At(sch, slot);
      assert ItemOk(At(sch, RunningSlot).value, RunningSlot, session, s, world);
      assert forall slot, f: Id :: Owns(marked, slot, f) <==> Owns(sch, slot, f);
      SlotChanged(session, sch, marked, RunningSlot, s, s.(next := s.next), world);
    }
  }

  /** A schedule whose pending item is stored anew is well formed. */
  lemma PendingStored(session: string, sch: Schedule, item: Item, worker: Option<Id>, s: State, s': State, world: World)
    requires Found(session, sch, s, s', world)
    requires ItemOk(item, PendingSlot, session, s', world)
    requires s.next in item.completions
    requires forall f :: f in item.completions ==> f == s.next || Owns(sch, PendingSlot, f)
    requires forall f: Id :: Owns(sch, PendingSlot, f) && f in s'.futures && s'.futures[f].Waiting? ==> f in item.completions
    requires KeepsWaiting(session, sch, Some(PendingSlot), s')
    requires var sch' := sch.(pending := Some(item), worker := worker); RankOk(sch') && WorkerOk(session, sch', s')
    ensures var sch' := sch.(pending := Some(item), worker := worker);
            ScheduleOk(session, sch', s', world) && OwnersKept(sch, sch', s') && Owned(sch', s.next)
  {
    var sch' := sch.(pending := Some(item), worker := worker);
    assert forall slot :: slot != PendingSlot ==> At(sch', slot) == At(sch, slot);
    assert At(sch', PendingSlot) == Some(item);
    SlotChanged(session, sch, sch', PendingSlot, s, s', world);
    assert Owns(sch', PendingSlot, s.next);
    forall slot, f: Id | Owns(sch, slot, f) && f in s'.futures && s'.futures[f].Waiting?
      ensures Owned(sch', f)
    {
      assert Owns(sch', slot, f);
    }
  }

  ghost predicate Ranked(sub: Submission, sch: Schedule, marked: Schedule) {
    && Priority(sub.observation) != 3
    && !Drops(sub.observation, sch)
    && marked == if Supersedes(sub.observation, sch) then MarkSuperseded(sch) else sch
  }

  /** Equal rank below priority 3 is exactly what the merge test asks for, beside the ambient flag. */
  lemma EqualRankMerges(a: Observation, b: Observation)
    requires Priority(a) != 3 && Priority(b) != 3
    ensures CanMergePending(a, b) <==> Rank(a) == Rank(b) && IsAmbient(a) == IsAmbient(b)
  {
  }

  lemma JoinedOk(sub: Submission, p: Item, config: Config, s: State, s': State, world: World)
    requires ItemOk(p, PendingSlot, sub.observation.sessionId, s, world) && Mergeable(sub.observation, world)
    requires CanMergePending(p.observation, sub.observation) && s.next !in s.futures
    requires s.next <= s'.next
    requires forall f :: f in Joined(sub, p, config, s.next).completions ==> f in s'.futures && s'.futures[f] == Waiting(sub.observation.sessionId)
    ensures ItemOk(Joined(sub, p, config, s.next), PendingSlot, sub.observation.sessionId, s', world)
    ensures Rank(Joined(sub, p, config, s.next).observation) == Rank(p.observation)
  {
    MergeIsMergeable(p.observation, sub.observation, world);
    MergeKeepsRank(p.observation, sub.observation, world);
    JoinedCompletions(p, config, s.next);
  }

  lemma JoinedCompletions(p: Item, config: Config, completion: Id)
    requires NoDuplicates(p.completions) && completion !in p.completions
    ensures NoDuplicates(p.completions[|Displaced(p, config)|..] + [completion])
  {
    var kept := p.completions[|Displaced(p, config)|..];
    assert forall i :: 0 <= i < |kept| ==> kept[i] == p.completions[|Displaced(p, config)| + i];
  }

  lemma KeptCompletions(p: Item, config: Config, completion: Id)
    requires NoDuplicates(p.completions)
    ensures forall f :: f in p.completions[|Displaced(p, config)|..] + [completion]
                   <==> f == completion || (f in p.completions && f !in Displaced(p, config))
  {
    var d := Displaced(p, config);
    if d != [] {
      assert p.completions == [p.completions[0]] + p.completions[1..];
      forall f | f in p.completions[1..]
        ensures f != p.completions[0]
      {
        var i :| 1 <= i < |p.completions| && p.completions[i] == f;
      }
    } else {
      assert p.completions[0..] == p.completions;
    }
  }

  /** The futures of a pending item: some are displaced, the others and the new one keep waiting. */
  lemma DisplacedFutures(s: State, o: Observation, p: Item, config: Config)
    requires s.next !in s.futures && NoDuplicates(p.completions)
    requires forall f :: f in p.completions ==> f in s.futures && s.futures[f] == Waiting(o.sessionId)
    ensures var futures := ResolveAll(Entered(s, o).futures, Displaced(p, config), None);
            var kept := p.completions[|Displaced(p, config)|..] + [s.next];
            && (forall f :: f in futures <==> f == s.next || f in s.futures)
            && futures[s.next] == Waiting(o.sessionId)
            && (forall f :: f in kept ==> f in futures && futures[f] == Waiting(o.sessionId))
            && (forall f :: f in p.completions && futures[f].Waiting? ==> f in kept)
            && (forall f :: f in p.completions ==> futures[f] == s.futures[f] || futures[f] == Done(o.sessionId, None))
            && (forall f :: f in s.futures && f !in p.completions ==> futures[f] == s.futures[f])
            && (forall f :: f in kept ==> f == s.next || f in p.completions)
  {
    KeptCompletions(p, config, s.next);
  }

  lemma JoinStores(s: State, s': State, config: Config, sub: Submission, marked: Schedule)
    requires Joins(sub, marked) && s.next !in s.futures
    requires s' == AfterRankedSubmit(Entered(s, sub.observation), config, sub, marked, s.next)
    requires forall f :: f in marked.pending.value.completions ==> f in s.futures && s.futures[f] == Waiting(sub.observation.sessionId)
    requires NoDuplicates(marked.pending.value.completions)
    ensures Stores(s, s', sub.observation.sessionId, marked.(pending := Some(Joined(sub, marked.pending.value, config, s.next))))
  {
    DisplacedFutures(s, sub.observation, marked.pending.value, config);
  }

  /** Other items' futures are untouched. */
  lemma OthersWait(session: string, sch: Schedule, s: State, s': State, world: World)
    requires ItemsOk(session, sch, s, world)
    requires KeepsWaiting(session, sch, None, s)
    requires forall f :: f in s.futures && !Owns(sch, PendingSlot, f) ==> f in s'.futures && s'.futures[f] == s.futures[f]
    ensures KeepsWaiting(session, sch, Some(PendingSlot), s')
  {
    forall slot, f: Id | Owns(sch, slot, f) && slot != PendingSlot
      ensures f in s'.futures && s'.futures[f] == Waiting(session)
    {
      assert !Owns(sch, PendingSlot, f);
    }
  }

  lemma JoinedSchedule(s: State, s': State, config: Config, sub: Submission, marked: Schedule, world: World)
    requires Found(sub.observation.sessionId, marked, s, s', world) && Mergeable(sub.observation, world)
    requires Joins(sub, marked) && CanMergePending(marked.pending.value.observation, sub.observation)
    requires s.next !in s.futures
    requires s' == AfterRankedSubmit(Entered(s, sub.observation), config, sub, marked, s.next)
    ensures var sch' := marked.(pending := Some(Joined(sub, marked.pending.value, config, s.next)));
            ScheduleOk(sub.observation.sessionId, sch', s', world) && OwnersKept(marked, sch', s') && Owned(sch', s.next)
  {
    var session, p := sub.observation.sessionId, marked.pending.value;
    assert At(marked, PendingSlot) == Some(p) && ItemOk(p, PendingSlot, session, s, world);
    DisplacedFutures(s, sub.observation, p, config);
    JoinedOk(sub, p, config, s, s', world);
    OthersWait(session, marked, s, s', world);
    PendingStored(session, marked, Joined(sub, p, config, s.next), marked.worker, s, s', world);
    assert marked.(pending := Some(Joined(sub, p, config, s.next)), worker := marked.worker)
      == marked.(pending := Some(Joined(sub, p, config, s.next)));
  }

  lemma JoinKeepsInv(s: State, config: Config, sub: Submission, sch: Schedule, marked: Schedule, world: World)
    requires Inv(s, config, world) && Mergeable(sub.observation, world)
    requires sch == CurrentSchedule(s, sub.observation.sessionId, s.next + 3)
    requires Ranked(sub, sch, marked) && Joins(sub, marked)
    ensures Inv(AfterRankedSubmit(Entered(s, sub.observation), config, sub, marked, s.next), config, world)
  {
    var session, p := sub.observation.sessionId, sch.pending.value;
    var s' := AfterRankedSubmit(Entered(s, sub.observation), config, sub, marked, s.next);
    var sch' := marked.(pending := Some(Joined(sub, p, config, s.next)));
    FindSchedule(s, s', session, config, world);
    MarkedFound(session, sch, marked, s, s', world);
    assert At(marked, PendingSlot) == Some(p) && ItemOk(p, PendingSlot, session, s, world);
    EqualRankMerges(p.observation, sub.observation);
    JoinedSchedule(s, s', config, sub, marked, world);
    JoinStores(s, s', config, sub, marked);
    assert OwnersKept(sch, sch', s');
    StoreKeepsInv(s, s', session, sch, sch', config, world);
  }

  /** The pending item's futures are resolved and a new item takes its place. */
  lemma ReplacedSchedule(s: State, s': State, config: Config, sub: Submission, marked: Schedule, worker: Option<Id>, world: World)
    requires Found(sub.observation.sessionId, marked, s, s', world) && Mergeable(sub.observation, world)
    requires Priority(sub.observation) != 3 && s.next !in s.futures && s.next + 2 !in s.tasks
    requires !Joins(sub, marked)
    requires s' == AfterRankedSubmit(Entered(s, sub.observation), config, sub, marked, s.next)
    requires marked.worker.Some? || sub.starts
    requires worker == if marked.worker.Some? then marked.worker else Some(s.next + 2)
    requires marked.running.Some? && !marked.running.value.superseded
             ==> Rank(sub.observation) <= Rank(marked.running.value.observation)
    ensures var sch' := marked.(pending := Some(NewItem(sub, s.next + 1, s.next)), worker := worker);
            && ScheduleOk(sub.observation.sessionId, sch', s', world)
            && OwnersKept(marked, sch', s') && Owned(sch', s.next)
            && Stores(s, s', sub.observation.sessionId, sch')
            && AddedTaskOk(s.next + 2, s', sch')
  {
    var session, item := sub.observation.sessionId, NewItem(sub, s.next + 1, s.next);
    ReplacedFutures(s, s', config, sub, marked, world);
    OthersWait(session, marked, s, s', world);
    NewItemOk(sub, PendingSlot, s.next + 1, s.next, s', world);
    PendingStored(session, marked, item, worker, s, s', world);
  }

  lemma ReplacedFutures(s: State, s': State, config: Config, sub: Submission, marked: Schedule, world: World)
    requires KeepsWaiting(sub.observation.sessionId, marked, None, s) && s.next !in s.futures && !Joins(sub, marked)
    requires s' == AfterRankedSubmit(Entered(s, sub.observation), config, sub, marked, s.next)
    requires marked.worker.Some? || sub.starts
    ensures forall f :: f in s.futures && !Owns(marked, PendingSlot, f) ==> f in s'.futures && s'.futures[f] == s.futures[f]
    ensures forall f: Id :: Owns(marked, PendingSlot, f) && f in s'.futures ==> s'.futures[f].Done?
    ensures s.next in s'.futures && s'.futures[s.next] == Waiting(sub.observation.sessionId)
    ensures forall f :: f in s'.futures <==> f == s.next || f in s.futures
    ensures forall f :: f in s.futures && s.futures[f].Done? ==> s'.futures[f] == s.futures[f]
  {
    forall f: Id | Owns(marked, PendingSlot, f)
      ensures f in s.futures && s.futures[f] == Waiting(sub.observation.sessionId)
    {
    }
  }

  lemma ReplaceFound(s: State, s': State, config: Config, sub: Submission, sch: Schedule, marked: Schedule, worker: Option<Id>, world: World)
    requires Inv(s, config, world) && Mergeable(sub.observation, world)
    requires sch == CurrentSchedule(s, sub.observation.sessionId, s.next + 3)
    requires Ranked(sub, sch, marked) && !Joins(sub, marked)
    requires s' == AfterRankedSubmit(Entered(s, sub.observation), config, sub, marked, s.next)
    requires marked.worker.Some? || sub.starts
    requires worker == if marked.worker.Some? then marked.worker else Some(s.next + 2)
    ensures var sch' := marked.(pending := Some(NewItem(sub, s.next + 1, s.next)), worker := worker);
            && Precedes(s, sub.observation.sessionId, sch)
            && ScheduleOk(sub.observation.sessionId, sch', s', world)
            && OwnersKept(sch, sch', s') && Owned(sch', s.next)
            && Stores(s, s', sub.observation.sessionId, sch')
            && AddedTaskOk(s.next + 2, s', sch')
  {
    var session := sub.observation.sessionId;
    FindSchedule(s, s', session, config, world);
    MarkedFound(session, sch, marked, s, s', world);
    ReplacedSchedule(s, s', config, sub, marked, worker, world);
  }

  lemma ReplaceKeepsInv(s: State, config: Config, sub: Submission, sch: Schedule, marked: Schedule, world: World)
    requires Inv(s, config, world) && Mergeable(sub.observation, world)
    requires sch == CurrentSchedule(s, sub.observation.sessionId, s.next + 3)
    requires sub.observation.sessionId in s.sessions || |s.sessions| < config.maxSessions
    requires Ranked(sub, sch, marked) && !Joins(sub, marked)
    requires marked.worker.Some? || sub.starts
    ensures Inv(AfterRankedSubmit(Entered(s, sub.observation), config, sub, marked, s.next), config, world)
  {
    var session, item := sub.observation.sessionId, NewItem(sub, s.next + 1, s.next);
    var s' := AfterRankedSubmit(Entered(s, sub.observation), config, sub, marked, s.next);
    var worker := if marked.worker.Some? then marked.worker else Some(s.next + 2);
    var sch' := marked.(pending := Some(item), worker := worker);
    FreshIds(s, config, world);
    ReplaceFound(s, s', config, sub, sch, marked, worker, world);
    StoreKeepsInv(s, s', session, sch, sch', config, world);
  }

  lemma SubmitKeepsInv(s: State, config: Config, sub: Submission, world: World)
    requires Inv(s, config, world) && Mergeable(sub.observation, world)
    ensures Inv(AfterSubmit(s, config, sub), config, world)
  {
    var o := sub.observation;
    var sch := CurrentSchedule(s, o.sessionId, s.next + 3);
    var s' := AfterSubmit(s, config, sub);
    if s' == Rejected(Entered(s, o), s.next) {
      RejectedKeepsInv(s, config, o, world);
    } else if Priority(o) == 3 {
      UserSubmitKeepsInv(s, config, sub, world);
    } else {
      var marked := if Supersedes(o, sch) then MarkSuperseded(sch) else sch;
      if Joins(sub, marked) {
        JoinKeepsInv(s, config, sub, sch, marked, world);
      } else {
        ReplaceKeepsInv(s, config, sub, sch, marked, world);
      }
    }
  }

  // ---------------------------------------------------------------------------------------
  // Worker, preserved tasks, cancellation
  // ---------------------------------------------------------------------------------------

  lemma TakenSchedule(session: string, sch: Schedule, s: State, s': State, world: World)
    requires ItemsOk(session, sch, s, world)
    requires sch.pending.Some? && sch.running.None? && s'.next == s.next && s'.futures == s.futures
    ensures var sch' := sch.(pending := None, running := sch.pending);
            && ItemsOk(session, sch', s', world)
            && (forall slot, f: Id :: Owns(sch, slot, f) ==> Owned(sch', f))
  {
    var sch' := sch.(pending := None, running := sch.pending);
    forall slot | At(sch', slot).Some?
      ensures ItemOk(At(sch', slot).value, slot, session, s', world)
    {
      var was := if slot == RunningSlot then PendingSlot else slot;
      assert At(sch', slot) == At(sch, was);
      assert ItemOk(At(sch, was).value, was, session, s, world);
    }
    forall x, y, f: Id | Owns(sch', x, f) && Owns(sch', y, f)
      ensures x == y
    {
      assert Owns(sch, if x == RunningSlot then PendingSlot else x, f);
      assert Owns(sch, if y == RunningSlot then PendingSlot else y, f);
    }
    forall slot, f: Id | Owns(sch, slot, f)
      ensures Owned(sch', f)
    {
      assert Owns(sch', if slot == PendingSlot then RunningSlot else slot, f);
    }
  }

  lemma TakenTasks(s: State, s': State, session: string, task: Id)
    requires forall t :: t in s.tasks ==> TaskOk(t, s)
    requires session in s.sessions && session in s'.sessions && s' == s.(sessions := s'.sessions, tasks := s'.tasks)
    requires var sch := s.sessions[session]; s'.sessions == s.sessions[session := sch.(pending := None, running := sch.pending)]
    requires task in s.tasks && task in s'.tasks && s'.tasks == s.tasks[task := s'.tasks[task]]
    requires s.tasks[task].Worker? && Tracked(s, session, s.tasks[task].schedule) && s.tasks[task].session == session
    requires s'.tasks[task].Worker? && s'.tasks[task] == s.tasks[task].(phase := s'.tasks[task].phase)
    ensures forall t :: t in s'.tasks ==> TaskOk(t, s')
  {
    assert TaskOk(task, s);
    TasksFramed(s, s', session, task);
  }

  lemma TakeSessionOk(s: State, s': State, session: string, config: Config, task: Id, world: World)
    requires Inv(s, config, world)
    requires task in s.tasks && s.tasks[task].Worker? && s.tasks[task].phase.Top? && s.tasks[task].session == session
    requires Tracked(s, session, s.tasks[task].schedule) && s.sessions[session].pending.Some?
    requires s' == AfterWorkerTurn(s, task)
    ensures SessionOk(s', session, world)
  {
    var sch := s.sessions[session];
    assert ScheduleOk(session, sch, s, world) && TaskOk(task, s);
    TakenSchedule(session, sch, s, s', world);
    assert PreservedOk(session, s'.sessions[session], s');
    FuturesFramed(s, s', session);
    TakenTasks(s, s', session, task);
  }

  lemma TakeKeepsInv(s: State, config: Config, task: Id, world: World)
    requires Inv(s, config, world)
    requires task in s.tasks && s.tasks[task].Worker? && s.tasks[task].phase.Top?
    requires Tracked(s, s.tasks[task].session, s.tasks[task].schedule)
    requires s.sessions[s.tasks[task].session].pending.Some?
    ensures Inv(AfterWorkerTurn(s, task), config, world)
  {
    var session, s' := s.tasks[task].session, AfterWorkerTurn(s, task);
    TakeSessionOk(s, s', session, config, task, world);
    assert s'.sessions.Keys == s.sessions.Keys;
    LocalStep(s, s', session, config, world);
  }

  /** A step by one task that empties at most one slot k, resolving its futures. */
  ghost predicate Releases(s: State, s': State, session: string, task: Id, k: Option<Slot>, sch': Schedule)
    requires session in s.sessions
  {
    var sch := s.sessions[session];
    && sch'.ident == sch.ident
    && (forall slot :: At(sch', slot) == if Some(slot) == k then None else At(sch, slot))
    && s'.sessions == Keep(s.sessions, session, sch') && s'.next == s.next
    && (forall t :: t in s'.tasks && t != task ==> t in s.tasks && s'.tasks[t] == s.tasks[t])
    && (forall t :: t in s.tasks && t != task ==> t in s'.tasks)
    && (forall f :: f in s'.futures <==> f in s.futures)
    && (forall f :: f in s.futures && !(k.Some? && Owns(sch, k.value, f)) ==> s'.futures[f] == s.futures[f])
    && (forall f :: f in s.futures && k.Some? && Owns(sch, k.value, f) ==> s'.futures[f].Done? && s'.futures[f].session == session)
  }

  lemma ReleasedSchedule(s: State, s': State, session: string, task: Id, k: Option<Slot>, sch': Schedule, world: World)
    requires session in s.sessions && ScheduleOk(session, s.sessions[session], s, world)
    requires KeepsWaiting(session, s.sessions[session], None, s)
    requires Releases(s, s', session, task, k, sch')
    requires WorkerOk(session, sch', s') && PreservedOk(session, sch', s')
    ensures ScheduleOk(session, sch', s', world)
  {
    var sch := s.sessions[session];
    assert sch'.pending == At(sch', PendingSlot) && sch'.running == At(sch', RunningSlot);
    assert sch.pending == At(sch, PendingSlot) && sch.running == At(sch, RunningSlot);
    forall slot | At(sch', slot).Some?
      ensures ItemOk(At(sch', slot).value, slot, session, s', world)
    {
      assert At(sch, slot) == At(sch', slot);
      assert ItemOk(At(sch, slot).value, slot, session, s, world);
      forall f | f in At(sch, slot).value.completions
        ensures s'.futures[f] == s.futures[f]
      {
        assert Owns(sch, slot, f);
      }
    }
    assert forall x, f: Id :: Owns(sch', x, f) ==> Owns(sch, x, f);
  }

  lemma ReleasedFutures(s: State, s': State, session: string, task: Id, k: Option<Slot>, sch': Schedule)
    requires forall f :: f in s.futures ==> FutureOk(f, s)
    requires session in s.sessions && Releases(s, s', session, task, k, sch')
    ensures forall f :: f in s'.futures ==> FutureOk(f, s')
  {
    forall f | f in s'.futures
      ensures FutureOk(f, s')
    {
      assert FutureOk(f, s);
      if s'.futures[f].Waiting? {
        var x := s.futures[f].session;
        var slot :| Owns(s.sessions[x], slot, f);
        if x == session {
          assert At(sch', slot) == At(s.sessions[x], slot);
          assert Owns(sch', slot, f);
          assert !Idle(sch');
        } else {
          assert s'.sessions[x] == s.sessions[x];
          assert Owns(s'.sessions[x], slot, f);
        }
      }
    }
  }

  lemma ReleasedTasks(s: State, s': State, session: string, task: Id, k: Option<Slot>, sch': Schedule)
    requires forall t :: t in s.tasks ==> TaskOk(t, s)
    requires session in s.sessions && Releases(s, s', session, task, k, sch')
    requires forall t :: t != task && s.sessions[session].worker == Some(t) ==> sch'.worker == Some(t)
    requires forall t :: t != task && t in s.sessions[session].preserved ==> t in sch'.preserved
    ensures forall t :: t in s'.tasks && t != task ==> TaskOk(t, s')
  {
    forall t | t in s'.tasks && t != task
      ensures TaskOk(t, s')
    {
      assert TaskOk(t, s);
    }
  }

  lemma ReleaseKeepsInv(s: State, s': State, session: string, task: Id, k: Option<Slot>, sch': Schedule, config: Config, world: World)
    requires Inv(s, config, world)
    requires task in s.tasks && s.tasks[task].session == session
    requires session in s.sessions && Releases(s, s', session, task, k, sch')
    requires Idle(sch') || (WorkerOk(session, sch', s') && PreservedOk(session, sch', s'))
    requires forall t :: t != task && s.sessions[session].worker == Some(t) ==> sch'.worker == Some(t)
    requires forall t :: t != task && t in s.sessions[session].preserved ==> t in sch'.preserved
    requires task in s'.tasks ==> TaskOk(task, s')
    ensures Inv(s', config, world)
  {
    FreshIds(s, config, world);
    ReleasedFutures(s, s', session, task, k, sch');
    ReleasedTasks(s, s', session, task, k, sch');
    ReleasedSchedules(s, s', session, task, k, sch', world);
    KeepSize(s.sessions, session, sch');
  }

  lemma KeepSize(sessions: map<string, Schedule>, session: string, sch: Schedule)
    requires session in sessions
    ensures |Keep(sessions, session, sch)| <= |sessions|
  {
    assert Keep(sessions, session, sch).Keys == if Idle(sch) then sessions.Keys - {session} else sessions.Keys;
  }

  lemma ReleasedSchedules(s: State, s': State, session: string, task: Id, k: Option<Slot>, sch': Schedule, world: World)
    requires forall x :: x in s.sessions ==> ScheduleOk(x, s.sessions[x], s, world) && KeepsWaiting(x, s.sessions[x], None, s)
    requires task in s.tasks && s.tasks[task].session == session
    requires session in s.sessions && Releases(s, s', session, task, k, sch')
    requires Idle(sch') || (WorkerOk(session, sch', s') && PreservedOk(session, sch', s'))
    ensures forall x :: x in s'.sessions ==> ScheduleOk(x, s'.sessions[x], s', world)
  {
    forall x | x in s'.sessions
      ensures ScheduleOk(x, s'.sessions[x], s', world)
    {
      if x == session {
        ReleasedSchedule(s, s', session, task, k, sch', world);
      } else {
        ReleasedElsewhere(s, s', session, task, k, sch', x, world);
      }
    }
  }

  /** Other sessions do not notice. */
  lemma ReleasedElsewhere(s: State, s': State, session: string, task: Id, k: Option<Slot>, sch': Schedule, x: string, world: World)
    requires x in s.sessions && x != session && ScheduleOk(x, s.sessions[x], s, world)
    requires session in s.sessions && Releases(s, s', session, task, k, sch')
    requires KeepsWaiting(session, s.sessions[session], None, s) && KeepsWaiting(x, s.sessions[x], None, s)
    requires task in s.tasks && s.tasks[task].session == session
    ensures ScheduleOk(x, s.sessions[x], s', world)
  {
    assert KeepsWaiting(x, s.sessions[x], None, s');
    ScheduleFramed(x, s.sessions[x], s, s', world);
  }

  /** A task of a forgotten schedule changes nothing but its own progress. */
  lemma OrphanKeepsInv(s: State, s': State, task: Id, config: Config, world: World)
    requires Inv(s, config, world)
    requires task in s.tasks && !Tracked(s, s.tasks[task].session, s.tasks[task].schedule)
    requires s' == s.(tasks := s'.tasks)
    requires forall t :: t in s'.tasks && t != task ==> t in s.tasks && s'.tasks[t] == s.tasks[t]
    requires forall t :: t in s.tasks && t != task ==> t in s'.tasks
    requires task in s'.tasks ==> TaskOk(task, s')
    ensures Inv(s', config, world)
  {
    FreshIds(s, config, world);
    forall x | x in s'.sessions
      ensures ScheduleOk(x, s'.sessions[x], s', world)
    {
      assert ScheduleOk(x, s.sessions[x], s, world) && KeepsWaiting(x, s.sessions[x], None, s);
      ScheduleFramed(x, s.sessions[x], s, s', world);
    }
    OrphanOthers(s, s', task);
  }

  lemma OrphanOthers(s: State, s': State, task: Id)
    requires s' == s.(tasks := s'.tasks)
    requires forall t :: t in s.tasks ==> TaskOk(t, s)
    requires forall f :: f in s.futures ==> FutureOk(f, s)
    requires forall t :: t in s'.tasks && t != task ==> t in s.tasks && s'.tasks[t] == s.tasks[t]
    ensures forall t :: t in s'.tasks && t != task ==> TaskOk(t, s')
    ensures forall f :: f in s'.futures ==> FutureOk(f, s')
  {
    forall t | t in s'.tasks && t != task
      ensures TaskOk(t, s')
    {
      assert TaskOk(t, s);
    }
    forall f | f in s'.futures
      ensures FutureOk(f, s')
    {
      assert FutureOk(f, s);
    }
  }

  lemma DoneStays(futures: map<Id, Future>, ids: seq<Id>, value: Option<Reaction>)
    requires forall f :: f in ids ==> f in futures && futures[f].Done?
    ensures ResolveAll(futures, ids, value) == futures
  {
  }

  lemma ExitKeepsInv(s: State, config: Config, task: Id, world: World)
    requires Inv(s, config, world)
    requires task in s.tasks && s.tasks[task].Worker? && s.tasks[task].phase.Top?
    requires Tracked(s, s.tasks[task].session, s.tasks[task].schedule) && s.sessions[s.tasks[task].session].pending.None?
    ensures Inv(AfterWorkerTurn(s, task), config, world)
  {
    var w, s' := s.tasks[task], AfterWorkerTurn(s, task);
    var sch := s.sessions[w.session];
    assert TaskOk(task, s) && ScheduleOk(w.session, sch, s, world);
    ExitReleases(s, s', task, world);
    ReleaseKeepsInv(s, s', w.session, task, None, sch.(worker := None), config, world);
  }

  lemma ExitReleases(s: State, s': State, task: Id, world: World)
    requires task in s.tasks && s.tasks[task].Worker? && s.tasks[task].phase.Top? && TaskOk(task, s)
    requires Tracked(s, s.tasks[task].session, s.tasks[task].schedule) && s.sessions[s.tasks[task].session].pending.None?
    requires ScheduleOk(s.tasks[task].session, s.sessions[s.tasks[task].session], s, world)
    requires s' == AfterWorkerTurn(s, task)
    ensures var session := s.tasks[task].session;
            var sch' := s.sessions[session].(worker := None);
            && Releases(s, s', session, task, None, sch')
            && (Idle(sch') || (WorkerOk(session, sch', s') && PreservedOk(session, sch', s')))
            && s.sessions[session].worker == Some(task)
  {
    var session := s.tasks[task].session;
    var sch := s.sessions[session];
    assert forall slot :: At(sch.(worker := None), slot) == At(sch, slot);
  }

  lemma WorkerTurnKeepsInv(s: State, config: Config, task: Id, world: World)
    requires Inv(s, config, world)
    requires task in s.tasks && s.tasks[task].Worker? && s.tasks[task].phase.Top?
    ensures Inv(AfterWorkerTurn(s, task), config, world)
  {
    var w, s' := s.tasks[task], AfterWorkerTurn(s, task);
    if !Tracked(s, w.session, w.schedule) {
      OrphanKeepsInv(s, s', task, config, world);
    } else if s.sessions[w.session].pending.None? {
      ExitKeepsInv(s, config, task, world);
    } else {
      TakeKeepsInv(s, config, task, world);
    }
  }

  /** Executing, the worker of a tracked schedule carries the running item. */
  lemma WorkerRuns(s: State, config: Config, task: Id, world: World)
    requires Inv(s, config, world)
    requires task in s.tasks && s.tasks[task].Worker? && s.tasks[task].phase.Executing?
    ensures var w := s.tasks[task];
            if Tracked(s, w.session, w.schedule) then
              var sch := s.sessions[w.session];
              && sch.worker == Some(task) && sch.running.Some?
              && w.phase == Executing(sch.running.value.id, sch.running.value.completions)
              && (forall f :: f in w.phase.completions ==> f in s.futures && s.futures[f] == Waiting(w.session))
            else forall f :: f in w.phase.completions ==> f in s.futures && s.futures[f].Done?
  {
    var w := s.tasks[task];
    assert TaskOk(task, s);
    if Tracked(s, w.session, w.schedule) {
      var sch := s.sessions[w.session];
      assert ScheduleOk(w.session, sch, s, world);
      assert At(sch, RunningSlot) == sch.running;
      assert sch.running.Some? ==> ItemOk(sch.running.value, RunningSlot, w.session, s, world);
    }
  }

  lemma FinishReleases(s: State, s': State, session: string, task: Id, slot: Slot, sch': Schedule, ids: seq<Id>, value: Option<Reaction>)
    requires session in s.sessions
    requires sch'.ident == s.sessions[session].ident
    requires forall x :: At(sch', x) == if x == slot then None else At(s.sessions[session], x)
    requires s' == s.(sessions := Keep(s.sessions, session, sch'), tasks := s'.tasks, futures := ResolveAll(s.futures, ids, value))
    requires s'.tasks == s.tasks - {task} || (task in s'.tasks && s'.tasks == s.tasks[task := s'.tasks[task]])
    requires forall f: Id :: Owns(s.sessions[session], slot, f) <==> f in ids
    requires forall f :: f in ids ==> f in s.futures && s.futures[f] == Waiting(session)
    ensures Releases(s, s', session, task, Some(slot), sch')
  {
  }

  lemma CurrentWorkerFinish(s: State, s': State, w: Task, config: Config, task: Id, result: Option<Reaction>, world: World)
    requires Inv(s, config, world)
    requires task in s.tasks && s.tasks[task] == w && w.Worker? && w.phase.Executing? && Tracked(s, w.session, w.schedule)
    requires s' == AfterWorkerFinish(s, task, result)
    ensures Inv(s', config, world)
  {
    WorkerRuns(s, config, task, world);
    var sch := s.sessions[w.session];
    var sch' := sch.(running := None);
    assert TaskOk(task, s);
    assert ScheduleOk(w.session, sch, s, world);
    FinishReleases(s, s', w.session, task, RunningSlot, sch', w.phase.completions, if StillCurrent(s, w) then result else None);
    ReleaseKeepsInv(s, s', w.session, task, Some(RunningSlot), sch', config, world);
  }

  lemma WorkerFinishKeepsInv(s: State, config: Config, task: Id, result: Option<Reaction>, world: World)
    requires Inv(s, config, world)
    requires task in s.tasks && s.tasks[task].Worker? && s.tasks[task].phase.Executing?
    ensures Inv(AfterWorkerFinish(s, task, result), config, world)
  {
    var w, s' := s.tasks[task], AfterWorkerFinish(s, task, result);
    if Tracked(s, w.session, w.schedule) {
      CurrentWorkerFinish(s, s', w, config, task, result, world);
    } else {
      WorkerRuns(s, config, task, world);
      DoneStays(s.futures, w.phase.completions, None);
      assert TaskOk(task, s);
      OrphanKeepsInv(s, s', task, config, world);
    }
  }

  /** A preserved task carries an item whose futures wait exactly while its schedule is tracked. */
  lemma PreservedRuns(s: State, config: Config, task: Id, world: World)
    requires Inv(s, config, world)
    requires task in s.tasks && s.tasks[task].Preserving?
    ensures var t := s.tasks[task];
            if Tracked(s, t.session, t.schedule) then
              && task in s.sessions[t.session].preserved && s.sessions[t.session].preserved[task] == t.item
              && (forall f :: f in t.item.completions ==> f in s.futures && s.futures[f] == Waiting(t.session))
            else forall f :: f in t.item.completions ==> f in s.futures && s.futures[f].Done?
  {
    var t := s.tasks[task];
    assert TaskOk(task, s);
    if Tracked(s, t.session, t.schedule) {
      var sch := s.sessions[t.session];
      assert ScheduleOk(t.session, sch, s, world);
      assert At(sch, PreservedSlot(task)) == Some(t.item);
      assert ItemOk(t.item, PreservedSlot(task), t.session, s, world);
    }
  }

  lemma PreservedRemoved(session: string, sch: Schedule, task: Id, s: State, s': State)
    requires WorkerOk(session, sch, s) && PreservedOk(session, sch, s)
    requires task in s.tasks && s.tasks[task].Preserving? && s'.tasks == s.tasks - {task}
    ensures var sch' := sch.(preserved := sch.preserved - {task});
            && (forall x :: At(sch', x) == if x == PreservedSlot(task) then None else At(sch, x))
            && (Idle(sch') || (WorkerOk(session, sch', s') && PreservedOk(session, sch', s')))
  {
  }

  lemma CurrentPreservedFinish(s: State, s': State, t: Task, config: Config, task: Id, result: Option<Reaction>, world: World)
    requires Inv(s, config, world)
    requires task in s.tasks && s.tasks[task] == t && t.Preserving? && Tracked(s, t.session, t.schedule)
    requires s' == AfterPreservedFinish(s, task, result)
    ensures Inv(s', config, world)
  {
    PreservedRuns(s, config, task, world);
    var sch := s.sessions[t.session];
    var sch' := sch.(preserved := sch.preserved - {task});
    assert WorkerOk(t.session, sch, s) && PreservedOk(t.session, sch, s) by {
      assert ScheduleOk(t.session, sch, s, world);
    }
    PreservedRemoved(t.session, sch, task, s, s');
    assert At(sch, PreservedSlot(task)) == Some(t.item);
    FinishReleases(s, s', t.session, task, PreservedSlot(task), sch', t.item.completions, result);
    ReleaseKeepsInv(s, s', t.session, task, Some(PreservedSlot(task)), sch', config, world);
  }

  lemma PreservedFinishKeepsInv(s: State, config: Config, task: Id, result: Option<Reaction>, world: World)
    requires Inv(s, config, world)
    requires task in s.tasks && s.tasks[task].Preserving?
    ensures Inv(AfterPreservedFinish(s, task, result), config, world)
  {
    var t, s' := s.tasks[task], AfterPreservedFinish(s, task, result);
    if Tracked(s, t.session, t.schedule) {
      CurrentPreservedFinish(s, s', t, config, task, result, world);
    } else {
      PreservedRuns(s, config, task, world);
      DoneStays(s.futures, t.item.completions, None);
      OrphanKeepsInv(s, s', task, config, world);
    }
  }

  lemma HoldsIff(sch: Schedule, f: Id)
    ensures Holds(sch, f) <==> Owned(sch, f)
  {
    if Owned(sch, f) {
      var slot :| Owns(sch, slot, f);
    }
    assert sch.pending.Some? && f in sch.pending.value.completions ==> Owns(sch, PendingSlot, f);
    assert sch.running.Some? && f in sch.running.value.completions ==> Owns(sch, RunningSlot, f);
    if t :| t in sch.preserved && f in sch.preserved[t].completions {
      assert Owns(sch, PreservedSlot(t), f);
    }
  }

  /** After a cancellation no future of the session is waiting; other sessions' are untouched. */
  lemma CancelledFutures(s: State, config: Config, session: string, world: World)
    requires Inv(s, config, world) && session in s.sessions
    ensures var s' := AfterCancel(s, session);
            && (forall f :: f in s'.futures <==> f in s.futures)
            && (forall f :: f in s.futures && s.futures[f] == Waiting(session) ==> s'.futures[f] == Done(session, None))
            && (forall f :: f in s.futures && s.futures[f] != Waiting(session) ==> s'.futures[f] == s.futures[f])
  {
    var s' := AfterCancel(s, session);
    FreshIds(s, config, world);
    forall f | f in s.futures
      ensures s.futures[f] == Waiting(session) ==> s'.futures[f] == Done(session, None)
      ensures s.futures[f] != Waiting(session) ==> s'.futures[f] == s.futures[f]
    {
      assert FutureOk(f, s);
      HoldsIff(s.sessions[session], f);
    }
  }

  /** s' is s without one session, whose futures are done. */
  ghost predicate Cancelled(s: State, s': State, session: string) {
    && s'.sessions == s.sessions - {session} && s'.tasks == s.tasks && s'.next == s.next
    && (forall f :: f in s'.futures <==> f in s.futures)
    && (forall f :: f in s.futures && s.futures[f] == Waiting(session) ==> s'.futures[f] == Done(session, None))
    && (forall f :: f in s.futures && s.futures[f] != Waiting(session) ==> s'.futures[f] == s.futures[f])
  }

  lemma CarriedFutures(s: State, config: Config, t: Id, world: World)
    requires Inv(s, config, world) && t in s.tasks
    ensures forall f :: f in Carried(s.tasks[t]) ==> f in s.futures
    ensures Tracked(s, s.tasks[t].session, s.tasks[t].schedule)
            ==> forall f :: f in Carried(s.tasks[t]) ==> s.futures[f] == Waiting(s.tasks[t].session)
  {
    if s.tasks[t].Preserving? {
      PreservedRuns(s, config, t, world);
    } else if s.tasks[t].phase.Executing? {
      WorkerRuns(s, config, t, world);
    }
  }

  lemma CancelledTask(s: State, s': State, session: string, t: Id)
    requires Cancelled(s, s', session)
    requires t in s.tasks && TaskOk(t, s)
    requires forall f :: f in Carried(s.tasks[t]) ==> f in s.futures
    requires Tracked(s, s.tasks[t].session, s.tasks[t].schedule)
             ==> forall f :: f in Carried(s.tasks[t]) ==> s.futures[f] == Waiting(s.tasks[t].session)
    ensures TaskOk(t, s')
  {
  }

  lemma CancelledSessionOk(s: State, s': State, config: Config, session: string, world: World)
    requires Inv(s, config, world) && Cancelled(s, s', session)
    ensures SessionOk(s', session, world)
  {
    forall f | f in s'.futures && s'.futures[f].session == session
      ensures FutureOk(f, s')
    {
      assert FutureOk(f, s);
    }
    forall t | t in s'.tasks
      ensures TaskOk(t, s')
    {
      assert TaskOk(t, s);
      CarriedFutures(s, config, t, world);
      CancelledTask(s, s', session, t);
    }
  }

  lemma CancelKeepsInv(s: State, config: Config, session: string, world: World)
    requires Inv(s, config, world)
    ensures Inv(AfterCancel(s, session), config, world)
  {
    if session in s.sessions {
      var s' := AfterCancel(s, session);
      CancelledFutures(s, config, session, world);
      CancelledSessionOk(s, s', config, session, world);
      assert s'.sessions.Keys == s.sessions.Keys - {session};
      LocalStep(s, s', session, config, world);
    }
  }

  // ---------------------------------------------------------------------------------------
  // Whole runs
  // ---------------------------------------------------------------------------------------

  lemma StepKeepsInv(s: State, config: Config, step: Step, world: World)
    requires Inv(s, config, world) && Enabled(s, step, world)
    ensures Inv(After(s, config, step, world), config, world)
  {
    match step
    case Submit(sub) => SubmitKeepsInv(s, config, sub, world);
    case WorkerTurn(t) => WorkerTurnKeepsInv(s, config, t, world);
    case WorkerFinish(t, r) => WorkerFinishKeepsInv(s, config, t, r, world);
    case PreservedFinish(t, r) => PreservedFinishKeepsInv(s, config, t, r, world);
    case CancelSession(session) => CancelKeepsInv(s, config, session, world);
    case Abandon(t) => OrphanKeepsInv(s, s.(tasks := s.tasks - {t}), t, config, world);
  }

  /** Every step is enabled and leads from its state to the next. */
  ghost predicate IsPath(states: seq<State>, steps: seq<Step>, config: Config, world: World) {
    && |states| == |steps| + 1
    && (steps != [] ==>
          var n := |steps| - 1;
          && IsPath(states[..n + 1], steps[..n], config, world)
          && Enabled(states[n], steps[n], world) && states[n + 1] == After(states[n], config, steps[n], world))
  }

  /** A run starts with the empty scheduler. */
  ghost predicate IsRun(states: seq<State>, steps: seq<Step>, config: Config, world: World) {
    IsPath(states, steps, config, world) && states[0] == INITIAL
  }

  lemma {:induction false} PathPrefix(states: seq<State>, steps: seq<Step>, config: Config, world: World, k: nat)
    requires IsPath(states, steps, config, world) && k <= |steps|
    ensures IsPath(states[..k + 1], steps[..k], config, world)
    decreases |steps|
  {
    if k == |steps| {
      assert states[..k + 1] == states && steps[..k] == steps;
    } else {
      var n := |steps| - 1;
      PathPrefix(states[..n + 1], steps[..n], config, world, k);
      assert states[..n + 1][..k + 1] == states[..k + 1] && steps[..n][..k] == steps[..k];
    }
  }

  lemma {:induction false} PathKeepsInv(states: seq<State>, steps: seq<Step>, config: Config, world: World, i: nat)
    requires IsPath(states, steps, config, world) && Inv(states[0], config, world) && i < |states|
    ensures Inv(states[i], config, world)
    decreases |steps|
  {
    if steps != [] {
      var n := |steps| - 1;
      PathKeepsInv(states[..n + 1], steps[..n], config, world, if i <= n then i else n);
      if i == n + 1 {
        StepKeepsInv(states[n], config, steps[n], world);
      }
    }
  }

  lemma StartsInv(config: Config, world: World)
    ensures Inv(INITIAL, config, world)
  {
  }

  /** Every state of every run satisfies the invariant. */
  lemma RunsKeepInv(states: seq<State>, steps: seq<Step>, config: Config, world: World, i: nat)
    requires IsRun(states, steps, config, world) && i < |states|
    ensures Inv(states[i], config, world)
  {
    StartsInv(config, world);
    PathKeepsInv(states, steps, config, world, i);
  }
}
