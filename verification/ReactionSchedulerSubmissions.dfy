/** What a submit does, spelled out: whether its future waits, which others it gives up, and what the
    item that carries it holds. */
module ReactionSchedulerSubmissions {
  import opened Observations
  import opened ObservationMerging
  import opened ObservationContents
  import opened Options
  import opened ReactionScheduler
  import opened ReactionSchedulerSafety
  import opened ReactionSchedulerResults

  /** The newcomer ranks below what the session has pending, or is not ambient and ranks below what
      it runs. */
  ghost predicate Outranked(s: State, o: Observation) {
    && o.sessionId in s.sessions
    && var sch := s.sessions[o.sessionId];
       || (sch.pending.Some? && Rank(o) < Rank(sch.pending.value.observation))
       || (sch.running.Some? && !IsAmbient(o) && Rank(o) < Rank(sch.running.value.observation))
  }

  ghost predicate HasWorker(s: State, session: string) {
    session in s.sessions && s.sessions[session].worker.Some?
  }

  /** The submit is in time, and its session is known or may still be opened. */
  ghost predicate InTime(s: State, config: Config, sub: Submission) {
    && sub.checkedAtMs < sub.observation.createdAtMs + config.ttlMs
    && (sub.observation.sessionId in s.sessions || |s.sessions| < config.maxSessions)
  }

  /** The submit is admitted: nothing refuses it, and there is or starts a task to serve it. */
  ghost predicate Accepted(s: State, config: Config, sub: Submission) {
    && InTime(s, config, sub)
    && if Priority(sub.observation) == 3 then sub.starts
       else !Outranked(s, sub.observation) && (sub.starts || HasWorker(s, sub.observation.sessionId))
  }

  /** The pending item takes the newcomer in: both are of one priority, both or neither ambient, both
      or neither screen-only, and the newcomer comes within the item's merge window. */
  ghost predicate TakesIn(p: Item, sub: Submission) {
    && Priority(sub.observation) == Priority(p.observation)
    && IsAmbient(sub.observation) == IsAmbient(p.observation)
    && IsScreenOnly(sub.observation) == IsScreenOnly(p.observation)
    && p.mergeWindowMs > 0 && sub.nowMs < p.mergeDeadlineMs
    && sub.observation.createdAtMs < p.observation.createdAtMs + p.mergeWindowMs
  }

  ghost function PendingOf(s: State, session: string): Option<Item> {
    if session in s.sessions then s.sessions[session].pending else None
  }

  /** In every reachable state, a submit whose schedule the session finds. */
  lemma FoundPending(s: State, config: Config, sub: Submission, world: World)
    requires Inv(s, config, world) && Priority(sub.observation) != 3
    ensures var sch := CurrentSchedule(s, sub.observation.sessionId, s.next + 3);
            && sch.pending == PendingOf(s, sub.observation.sessionId)
            && (Drops(sub.observation, sch) <==> Outranked(s, sub.observation))
            && (sch.worker.Some? <==> HasWorker(s, sub.observation.sessionId))
            && (sch.worker.None? ==> sch.pending.None?)
            && (sch.pending.Some? ==>
                  && sch.pending.value.completions != []
                  && sch.pending.value.observation.sessionId == sub.observation.sessionId
                  && Mergeable(sch.pending.value.observation, world)
                  && (Joins(sub, sch) <==> TakesIn(sch.pending.value, sub)))
  {
    var o := sub.observation;
    if o.sessionId in s.sessions {
      var sch := s.sessions[o.sessionId];
      assert ScheduleOk(o.sessionId, sch, s, world);
      assert At(sch, PendingSlot) == sch.pending;
      if sch.pending.Some? {
        assert ItemOk(sch.pending.value, PendingSlot, o.sessionId, s, world);
        JoinsIff(sub, sch);
      }
    }
  }

  lemma JoinsIff(sub: Submission, sch: Schedule)
    requires sch.pending.Some? && Priority(sch.pending.value.observation) != 3 && Priority(sub.observation) != 3
    requires sch.pending.value.observation.sessionId == sub.observation.sessionId
    ensures Joins(sub, sch) <==> TakesIn(sch.pending.value, sub)
  {
    if Joins(sub, sch) {
      JoinsMerge(sch.pending.value.observation, sub.observation);
    }
  }

  /** Where the newcomer's future is kept. */
  ghost function SlotOf(s: State, sub: Submission): Slot {
    if Priority(sub.observation) == 3 then PreservedSlot(s.next + 2) else PendingSlot
  }

  lemma RankedResult(s: State, config: Config, sub: Submission, sch: Schedule)
    requires Priority(sub.observation) != 3 && sch == CurrentSchedule(s, sub.observation.sessionId, s.next + 3)
    ensures var o, entered := sub.observation, Entered(s, sub.observation);
            AfterSubmit(s, config, sub) ==
            if !InTime(s, config, sub) || Drops(o, sch) then Rejected(entered, s.next)
            else AfterRankedSubmit(entered, config, sub, if Supersedes(o, sch) then MarkSuperseded(sch) else sch, s.next)
  {
  }

  lemma UserResult(s: State, config: Config, sub: Submission)
    requires Priority(sub.observation) == 3
    ensures var entered := Entered(s, sub.observation);
            AfterSubmit(s, config, sub) ==
            if !InTime(s, config, sub) then Rejected(entered, s.next)
            else AfterUserSubmit(entered, sub, CurrentSchedule(s, sub.observation.sessionId, s.next + 3), s.next)
  {
  }

  lemma RankedRefused(s: State, config: Config, sub: Submission, sch: Schedule, completion: Id)
    requires sch.worker.None? && sch.pending.None? && !sub.starts
    ensures AfterRankedSubmit(s, config, sub, sch, completion) == Rejected(s, completion)
  {
  }

  lemma RankedWaits(s: State, config: Config, sub: Submission, sch: Schedule, completion: Id)
    requires completion in s.futures && s.futures[completion].Waiting? && (sch.worker.Some? || sub.starts)
    requires sch.pending.Some? ==> completion !in sch.pending.value.completions
    ensures completion in AfterRankedSubmit(s, config, sub, sch, completion).futures
    ensures AfterRankedSubmit(s, config, sub, sch, completion).futures[completion] == s.futures[completion]
  {
  }

  /** The newcomer's future is new to what the session has pending. */
  lemma NewToPending(s: State, config: Config, session: string, world: World)
    requires Inv(s, config, world)
    ensures PendingOf(s, session).Some? ==> s.next !in PendingOf(s, session).value.completions
  {
    FreshIds(s, config, world);
    assert PendingOf(s, session).Some? ==> !Owns(s.sessions[session], PendingSlot, s.next);
  }

  /** Whether a submit's future waits. A refused submit gets nothing and changes nothing else. */
  lemma SubmitWaitsIff(s: State, config: Config, sub: Submission, world: World)
    requires Inv(s, config, world) && Mergeable(sub.observation, world)
    ensures var s' := AfterSubmit(s, config, sub);
            && s.next in s'.futures
            && (Accepted(s, config, sub) ==> s'.futures[s.next] == Waiting(sub.observation.sessionId))
            && (!Accepted(s, config, sub) ==>
                  && s'.futures[s.next] == Done(sub.observation.sessionId, None)
                  && s'.sessions == s.sessions && s'.tasks == s.tasks)
  {
    if Priority(sub.observation) == 3 {
      UserResult(s, config, sub);
    } else {
      RankedWaitsIff(s, config, sub, world);
    }
  }

  lemma RankedWaitsIff(s: State, config: Config, sub: Submission, world: World)
    requires Inv(s, config, world) && Priority(sub.observation) != 3
    ensures var s' := AfterSubmit(s, config, sub);
            && s.next in s'.futures
            && (Accepted(s, config, sub) ==> s'.futures[s.next] == Waiting(sub.observation.sessionId))
            && (!Accepted(s, config, sub) ==>
                  && s'.futures[s.next] == Done(sub.observation.sessionId, None)
                  && s'.sessions == s.sessions && s'.tasks == s.tasks)
  {
    var o, entered := sub.observation, Entered(s, sub.observation);
    var sch := CurrentSchedule(s, o.sessionId, s.next + 3);
    FoundPending(s, config, sub, world);
    NewToPending(s, config, o.sessionId, world);
    RankedResult(s, config, sub, sch);
    if InTime(s, config, sub) && !Drops(o, sch) {
      RankedCase(s, config, sub, sch);
    }
  }

  /** A ranked submit that is neither late nor outranked. */
  lemma RankedCase(s: State, config: Config, sub: Submission, sch: Schedule)
    requires sch.worker.None? ==> sch.pending.None?
    requires sch.pending.Some? ==> s.next !in sch.pending.value.completions
    ensures var o, entered := sub.observation, Entered(s, sub.observation);
            var s' := AfterRankedSubmit(entered, config, sub, if Supersedes(o, sch) then MarkSuperseded(sch) else sch, s.next);
            && s.next in s'.futures
            && (if sch.worker.Some? || sub.starts then s'.futures[s.next] == Waiting(o.sessionId)
                else s'.futures[s.next] == Done(o.sessionId, None) && s'.sessions == s.sessions && s'.tasks == s.tasks)
  {
    var o, entered := sub.observation, Entered(s, sub.observation);
    var marked := if Supersedes(o, sch) then MarkSuperseded(sch) else sch;
    if sch.worker.Some? || sub.starts {
      RankedWaits(entered, config, sub, marked, s.next);
    } else {
      RankedRefused(entered, config, sub, marked, s.next);
    }
  }

  // ---------------------------------------------------------------------------------------
  // Other futures
  // ---------------------------------------------------------------------------------------

  /** The futures of the session's pending item that an admitted newcomer below priority 3 gives up:
      all of them if it takes the item's place; if it is taken in, none, or the oldest when the item
      is full. */
  ghost predicate GivenUp(s: State, config: Config, sub: Submission, f: Id) {
    && Accepted(s, config, sub) && Priority(sub.observation) != 3 && PendingOf(s, sub.observation.sessionId).Some?
    && var p := PendingOf(s, sub.observation.sessionId).value;
       f in p.completions && (TakesIn(p, sub) ==> |p.completions| >= config.maxPending && f == p.completions[0])
  }

  /** A submit resolves to nothing the futures it gives up and leaves all others as they are. */
  lemma SubmitGivesUp(s: State, config: Config, sub: Submission, world: World, f: Id)
    requires Inv(s, config, world) && Mergeable(sub.observation, world) && f in s.futures
    ensures var s' := AfterSubmit(s, config, sub);
            && f in s'.futures
            && (GivenUp(s, config, sub, f) ==> s.futures[f].Waiting? && s'.futures[f] == Done(s.futures[f].session, None))
            && (!GivenUp(s, config, sub, f) ==> s'.futures[f] == s.futures[f])
  {
    assert FutureOk(f, s);
    if Priority(sub.observation) == 3 {
      UserResult(s, config, sub);
    } else {
      RankedSubmitGivesUp(s, config, sub, world, f);
    }
  }

  lemma RankedSubmitGivesUp(s: State, config: Config, sub: Submission, world: World, f: Id)
    requires Inv(s, config, world) && Priority(sub.observation) != 3 && f in s.futures && f < s.next
    ensures var s' := AfterSubmit(s, config, sub);
            && f in s'.futures
            && (GivenUp(s, config, sub, f) ==> s.futures[f].Waiting?)
            && s'.futures[f] == if GivenUp(s, config, sub, f) then Done(s.futures[f].session, None) else s.futures[f]
  {
    var sch := CurrentSchedule(s, sub.observation.sessionId, s.next + 3);
    FoundPending(s, config, sub, world);
    RankedResult(s, config, sub, sch);
    if sch.pending.Some? && f in sch.pending.value.completions {
      PendingWaits(s, config, sub.observation.sessionId, world, f);
    }
    if InTime(s, config, sub) && !Drops(sub.observation, sch) {
      RankedGivesUp(s, config, sub, sch, f);
    }
  }

  lemma PendingWaits(s: State, config: Config, session: string, world: World, f: Id)
    requires Inv(s, config, world) && PendingOf(s, session).Some? && f in PendingOf(s, session).value.completions
    ensures f in s.futures && s.futures[f] == Waiting(session)
  {
    FreshIds(s, config, world);
    assert Owns(s.sessions[session], PendingSlot, f);
  }

  lemma RankedGivesUp(s: State, config: Config, sub: Submission, sch: Schedule, f: Id)
    requires f in s.futures && f != s.next && (sch.worker.None? ==> sch.pending.None?)
    requires sch.pending.Some? ==> sch.pending.value.completions != [] && (Joins(sub, sch) <==> TakesIn(sch.pending.value, sub))
    requires sch.pending.Some? && f in sch.pending.value.completions ==> s.futures[f].Waiting?
    ensures var o, entered := sub.observation, Entered(s, sub.observation);
            var s' := AfterRankedSubmit(entered, config, sub, if Supersedes(o, sch) then MarkSuperseded(sch) else sch, s.next);
            var up := sch.pending.Some? && f in sch.pending.value.completions
                      && (TakesIn(sch.pending.value, sub) ==> |sch.pending.value.completions| >= config.maxPending && f == sch.pending.value.completions[0]);
            && f in s'.futures
            && s'.futures[f] == if up then Done(s.futures[f].session, None) else s.futures[f]
  {
    var marked := if Supersedes(sub.observation, sch) then MarkSuperseded(sch) else sch;
    assert Joins(sub, marked) <==> Joins(sub, sch);
    if sch.pending.Some? {
      var p := sch.pending.value;
      assert f in Displaced(p, config) <==> |p.completions| >= config.maxPending && f == p.completions[0];
    }
  }

  // ---------------------------------------------------------------------------------------
  // What is kept for the newcomer
  // ---------------------------------------------------------------------------------------

  /** The item holds just this submit, under the ids the submit drew. */
  ghost predicate Opens(item: Item, sub: Submission, completion: Id) {
    match item
    case Item(id, observation, completions, mergeWindowMs, mergeDeadlineMs, superseded) =>
      && id == completion + 1 && observation == sub.observation && completions == [completion]
      && mergeWindowMs == sub.mergeWindowMs && mergeDeadlineMs == sub.nowMs + sub.mergeWindowMs && !superseded
  }

  /** The item is p with the newcomer merged in: it keeps p's identity and merge window, gains the
      newcomer's future, perhaps for the oldest of p's, and contains both observations. */
  ghost predicate Takes(item: Item, p: Item, config: Config, sub: Submission, completion: Id) {
    match item
    case Item(id, observation, completions, mergeWindowMs, mergeDeadlineMs, superseded) =>
      && id == p.id && mergeWindowMs == p.mergeWindowMs && mergeDeadlineMs == p.mergeDeadlineMs && superseded == p.superseded
      && completions == (if p.completions != [] && |p.completions| >= config.maxPending then p.completions[1..] else p.completions) + [completion]
      && Contains(observation, p.observation, sub.observation)
  }

  /** What the session has pending after an admitted submit below priority 3: the item it had, with
      the newcomer merged in, or a new item for the newcomer; a session without a worker gets one. */
  lemma RankedSubmitStores(s: State, config: Config, sub: Submission, world: World)
    requires Inv(s, config, world) && Mergeable(sub.observation, world)
    requires Accepted(s, config, sub) && Priority(sub.observation) != 3
    ensures var session, before, s' := sub.observation.sessionId, PendingOf(s, sub.observation.sessionId), AfterSubmit(s, config, sub);
            var now := PendingOf(s', session);
            && now.Some?
            && (before.Some? && TakesIn(before.value, sub) ==> Takes(now.value, before.value, config, sub, s.next))
            && (!(before.Some? && TakesIn(before.value, sub)) ==> Opens(now.value, sub, s.next))
    ensures var session, s' := sub.observation.sessionId, AfterSubmit(s, config, sub);
            && session in s'.sessions
            && if HasWorker(s, session) then s'.tasks == s.tasks && s'.sessions[session].worker == s.sessions[session].worker
               else s'.sessions[session].worker == Some(s.next + 2)
                    && s'.tasks == s.tasks[s.next + 2 := Worker(session, s'.sessions[session].ident, Top)]
  {
    var sch := CurrentSchedule(s, sub.observation.sessionId, s.next + 3);
    FoundPending(s, config, sub, world);
    RankedResult(s, config, sub, sch);
    if sch.pending.Some? {
      MergeContains(sch.pending.value.observation, sub.observation, world);
    }
    RankedKeeps(Entered(s, sub.observation), config, sub, sch, if Supersedes(sub.observation, sch) then MarkSuperseded(sch) else sch, s.next);
  }

  lemma RankedKeeps(s: State, config: Config, sub: Submission, sch: Schedule, marked: Schedule, completion: Id)
    requires marked == sch || (sch.running.Some? && marked == MarkSuperseded(sch))
    requires sch.worker.Some? || sub.starts
    requires sch.worker.None? ==> sch.pending.None?
    requires sch.pending.Some? ==>
      && sch.pending.value.completions != [] && sch.pending.value.observation.sessionId == sub.observation.sessionId
      && Contains(Merge(sch.pending.value.observation, sub.observation), sch.pending.value.observation, sub.observation)
      && (Joins(sub, sch) <==> TakesIn(sch.pending.value, sub))
    ensures var session, s' := sub.observation.sessionId, AfterRankedSubmit(s, config, sub, marked, completion);
            && session in s'.sessions
            && var sch' := s'.sessions[session];
               && sch'.pending.Some?
               && (sch.pending.Some? && TakesIn(sch.pending.value, sub) ==> Takes(sch'.pending.value, sch.pending.value, config, sub, completion))
               && (!(sch.pending.Some? && TakesIn(sch.pending.value, sub)) ==> Opens(sch'.pending.value, sub, completion))
               && (if sch.worker.Some? then s'.tasks == s.tasks && sch'.worker == sch.worker
                   else sch'.worker == Some(completion + 2) && s'.tasks == s.tasks[completion + 2 := Worker(session, sch'.ident, Top)])
  {
    assert Joins(sub, marked) <==> Joins(sub, sch);
    if sch.pending.Some? && TakesIn(sch.pending.value, sub) {
      TakenIn(sub, sch.pending.value, config, completion);
    }
  }

  lemma TakenIn(sub: Submission, p: Item, config: Config, completion: Id)
    requires p.completions != [] && p.observation.sessionId == sub.observation.sessionId
    requires Contains(Merge(p.observation, sub.observation), p.observation, sub.observation)
    ensures Takes(Joined(sub, p, config, completion), p, config, sub, completion)
  {
  }

  /** Admitted user input gets an item and a task of its own; what the session has pending, running
      and preserved stays as it is. */
  lemma UserSubmitStoresOwn(s: State, config: Config, sub: Submission)
    requires Accepted(s, config, sub) && Priority(sub.observation) == 3
    ensures var session, task, s' := sub.observation.sessionId, s.next + 2, AfterSubmit(s, config, sub);
            && session in s'.sessions
            && var sch' := s'.sessions[session];
               && task in sch'.preserved && Opens(sch'.preserved[task], sub, s.next)
               && s'.tasks == s.tasks[task := Preserving(session, sch'.ident, sch'.preserved[task])]
               && (session in s.sessions ==>
                     sch' == s.sessions[session].(preserved := s.sessions[session].preserved[task := sch'.preserved[task]]))
  {
    UserResult(s, config, sub);
  }
}
