/** Coordinated turns are scheduled at most once, and only as complete as they claim to be. */
module CoordinatedTurnsProofs {
  import opened CoordinatedTurns
  import opened Options

  // ---------------------------------------------------------------------------------------
  // Fields
  // ---------------------------------------------------------------------------------------

  lemma FieldsStay(s: State, s': State, log: seq<Entry>, e: Entry)
    requires FieldsInv(s, log) && s'.objects == s.objects && (e.WasScheduled? || e.WasDiscarded?)
    ensures FieldsInv(s', log + [e])
  {
    forall o: nat
      ensures FieldsAgree(TurnAt(s', o), log + [e], o)
    {
      Extended(log, e, o);
      assert TurnAt(s', o) == TurnAt(s, o);
    }
  }

  lemma FieldsChange(s: State, s': State, log: seq<Entry>, e: Entry)
    requires FieldsInv(s, log) && (e.WasCommitted? || e.WasCompleted?)
    requires forall x: nat :: x != e.number ==> TurnAt(s', x) == TurnAt(s, x)
    requires FieldsAgree(TurnAt(s', e.number), log + [e], e.number)
    ensures FieldsInv(s', log + [e])
  {
    forall o: nat
      ensures FieldsAgree(TurnAt(s', o), log + [e], o)
    {
      if o != e.number {
        Extended(log, e, o);
      }
    }
  }

  lemma RegisteredAgrees(turn: Turn, log: seq<Entry>, id: string, o: nat, source: Source, required: bool, endedAtMs: int)
    requires FieldsAgree(turn, log, o)
    ensures FieldsAgree(Registered(turn, source, required, endedAtMs), log + [WasCommitted(id, o, source, required)], o)
  {
    Extended(log, WasCommitted(id, o, source, required), o);
  }

  /** turn' is what the transcript makes of turn, apart from the tasks. */
  lemma CompletedAgrees(turn: Turn, turn': Turn, log: seq<Entry>, e: Entry)
    requires e.WasCompleted? && FieldsAgree(turn, log, e.number) && e.source in turn.committed
    requires turn' == Completed(turn, e.source, e.eventId, e.target).(timeoutTask := turn'.timeoutTask, scheduleTask := turn'.scheduleTask)
    ensures FieldsAgree(turn', log + [e], e.number)
  {
    Extended(log, e, e.number);
  }

  // ---------------------------------------------------------------------------------------
  // Ends
  // ---------------------------------------------------------------------------------------

  lemma EndsStay(s: State, s': State, log: seq<Entry>, e: Entry)
    requires EndsInv(s, log) && s'.turns == s.turns && |s'.objects| == |s.objects| && (e.WasCommitted? || e.WasCompleted?)
    ensures EndsInv(s', log + [e])
  {
    forall o: nat
      ensures EndsOf(log + [e], o) == EndsOf(log, o)
    {
      Extended(log, e, o);
    }
  }

  lemma EndsWithNew(s: State, s': State, log: seq<Entry>, e: Entry, id: string)
    requires EndsInv(s, log) && id !in s.turns && s'.turns == s.turns[id := |s.objects|] && |s'.objects| == |s.objects| + 1
    requires e.WasCommitted?
    ensures EndsInv(s', log + [e])
  {
    forall o: nat
      ensures EndsOf(log + [e], o) == EndsOf(log, o)
    {
      Extended(log, e, o);
    }
  }

  lemma EndsWithout(s: State, s': State, log: seq<Entry>, e: Entry, id: string)
    requires EndsInv(s, log) && id in s.turns && s'.turns == s.turns - {id} && s'.objects == s.objects
    requires (e.WasScheduled? || e.WasDiscarded?) && e.number == s.turns[id]
    ensures EndsInv(s', log + [e])
  {
    forall o: nat
      ensures EndsOf(log + [e], o) == EndsOf(log, o) + if o == s.turns[id] then 1 else 0
    {
      Extended(log, e, o);
    }
  }

  // ---------------------------------------------------------------------------------------
  // Recommits
  // ---------------------------------------------------------------------------------------

  lemma CommitsGrow(s: State, s': State, log: seq<Entry>, e: Entry, o: nat)
    requires CommitsInv(s, log) && |s.objects| <= |s'.objects| && (e.WasCommitted? ==> e.number < |s'.objects|)
    requires forall x: nat :: x < |s.objects| && x != o ==> s'.objects[x].committed == s.objects[x].committed
    requires forall id :: id in s'.turns && s'.turns[id] != o ==> id in s.turns && s'.turns[id] == s.turns[id]
    requires forall id :: id in s'.turns ==> s'.turns[id] < |s.objects| || s'.turns[id] == o
    requires forall id, source :: id in s'.turns && s'.turns[id] == o && o < |s'.objects| && source in s'.objects[o].committed ==>
      || (id in s.turns && s.turns[id] == o && o < |s.objects| && source in s.objects[o].committed)
      || (e.WasCommitted? && e.turnId == id && e.number == o && e.source == source)
    ensures CommitsInv(s', log + [e])
  {
    forall id, source | id in s'.turns && s'.turns[id] < |s'.objects| && source in s'.objects[s'.turns[id]].committed
      ensures exists k: nat :: CommittedAt(log + [e], k, id, s'.turns[id], source)
    {
      if id in s.turns && s.turns[id] == s'.turns[id] < |s.objects| && source in s.objects[s.turns[id]].committed {
        var k: nat :| CommittedAt(log, k, id, s.turns[id], source);
        assert CommittedAt(log + [e], k, id, s'.turns[id], source);
      } else {
        assert CommittedAt(log + [e], |log|, id, s'.turns[id], source);
      }
    }
  }

  lemma CommitsSubset(s: State, s': State, log: seq<Entry>, e: Entry)
    requires CommitsInv(s, log) && s'.objects == s.objects && !e.WasCommitted?
    requires forall id :: id in s'.turns ==> id in s.turns && s'.turns[id] == s.turns[id]
    ensures CommitsInv(s', log + [e])
  {
    forall id, source | id in s'.turns && s'.turns[id] < |s'.objects| && source in s'.objects[s'.turns[id]].committed
      ensures exists k: nat :: CommittedAt(log + [e], k, id, s'.turns[id], source)
    {
      var k: nat :| CommittedAt(log, k, id, s.turns[id], source);
      assert CommittedAt(log + [e], k, id, s'.turns[id], source);
    }
  }

  lemma RecommitsStay(s: State, s': State, log: seq<Entry>, e: Entry)
    requires RecommitInv(s, log) && (e.WasScheduled? ==> e.turnId !in s'.turns)
    requires forall id :: id in s'.turns ==> id in s.turns && s'.turns[id] == s.turns[id]
    ensures RecommitInv(s', log + [e])
  {
  }

  lemma RecommitsWithNew(s: State, s': State, log: seq<Entry>, e: Entry, id: string)
    requires RecommitInv(s, log) && CommitsInv(s, log) && e.WasCommitted?
    requires s'.turns == s.turns[id := |s.objects|]
    ensures RecommitInv(s', log + [e])
  {
  }

  // ---------------------------------------------------------------------------------------
  // Tasks
  // ---------------------------------------------------------------------------------------

  lemma TasksWithNew(s: State, s': State, id: string, turn: Turn)
    requires TasksInv(s) && id !in s.turns && TasksOf(turn) == {}
    requires s' == s.(turns := s.turns[id := |s.objects|], objects := s.objects + [turn])
    ensures TasksInv(s')
  {
    forall t | t in s'.tasks && Owned(s', s'.tasks[t])
      ensures JobFits(s'.objects[s'.tasks[t].number], t, s'.tasks[t])
    {
      assert Owned(s, s.tasks[t]);
    }
  }

  /** A turn's other fields may change in any way that keeps its tasks and what they stand for. */
  lemma TasksWithUpdate(s: State, s': State, o: nat, turn: Turn)
    requires TasksInv(s) && o < |s.objects| && s' == s.(objects := s.objects[o := turn])
    requires turn.timeoutTask == s.objects[o].timeoutTask && turn.scheduleTask == s.objects[o].scheduleTask
    requires s.objects[o].completed <= turn.completed
    requires Ready(s.objects[o]) ==> Ready(turn)
    requires Ready(turn) && !Ready(s.objects[o]) ==> turn.scheduleTask.Some?
    ensures TasksInv(s')
  {
    forall t | t in s'.tasks && Owned(s', s'.tasks[t])
      ensures JobFits(s'.objects[s'.tasks[t].number], t, s'.tasks[t])
    {
      assert Owned(s, s.tasks[t]);
    }
  }

  lemma TasksWithTimeout(s: State, s': State, id: string, turn: Turn)
    requires TasksInv(s) && id in s.turns && s.turns[id] < |s.objects|
    requires s' == s.(objects := s.objects[s.turns[id] := turn], tasks := s.tasks[s.nextTask := Job(Timeout, id, s.turns[id])],
                      nextTask := s.nextTask + 1)
    requires turn.timeoutTask == Some(s.nextTask) && s.objects[s.turns[id]].timeoutTask.None?
    requires turn.scheduleTask.None? && s.objects[s.turns[id]].scheduleTask.None?
    requires Microphone in turn.completed && !Ready(turn)
    ensures TasksInv(s')
  {
    forall t | t in s'.tasks && Owned(s', s'.tasks[t])
      ensures JobFits(s'.objects[s'.tasks[t].number], t, s'.tasks[t])
    {
      assert t != s.nextTask ==> Owned(s, s.tasks[t]);
    }
  }

  lemma TasksWithSchedule(s: State, s': State, id: string, turn: Turn)
    requires TasksInv(s) && id in s.turns && s.turns[id] < |s.objects|
    requires s' == s.(objects := s.objects[s.turns[id] := turn],
                      tasks := (s.tasks - OptionalSet(turn.timeoutTask))[s.nextTask := Job(Schedule, id, s.turns[id])],
                      nextTask := s.nextTask + 1)
    requires turn.scheduleTask == Some(s.nextTask) && s.objects[s.turns[id]].scheduleTask.None?
    requires turn.timeoutTask == s.objects[s.turns[id]].timeoutTask && Ready(turn)
    ensures TasksInv(s')
  {
    forall t | t in s'.tasks && Owned(s', s'.tasks[t])
      ensures JobFits(s'.objects[s'.tasks[t].number], t, s'.tasks[t])
    {
      assert t != s.nextTask ==> Owned(s, s.tasks[t]);
    }
  }

  /** Turns may leave the dictionary and tasks may end or be cancelled. */
  lemma TasksWithFewer(s: State, s': State)
    requires TasksInv(s) && s'.objects == s.objects && s'.nextTask == s.nextTask
    requires forall id :: id in s'.turns ==> id in s.turns && s'.turns[id] == s.turns[id]
    requires forall t :: t in s'.tasks ==> t in s.tasks && s'.tasks[t] == s.tasks[t]
    ensures TasksInv(s')
  {
    forall t | t in s'.tasks && Owned(s', s'.tasks[t])
      ensures JobFits(s'.objects[s'.tasks[t].number], t, s'.tasks[t])
    {
      assert Owned(s, s.tasks[t]);
    }
  }

  // ---------------------------------------------------------------------------------------
  // Steps
  // ---------------------------------------------------------------------------------------

  lemma FieldsWithNew(s: State, s': State, log: seq<Entry>, id: string, source: Source, required: bool, endedAtMs: int)
    requires FieldsInv(s, log) && s'.objects == s.objects + [Registered(NEW_TURN, source, required, endedAtMs)]
    ensures FieldsInv(s', log + [WasCommitted(id, |s.objects|, source, required)])
  {
    var o := |s.objects|;
    assert TurnAt(s, o) == NEW_TURN;
    RegisteredAgrees(NEW_TURN, log, id, o, source, required, endedAtMs);
    FieldsChange(s, s', log, WasCommitted(id, o, source, required));
  }

  lemma CommitNewKeeps(s: State, log: seq<Entry>, id: string, source: Source, required: bool, endedAtMs: int)
    requires Inv(s, log) && id !in s.turns
    ensures Inv(AfterCommit(s, id, source, required, endedAtMs), log + [WasCommitted(id, |s.objects|, source, required)])
  {
    var turn, o, e := Registered(NEW_TURN, source, required, endedAtMs), |s.objects|, WasCommitted(id, |s.objects|, source, required);
    var s' := s.(turns := s.turns[id := o], objects := s.objects + [turn]);
    FieldsWithNew(s, s', log, id, source, required, endedAtMs);
    EndsWithNew(s, s', log, e, id);
    TasksWithNew(s, s', id, turn);
    RecommitsWithNew(s, s', log, e, id);
    CommitsWithNew(s, s', log, id, source, required, turn);
  }

  lemma CommitsWithNew(s: State, s': State, log: seq<Entry>, id: string, source: Source, required: bool, turn: Turn)
    requires CommitsInv(s, log) && EndsInv(s, log) && id !in s.turns && turn.committed == {source}
    requires s' == s.(turns := s.turns[id := |s.objects|], objects := s.objects + [turn])
    ensures CommitsInv(s', log + [WasCommitted(id, |s.objects|, source, required)])
  {
    CommitsGrow(s, s', log, WasCommitted(id, |s.objects|, source, required), |s.objects|);
  }

  lemma CommitMoreKeeps(s: State, log: seq<Entry>, id: string, source: Source, required: bool, endedAtMs: int)
    requires Inv(s, log) && id in s.turns && s.turns[id] < |s.objects| && source !in s.objects[s.turns[id]].committed
    ensures Inv(AfterCommit(s, id, source, required, endedAtMs), log + [WasCommitted(id, s.turns[id], source, required)])
  {
    var o := s.turns[id];
    var turn, e := Registered(s.objects[o], source, required, endedAtMs), WasCommitted(id, o, source, required);
    var s' := s.(objects := s.objects[o := turn]);
    assert TurnAt(s, o) == s.objects[o];
    RegisteredAgrees(s.objects[o], log, id, o, source, required, endedAtMs);
    FieldsChange(s, s', log, e);
    EndsStay(s, s', log, e);
    TasksWithUpdate(s, s', o, turn);
    RecommitsStay(s, s', log, e);
    CommitsMore(s, s', log, id, source, required, turn);
  }

  lemma CommitsMore(s: State, s': State, log: seq<Entry>, id: string, source: Source, required: bool, turn: Turn)
    requires CommitsInv(s, log) && EndsInv(s, log) && id in s.turns && s.turns[id] < |s.objects|
    requires turn.committed == s.objects[s.turns[id]].committed + {source}
    requires s' == s.(objects := s.objects[s.turns[id] := turn])
    ensures CommitsInv(s', log + [WasCommitted(id, s.turns[id], source, required)])
  {
    CommitsGrow(s, s', log, WasCommitted(id, s.turns[id], source, required), s.turns[id]);
  }

  /** The parts of the invariant that a completed transcript keeps whatever becomes of its tasks. */
  lemma CompleteKeeps(s: State, s': State, log: seq<Entry>, id: string, e: Entry, turn: Turn)
    requires Inv(s, log) && e.WasCompleted? && id in s.turns && s.turns[id] == e.number < |s.objects| && e.source in s.objects[e.number].committed
    requires turn == Completed(s.objects[e.number], e.source, e.eventId, e.target).(timeoutTask := turn.timeoutTask, scheduleTask := turn.scheduleTask)
    requires s'.turns == s.turns && s'.objects == s.objects[e.number := turn] && TasksInv(s')
    ensures Inv(s', log + [e])
  {
    assert TurnAt(s, e.number) == s.objects[e.number];
    CompletedAgrees(s.objects[e.number], turn, log, e);
    FieldsChange(s, s', log, e);
    EndsStay(s, s', log, e);
    RecommitsStay(s, s', log, e);
    CommitsGrow(s, s', log, e, e.number);
  }

  /** Ending a turn keeps the invariant whatever becomes of its tasks. */
  lemma EndKeeps(s: State, s': State, log: seq<Entry>, e: Entry, id: string)
    requires Inv(s, log) && id in s.turns && s'.turns == s.turns - {id} && s'.objects == s.objects && TasksInv(s')
    requires (e.WasScheduled? && e.turnId == id) || e.WasDiscarded?
    requires e.number == s.turns[id]
    ensures Inv(s', log + [e])
  {
    FieldsStay(s, s', log, e);
    EndsWithout(s, s', log, e, id);
    RecommitsStay(s, s', log, e);
    CommitsSubset(s, s', log, e);
  }

  lemma DiscardKeeps(s: State, log: seq<Entry>, id: string)
    requires Inv(s, log) && id in s.turns && s.turns[id] < |s.objects|
    ensures Inv(AfterDiscard(s, id), log + [WasDiscarded(s.turns[id])])
  {
    var s' := AfterDiscard(s, id);
    TasksWithFewer(s, s');
    EndKeeps(s, s', log, WasDiscarded(s.turns[id]), id);
  }

  lemma FireKeeps(s: State, log: seq<Entry>, task: Task)
    requires Inv(s, log) && Passes(s, task)
    ensures Inv(AfterFire(s, task), log + Recorded(s, Fire(task)))
  {
    var job, s' := s.tasks[task], AfterFire(s, task);
    TasksWithFewer(s, s');
    EndKeeps(s, s', log, Recorded(s, Fire(task))[0], job.turnId);
  }

  /** Steps that record nothing keep every turn object and take no turn id over. */
  lemma SilentKeeps(s: State, s': State, log: seq<Entry>)
    requires Inv(s, log) && s'.objects == s.objects && s'.nextTask == s.nextTask
    requires forall id :: id in s'.turns ==> id in s.turns && s'.turns[id] == s.turns[id]
    requires forall t :: t in s'.tasks ==> t in s.tasks && s'.tasks[t] == s.tasks[t]
    ensures Inv(s', log)
  {
    TasksWithFewer(s, s');
    forall o: nat
      ensures TurnAt(s', o) == TurnAt(s, o)
    {
    }
  }

  lemma CompleteStep(s: State, log: seq<Entry>, step: Step)
    requires Inv(s, log) && step.Complete?
    ensures Inv(Next(s, step), log + Recorded(s, step))
  {
    var id := step.turnId;
    assert log + [] == log;
    if id in s.turns && s.turns[id] < |s.objects| {
      var o := s.turns[id];
      var s', done := Next(s, step), Completed(s.objects[o], step.source, step.eventId, step.target);
      match Judge(s.objects[o], step.source, step.eventId, step.textPresent, step.valid, step.target)
      case Ignore =>
      case Discard => DiscardKeeps(s, log, id);
      case Wait =>
        TasksWithUpdate(s, s', o, done);
        CompleteKeeps(s, s', log, id, Recorded(s, step)[0], done);
      case StartTimeout => TimeoutStep(s, log, step);
      case StartSchedule => ScheduleStep(s, log, step);
    }
  }

  lemma TimeoutStep(s: State, log: seq<Entry>, step: Step)
    requires Inv(s, log) && step.Complete? && step.turnId in s.turns && s.turns[step.turnId] < |s.objects|
    requires Judge(s.objects[s.turns[step.turnId]], step.source, step.eventId, step.textPresent, step.valid, step.target).StartTimeout?
    ensures Inv(Next(s, step), log + Recorded(s, step))
  {
    var o := s.turns[step.turnId];
    var turn := Completed(s.objects[o], step.source, step.eventId, step.target).(timeoutTask := Some(s.nextTask));
    assert s.objects[o].scheduleTask.None? by {
      assert Ready(s.objects[o]) ==> Ready(turn);
    }
    TasksWithTimeout(s, Next(s, step), step.turnId, turn);
    CompleteKeeps(s, Next(s, step), log, step.turnId, Recorded(s, step)[0], turn);
  }

  lemma ScheduleStep(s: State, log: seq<Entry>, step: Step)
    requires Inv(s, log) && step.Complete? && step.turnId in s.turns && s.turns[step.turnId] < |s.objects|
    requires Judge(s.objects[s.turns[step.turnId]], step.source, step.eventId, step.textPresent, step.valid, step.target).StartSchedule?
    ensures Inv(Next(s, step), log + Recorded(s, step))
  {
    var o := s.turns[step.turnId];
    var turn := Completed(s.objects[o], step.source, step.eventId, step.target).(scheduleTask := Some(s.nextTask));
    TasksWithSchedule(s, Next(s, step), step.turnId, turn);
    CompleteKeeps(s, Next(s, step), log, step.turnId, Recorded(s, step)[0], turn);
  }

  lemma CommitStep(s: State, log: seq<Entry>, step: Step)
    requires Inv(s, log) && step.Commit?
    ensures Inv(Next(s, step), log + Recorded(s, step))
  {
    assert log + [] == log;
    if step.turnId !in s.turns {
      CommitNewKeeps(s, log, step.turnId, step.source, step.required, step.endedAtMs);
    } else if s.turns[step.turnId] < |s.objects| && step.source !in s.objects[s.turns[step.turnId]].committed {
      CommitMoreKeeps(s, log, step.turnId, step.source, step.required, step.endedAtMs);
    }
  }

  lemma StepKeepsInv(s: State, log: seq<Entry>, step: Step)
    requires Inv(s, log)
    ensures Inv(Next(s, step), log + Recorded(s, step))
  {
    assert log + [] == log;
    match step
    case Commit(_, _, _, _) => CommitStep(s, log, step);
    case Complete(_, _, _, _, _, _) => CompleteStep(s, log, step);
    case DiscardTurn(id) =>
      if id in s.turns && s.turns[id] < |s.objects| {
        DiscardKeeps(s, log, id);
      }
    case Fire(task) =>
      if Passes(s, task) {
        FireKeeps(s, log, task);
      } else {
        SilentKeeps(s, Next(s, step), log);
      }
    case _ => SilentKeeps(s, Next(s, step), log);
  }

  lemma {:induction false} RunKeepsInv(run: seq<Step>)
    ensures Inv(After(run), History(run))
  {
    if run == [] {
      assert Inv(INITIAL, []);
    } else {
      RunKeepsInv(run[..|run| - 1]);
      StepKeepsInv(After(run[..|run| - 1]), History(run[..|run| - 1]), run[|run| - 1]);
    }
  }

  // ---------------------------------------------------------------------------------------
  // What a turn may rely on
  // ---------------------------------------------------------------------------------------

  ghost predicate EndsAt(log: seq<Entry>, i: nat, o: nat) {
    i < |log| && (log[i].WasScheduled? || log[i].WasDiscarded?) && log[i].number == o
  }

  lemma {:induction false} EndsCounted(log: seq<Entry>, i: nat, j: nat, o: nat)
    requires i < j && EndsAt(log, i, o) && EndsAt(log, j, o)
    ensures EndsOf(log, o) >= 2
  {
    var n := |log| - 1;
    if j < n {
      EndsCounted(log[..n], i, j, o);
    } else {
      EndCounted(log[..n], i, o);
    }
  }

  lemma {:induction false} EndCounted(log: seq<Entry>, i: nat, o: nat)
    requires EndsAt(log, i, o)
    ensures EndsOf(log, o) >= 1
  {
    if i < |log| - 1 {
      EndCounted(log[..|log| - 1], i, o);
    }
  }

  /** Under every interleaving, a turn is scheduled or discarded at most once: not scheduled twice,
      and not scheduled after it was discarded. */
  lemma TurnEndsOnce(run: seq<Step>, i: nat, j: nat, o: nat)
    requires EndsAt(History(run), i, o) && EndsAt(History(run), j, o)
    ensures i == j
  {
    RunKeepsInv(run);
    if i < j {
      EndsCounted(History(run), i, j, o);
    } else if j < i {
      EndsCounted(History(run), j, i, o);
    }
  }

  /** The entry schedules turn o as what its history makes it: its microphone transcript is complete;
      it is called degraded exactly when it needed system audio that did not complete; and it hands
      on the events of its transcripts in order, with the target of the microphone's. */
  ghost predicate SchedulesFaithfully(log: seq<Entry>, o: nat, turnId: string, entry: Entry) {
    && RequiredOf(log, o).Some? && Microphone in CompletedOf(log, o)
    && entry == WasScheduled(o, turnId, EventsOf(log, o), TargetOf(log, o),
                             RequiredOf(log, o).value && SystemAudio !in CompletedOf(log, o))
  }

  lemma FiresFaithfully(s: State, log: seq<Entry>, task: Task)
    requires FieldsInv(s, log) && TasksInv(s) && Passes(s, task)
    ensures SchedulesFaithfully(log, s.tasks[task].number, s.tasks[task].turnId, Recorded(s, Fire(task))[0])
  {
    var o := s.tasks[task].number;
    assert Owned(s, s.tasks[task]);
    assert FieldsAgree(TurnAt(s, o), log, o);
  }

  /** Whenever a turn is scheduled, it is scheduled as what it is. */
  lemma ScheduledAsComplete(run: seq<Step>, task: Task)
    requires Passes(After(run), task)
    ensures var job := After(run).tasks[task];
            SchedulesFaithfully(History(run), job.number, job.turnId, Recorded(After(run), Fire(task))[0])
  {
    RunKeepsInv(run);
    FiresFaithfully(After(run), History(run), task);
  }

  /** A turn id is scheduled a second time only if, after the first time, the microphone was
      committed again under the same id. */
  lemma ScheduledAgainOnlyIfRecommitted(run: seq<Step>, task: Task, i: nat)
    requires Passes(After(run), task)
    requires i < |History(run)| && History(run)[i].WasScheduled? && History(run)[i].turnId == After(run).tasks[task].turnId
    ensures exists k: nat :: i < k && CommittedAt(History(run), k, After(run).tasks[task].turnId, After(run).tasks[task].number, Microphone)
  {
    RunKeepsInv(run);
    ScheduledAsComplete(run, task);
    var s, log := After(run), History(run);
    var job := s.tasks[task];
    assert FieldsAgree(TurnAt(s, job.number), log, job.number);
    var k: nat :| CommittedAt(log, k, job.turnId, job.number, Microphone);
  }

  /** It can happen: the service keeps no memory of the turn ids it has scheduled. */
  lemma RecommittedIsScheduledAgain()
    ensures var commit := Commit("turn", Microphone, false, 0);
            var complete := Complete("turn", Microphone, Some("event"), true, true, NO_TARGET);
            var run := [Start, commit, complete, Fire(0), commit, complete];
            && Passes(After(run[..3]), 0) && Passes(After(run), 1)
            && After(run[..3]).tasks[0].turnId == After(run).tasks[1].turnId
  {
    var commit, complete := Commit("turn", Microphone, false, 0), Complete("turn", Microphone, Some("event"), true, true, NO_TARGET);
    var run := [Start, commit, complete, Fire(0), commit, complete];
    var s1 := Next(Next(INITIAL, Start), commit);
    var s2 := Next(s1, complete);
    var s3 := Next(s2, Fire(0));
    var s4 := Next(s3, commit);
    assert run[..1][..0] == [] && After(run[..1]) == Next(INITIAL, Start);
    assert run[..2][..1] == run[..1] && After(run[..2]) == s1;
    assert run[..3][..2] == run[..2] && After(run[..3]) == s2;
    assert run[..4][..3] == run[..3] && After(run[..4]) == s3;
    assert run[..5][..4] == run[..4] && After(run[..5]) == s4;
    assert After(run) == Next(s4, complete);
  }
}
