/** No turn is stuck, and exactly when a turn id can be scheduled. */
module CoordinatedTurnsLiveness {
  import opened CoordinatedTurns
  import opened CoordinatedTurnsProofs
  import opened Options

  // ---------------------------------------------------------------------------------------
  // The tasks turns name
  // ---------------------------------------------------------------------------------------

  /** The turn was the reason for each of its tasks, and its timeout started when its microphone
      completed. */
  ghost predicate Names(s: State, o: nat) {
    o < |s.objects| ==>
      && (s.objects[o].timeoutTask.Some? ==> Microphone in s.objects[o].completed)
      && forall t :: t in TasksOf(s.objects[o]) ==> t < s.nextTask && (t in s.tasks ==> s.tasks[t].number == o)
  }

  ghost predicate NamesInv(s: State) {
    forall o: nat :: Names(s, o)
  }

  /** The task that will end the turn: the one that schedules it if it is ready, else its timeout. */
  ghost predicate Pending(s: State, id: string, o: nat, turn: Turn) {
    if Ready(turn) then turn.scheduleTask.Some? && Runs(s, turn.scheduleTask.value, Job(Schedule, id, o))
    else turn.timeoutTask.Some? && Runs(s, turn.timeoutTask.value, Job(Timeout, id, o))
  }

  ghost predicate Runs(s: State, task: Task, job: Job) {
    task in s.tasks && s.tasks[task] == job
  }

  /** While the session is active, a turn whose microphone completed has such a task. */
  ghost predicate PendingInv(s: State) {
    s.active ==> forall id :: id in s.turns ==> PendingAt(s, id)
  }

  ghost predicate PendingAt(s: State, id: string)
    requires id in s.turns
  {
    s.turns[id] < |s.objects| && Microphone in s.objects[s.turns[id]].completed ==>
      Pending(s, id, s.turns[id], s.objects[s.turns[id]])
  }

  /** An object may change, with tasks started and cancelled for it alone. */
  lemma NamesWithUpdate(s: State, s': State, o: nat)
    requires NamesInv(s) && |s.objects| <= |s'.objects| <= |s.objects| + 1 && s.nextTask <= s'.nextTask
    requires forall x: nat :: x < |s'.objects| && x != o ==> x < |s.objects| && s'.objects[x] == s.objects[x]
    requires forall t :: t in s'.tasks ==> (t in s.tasks && s'.tasks[t] == s.tasks[t]) || (t == s.nextTask && s'.tasks[t].number == o)
    requires Names(s', o)
    ensures NamesInv(s')
  {
    forall x: nat
      ensures Names(s', x)
    {
      assert Names(s, x);
    }
  }

  lemma PendingStays(s: State, s': State, id: string, o: nat)
    requires id in s.turns && id in s'.turns && s'.turns[id] == s.turns[id] < |s.objects| <= |s'.objects|
    requires s'.objects[s.turns[id]] == s.objects[s.turns[id]] && PendingAt(s, id)
    requires s.turns[id] != o && NamesInv(s)
    requires forall t :: t in s.tasks && s.tasks[t].number != o ==> t in s'.tasks && s'.tasks[t] == s.tasks[t]
    ensures PendingAt(s', id)
  {
    assert Names(s, s.turns[id]);
  }

  /** A step that touches only the turn object under one id. */
  lemma PendingWithUpdate(s: State, s': State, o: nat)
    requires PendingInv(s) && NamesInv(s) && (s'.active ==> s.active) && |s.objects| <= |s'.objects|
    requires forall x: nat :: x < |s.objects| && x != o ==> s'.objects[x] == s.objects[x]
    requires forall id :: id in s'.turns && s'.turns[id] != o ==> id in s.turns && s'.turns[id] == s.turns[id] < |s.objects|
    requires forall t :: t in s.tasks && s.tasks[t].number != o ==> t in s'.tasks && s'.tasks[t] == s.tasks[t]
    requires s'.active ==> forall id :: id in s'.turns && s'.turns[id] == o ==> PendingAt(s', id)
    ensures PendingInv(s')
  {
    if s'.active {
      forall id | id in s'.turns
        ensures PendingAt(s', id)
      {
        if s'.turns[id] != o {
          PendingStays(s, s', id, o);
        }
      }
    }
  }

  // ---------------------------------------------------------------------------------------
  // Steps
  // ---------------------------------------------------------------------------------------

  ghost predicate LiveInv(s: State) {
    match s
    case State(_, _, _, _, _) => NamesInv(s) && PendingInv(s)
  }

  /** A commit changes neither the tasks of its turn nor, once the microphone completed, its readiness. */
  lemma RegisteredPending(s: State, s': State, id: string, turn: Turn, source: Source, required: bool, endedAtMs: int)
    requires id in s.turns && id in s'.turns && s'.turns[id] == s.turns[id] < |s.objects| == |s'.objects| && s'.tasks == s.tasks
    requires turn == s.objects[s.turns[id]] && turn.completed <= turn.committed && source !in turn.committed
    requires s'.objects[s.turns[id]] == Registered(turn, source, required, endedAtMs)
    requires PendingAt(s, id)
    ensures PendingAt(s', id)
  {
  }

  lemma CommitNewKeepsLive(s: State, s': State, id: string, turn: Turn)
    requires LiveInv(s) && id !in s.turns && turn.timeoutTask.None? && turn.scheduleTask.None? && turn.completed == {}
    requires forall other :: other in s.turns ==> s.turns[other] < |s.objects|
    requires s' == s.(turns := s.turns[id := |s.objects|], objects := s.objects + [turn])
    ensures LiveInv(s')
  {
    assert TasksOf(turn) == {};
    NamesWithUpdate(s, s', |s.objects|);
    PendingWithUpdate(s, s', |s.objects|);
  }

  lemma CommitMoreKeepsLive(s: State, s': State, log: seq<Entry>, id: string, source: Source, required: bool, endedAtMs: int)
    requires EndsInv(s, log) && LiveInv(s) && id in s.turns
    requires s.objects[s.turns[id]].completed <= s.objects[s.turns[id]].committed && source !in s.objects[s.turns[id]].committed
    requires s' == s.(objects := s.objects[s.turns[id] := Registered(s.objects[s.turns[id]], source, required, endedAtMs)])
    ensures LiveInv(s')
  {
    var o := s.turns[id];
    assert Names(s, o);
    assert TasksOf(s'.objects[o]) == TasksOf(s.objects[o]);
    NamesWithUpdate(s, s', o);
    if s.active {
      RegisteredPending(s, s', id, s.objects[o], source, required, endedAtMs);
    }
    PendingWithUpdate(s, s', o);
  }

  lemma CommitKeepsLive(s: State, log: seq<Entry>, id: string, source: Source, required: bool, endedAtMs: int)
    requires Inv(s, log) && LiveInv(s)
    ensures LiveInv(AfterCommit(s, id, source, required, endedAtMs))
  {
    var s' := AfterCommit(s, id, source, required, endedAtMs);
    if id !in s.turns {
      CommitNewKeepsLive(s, s', id, Registered(NEW_TURN, source, required, endedAtMs));
    } else if source !in s.objects[s.turns[id]].committed {
      assert FieldsAgree(TurnAt(s, s.turns[id]), log, s.turns[id]);
      CommitMoreKeepsLive(s, s', log, id, source, required, endedAtMs);
    }
  }

  /** Turns leave the dictionary; only tasks of theirs end. */
  lemma FewerKeepLive(s: State, s': State, o: nat)
    requires LiveInv(s) && (s'.active ==> s.active)
    requires s'.objects == s.objects && s'.nextTask == s.nextTask
    requires forall t :: t in s'.tasks ==> t in s.tasks && s'.tasks[t] == s.tasks[t]
    requires forall t :: t in s.tasks && s.tasks[t].number != o ==> t in s'.tasks
    requires forall id :: id in s'.turns ==> id in s.turns && s'.turns[id] == s.turns[id] < |s.objects| && s.turns[id] != o
    ensures LiveInv(s')
  {
    NamesWithUpdate(s, s', o) by {
      assert Names(s, o);
    }
    PendingWithUpdate(s, s', o);
  }

  /** What a completed transcript leaves of its turn has the task it needs. */
  lemma CompletedPending(s: State, s': State, log: seq<Entry>, step: Step)
    requires Inv(s, log) && LiveInv(s) && s.active
    requires step.Complete? && step.turnId in s.turns && s' == Next(s, step) && step.turnId in s'.turns
    ensures PendingAt(s', step.turnId)
  {
    var o := s.turns[step.turnId];
    var turn := s.objects[o];
    assert Names(s, o) && PendingAt(s, step.turnId) && FieldsAgree(TurnAt(s, o), log, o);
  }

  /** The turn object and the tasks after a completed transcript, with the number of the task it may
      have started. */
  ghost predicate Changes(s: State, s': State, o: nat, turn: Turn) {
    && o < |s.objects| && s'.objects == s.objects[o := turn] && s.nextTask <= s'.nextTask <= s.nextTask + 1
    && s.objects[o].completed <= turn.completed && (turn.timeoutTask.Some? ==> Microphone in turn.completed)
    && (forall t :: t in TasksOf(turn) ==> t in TasksOf(s.objects[o]) || t == s.nextTask < s'.nextTask)
    && (forall t :: t in s'.tasks ==> (t in s.tasks && s'.tasks[t] == s.tasks[t]) || (t == s.nextTask && s'.tasks[t].number == o))
    && (forall t :: t in s.tasks ==>
          t < s.nextTask && (t !in TasksOf(s.objects[o]) ==> t in s'.tasks && s'.tasks[t] == s.tasks[t]))
  }

  lemma CompleteChanges(s: State, s': State, step: Step)
    requires TasksInv(s) && step.Complete? && step.turnId in s.turns && s.turns[step.turnId] < |s.objects| && s' == Next(s, step)
    requires s.objects[s.turns[step.turnId]].timeoutTask.Some? ==> Microphone in s.objects[s.turns[step.turnId]].completed
    ensures Changes(s, s', s.turns[step.turnId], s'.objects[s.turns[step.turnId]])
    ensures s'.active == s.active && forall id :: id in s'.turns ==> id in s.turns && s'.turns[id] == s.turns[id]
  {
    var turn := s.objects[s.turns[step.turnId]];
    assert OptionalSet(turn.timeoutTask) <= TasksOf(turn);
    assert forall t :: t in s.tasks ==> t < s.nextTask;
    match Judge(turn, step.source, step.eventId, step.textPresent, step.valid, step.target)
    case _ =>
  }

  lemma ChangesKeepNames(s: State, s': State, o: nat, turn: Turn)
    requires NamesInv(s) && Changes(s, s', o, turn)
    ensures NamesInv(s')
    ensures forall t :: t in s.tasks && s.tasks[t].number != o ==> t in s'.tasks && s'.tasks[t] == s.tasks[t]
  {
    assert Names(s, o);
    NamesWithUpdate(s, s', o);
  }

  lemma CompleteKeepsLive(s: State, log: seq<Entry>, step: Step)
    requires Inv(s, log) && LiveInv(s) && step.Complete?
    ensures LiveInv(Next(s, step))
  {
    var s', id := Next(s, step), step.turnId;
    if id in s.turns {
      var o := s.turns[id];
      assert Names(s, o);
      CompleteChanges(s, s', step);
      ChangesKeepNames(s, s', o, s'.objects[o]);
      if s.active && id in s'.turns {
        CompletedPending(s, s', log, step);
      }
      PendingWithUpdate(s, s', o);
    }
  }

  lemma StepKeepsLive(s: State, log: seq<Entry>, step: Step)
    requires Inv(s, log) && LiveInv(s)
    ensures LiveInv(Next(s, step))
  {
    var s' := Next(s, step);
    match step
    case Commit(id, source, required, endedAtMs) => CommitKeepsLive(s, log, id, source, required, endedAtMs);
    case Complete(_, _, _, _, _, _) => CompleteKeepsLive(s, log, step);
    case DiscardTurn(id) => DiscardKeepsLive(s, log, id);
    case Fire(task) => FireKeepsLive(s, log, task);
    case _ => ResetKeepsLive(s, s');
  }

  lemma DiscardKeepsLive(s: State, log: seq<Entry>, id: string)
    requires Inv(s, log) && LiveInv(s)
    ensures LiveInv(Next(s, DiscardTurn(id)))
  {
    if id in s.turns {
      assert Names(s, s.turns[id]);
      FewerKeepLive(s, Next(s, DiscardTurn(id)), s.turns[id]);
    }
  }

  /** A task that was woken without handing its turn on was not the one the turn waits for. */
  lemma IdleKeepsLive(s: State, task: Task)
    requires LiveInv(s) && TasksInv(s) && !Passes(s, task)
    ensures LiveInv(s.(tasks := s.tasks - {task}))
  {
    var s' := s.(tasks := s.tasks - {task});
    forall o: nat
      ensures Names(s', o)
    {
      assert Names(s, o);
    }
    if s.active {
      forall id | id in s'.turns
        ensures PendingAt(s', id)
      {
        assert PendingAt(s, id);
      }
    }
  }

  lemma FireKeepsLive(s: State, log: seq<Entry>, task: Task)
    requires Inv(s, log) && LiveInv(s)
    ensures LiveInv(AfterFire(s, task))
  {
    if Passes(s, task) {
      FewerKeepLive(s, AfterFire(s, task), s.tasks[task].number);
    } else {
      IdleKeepsLive(s, task);
      assert task !in s.tasks ==> s.tasks - {task} == s.tasks;
    }
  }

  lemma ResetKeepsLive(s: State, s': State)
    requires LiveInv(s) && s'.objects == s.objects && s'.nextTask == s.nextTask && (s' == s || s'.turns == map[])
    requires forall t :: t in s'.tasks ==> t in s.tasks && s'.tasks[t] == s.tasks[t]
    ensures LiveInv(s')
  {
    forall o: nat
      ensures Names(s', o)
    {
      assert Names(s, o);
    }
  }

  lemma {:induction false} RunKeepsLive(run: seq<Step>)
    ensures LiveInv(After(run))
  {
    if run != [] {
      var before := run[..|run| - 1];
      RunKeepsLive(before);
      RunKeepsInv(before);
      StepKeepsLive(After(before), History(before), run[|run| - 1]);
    }
  }

  // ---------------------------------------------------------------------------------------
  // No turn is stuck
  // ---------------------------------------------------------------------------------------

  /** Waking this task schedules the turn kept under the id. */
  ghost predicate Schedules(s: State, task: Task, id: string) {
    Passes(s, task) && s.tasks[task].turnId == id
  }

  lemma OnlyTask(s: State, log: seq<Entry>, id: string, t: Task, u: Task)
    requires Inv(s, log) && Schedules(s, t, id) && Schedules(s, u, id)
    ensures t == u
  {
    assert Owned(s, s.tasks[t]) && Owned(s, s.tasks[u]);
    assert JobFits(s.objects[s.turns[id]], t, s.tasks[t]) && JobFits(s.objects[s.turns[id]], u, s.tasks[u]);
  }

  lemma PendingSchedules(s: State, log: seq<Entry>, id: string) returns (t: Task)
    requires Inv(s, log) && LiveInv(s) && s.active && id in s.turns && Microphone in TurnAt(s, s.turns[id]).completed
    ensures Schedules(s, t, id)
  {
    var turn := s.objects[s.turns[id]];
    assert PendingAt(s, id);
    t := if Ready(turn) then turn.scheduleTask.value else turn.timeoutTask.value;
  }

  /** In every reachable state of an active session, a turn whose microphone transcript completed has
      exactly one live task that will schedule it, and no other turn has any. */
  lemma NoTurnIsStuck(run: seq<Step>, id: string)
    requires After(run).active
    ensures id in After(run).turns && Microphone in TurnAt(After(run), After(run).turns[id]).completed <==>
            exists t: Task :: Schedules(After(run), t, id)
    ensures forall t: Task, u: Task :: Schedules(After(run), t, id) && Schedules(After(run), u, id) ==> t == u
  {
    var s, log := After(run), History(run);
    RunKeepsInv(run);
    RunKeepsLive(run);
    forall t: Task, u: Task | Schedules(s, t, id) && Schedules(s, u, id)
      ensures t == u
    {
      OnlyTask(s, log, id, t, u);
    }
    if id in s.turns && Microphone in TurnAt(s, s.turns[id]).completed {
      var t := PendingSchedules(s, log, id);
      assert Schedules(s, t, id);
    }
    if t: Task :| Schedules(s, t, id) {
      assert Owned(s, s.tasks[t]);
    }
  }

  // ---------------------------------------------------------------------------------------
  // Exactly when a turn id can be scheduled, or scheduled again
  // ---------------------------------------------------------------------------------------

  predicate NoMicrophoneCommit(steps: seq<Step>, id: string) {
    forall k :: 0 <= k < |steps| ==> !(steps[k].Commit? && steps[k].turnId == id && steps[k].source.Microphone?)
  }

  /** The continuation commits no microphone under the id, and a task is then due to schedule it. */
  ghost predicate Leads(run: seq<Step>, more: seq<Step>, id: string) {
    NoMicrophoneCommit(more, id) && exists t: Task :: Schedules(After(run + more), t, id)
  }

  /** The session is active and the turn kept under the id has its microphone committed. */
  ghost predicate Committed(s: State, id: string) {
    s.active && id in s.turns && Microphone in TurnAt(s, s.turns[id]).committed
  }

  lemma NotCommittedStays(s: State, log: seq<Entry>, step: Step, id: string)
    requires EndsInv(s, log) && !Committed(s, id) && NoMicrophoneCommit([step], id)
    ensures !Committed(Next(s, step), id)
  {
    assert [step][0] == step;
  }

  lemma {:induction false} NotCommittedNeverLeads(run: seq<Step>, more: seq<Step>, id: string)
    requires !Committed(After(run), id) && NoMicrophoneCommit(more, id)
    ensures !Committed(After(run + more), id)
  {
    if more == [] {
      assert run + more == run;
    } else {
      var m := |more| - 1;
      assert (run + more)[..|run + more| - 1] == run + more[..m];
      NotCommittedNeverLeads(run, more[..m], id);
      RunKeepsInv(run + more[..m]);
      NotCommittedStays(After(run + more[..m]), History(run + more[..m]), more[m], id);
    }
  }

  lemma SchedulesOnlyCommitted(s: State, log: seq<Entry>, t: Task, id: string)
    requires Inv(s, log) && Schedules(s, t, id)
    ensures Committed(s, id)
  {
    assert Owned(s, s.tasks[t]);
    assert FieldsAgree(TurnAt(s, s.turns[id]), log, s.turns[id]);
  }

  lemma MicrophoneCompletes(s: State, log: seq<Entry>, id: string)
    requires FieldsInv(s, log) && EndsInv(s, log) && Committed(s, id) && Microphone !in TurnAt(s, s.turns[id]).completed
    ensures var s' := Next(s, Complete(id, Microphone, None, true, true, NO_TARGET));
            s'.active && id in s'.turns && Microphone in TurnAt(s', s'.turns[id]).completed
  {
    var turn := s.objects[s.turns[id]];
    assert FieldsAgree(TurnAt(s, s.turns[id]), log, s.turns[id]);
    match Judge(turn, Microphone, None, true, true, NO_TARGET)
    case _ =>
  }

  lemma CompletedLeads(run: seq<Step>, id: string)
    requires After(run).active && id in After(run).turns && Microphone in TurnAt(After(run), After(run).turns[id]).completed
    ensures exists t: Task :: Schedules(After(run), t, id)
  {
    RunKeepsInv(run);
    RunKeepsLive(run);
    var t := PendingSchedules(After(run), History(run), id);
  }

  /** From an open microphone, completing its transcript starts the task that will schedule the turn. */
  lemma CommittedLeads(run: seq<Step>, id: string)
    requires Committed(After(run), id)
    ensures Leads(run, [], id) || Leads(run, [Complete(id, Microphone, None, true, true, NO_TARGET)], id)
  {
    var s := After(run);
    if Microphone in TurnAt(s, s.turns[id]).completed {
      assert run + [] == run;
      CompletedLeads(run, id);
    } else {
      var complete := Complete(id, Microphone, None, true, true, NO_TARGET);
      assert (run + [complete])[..|run + [complete]| - 1] == run;
      RunKeepsInv(run);
      MicrophoneCompletes(s, History(run), id);
      CompletedLeads(run + [complete], id);
    }
  }

  /** In every reachable state, a turn id can come to be scheduled without committing a microphone
      under it if and only if the session is active and keeps a turn with a committed microphone
      under the id. */
  lemma ScheduledIff(run: seq<Step>, id: string)
    ensures (exists more: seq<Step> :: Leads(run, more, id)) <==> Committed(After(run), id)
  {
    if Committed(After(run), id) {
      CommittedLeads(run, id);
    }
    if more: seq<Step> :| Leads(run, more, id) {
      var t: Task :| Schedules(After(run + more), t, id);
      RunKeepsInv(run + more);
      SchedulesOnlyCommitted(After(run + more), History(run + more), t, id);
      if !Committed(After(run), id) {
        NotCommittedNeverLeads(run, more, id);
      }
    }
  }

  /** The microphone was committed after entry i for the turn now kept under the id. */
  ghost predicate RecommittedSince(s: State, log: seq<Entry>, i: nat, id: string) {
    id in s.turns && exists k: nat :: i < k && CommittedAt(log, k, id, s.turns[id], Microphone)
  }

  /** A turn id that was scheduled is scheduled again, without another microphone commit from here on,
      if and only if the session is active and the microphone was committed again under the id, for
      the turn it now denotes, after the id was scheduled. */
  lemma ScheduledAgainIff(run: seq<Step>, i: nat, id: string)
    requires i < |History(run)| && History(run)[i].WasScheduled? && History(run)[i].turnId == id
    ensures (exists more: seq<Step> :: Leads(run, more, id)) <==>
            After(run).active && RecommittedSince(After(run), History(run), i, id)
  {
    ScheduledIff(run, id);
    RunKeepsInv(run);
    var s, log := After(run), History(run);
    if id in s.turns {
      var o := s.turns[id];
      assert FieldsAgree(TurnAt(s, o), log, o);
      if Microphone in TurnAt(s, o).committed {
        var k: nat :| CommittedAt(log, k, id, o, Microphone);
        assert i < k;
      }
      if k: nat :| i < k && CommittedAt(log, k, id, o, Microphone) {
        RequiredIsSet(log, k, o);
      }
    }
  }

  lemma {:induction false} RequiredIsSet(log: seq<Entry>, k: nat, o: nat)
    requires k < |log| && log[k].WasCommitted? && log[k].number == o && log[k].source.Microphone?
    ensures RequiredOf(log, o).Some?
  {
    if k < |log| - 1 {
      RequiredIsSet(log[..|log| - 1], k, o);
    }
  }
}
