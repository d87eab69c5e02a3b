/** What takes a turn out of the dictionary, and which transcripts a scheduled turn had. */
module CoordinatedTurnsEndings {
  import opened CoordinatedTurns
  import opened CoordinatedTurnsProofs
  import opened CoordinatedTurnsLiveness
  import opened Options

  /** The session keeps a turn under the id, and this source was committed for it. */
  ghost predicate Expects(s: State, id: string, source: Source) {
    id in s.turns && source in TurnAt(s, s.turns[id]).committed
  }

  /** The task was started for the turn object that is now kept under the id. */
  ghost predicate StartedFor(s: State, task: Task, id: string) {
    task in s.tasks && s.tasks[task].turnId == id && id in s.turns && s.turns[id] == s.tasks[task].number
  }

  /** The step ends the turn kept under the id. */
  ghost predicate Ends(s: State, step: Step, id: string) {
    match step
    case Commit(_, _, _, _) => false
    case Complete(x, source, _, textPresent, valid, _) =>
      x == id && Expects(s, id, source) && (!valid || (source.Microphone? && !textPresent))
    case DiscardTurn(x) => x == id
    case Fire(task) => s.active && StartedFor(s, task, id)
    case Stop => s.active
    case Start => !s.active
    case FailStart => s.active
  }

  lemma OneMore(run: seq<Step>, step: Step)
    ensures After(run + [step]) == Next(After(run), step)
  {
    assert (run + [step])[..|run|] == run;
  }

  /** In every reachable state, a step takes a turn out of the dictionary if and only if it is a final
      transcript for a committed source that is invalid, or the microphone's without text; a discard of
      the id; the waking, in an active session, of a task started for this very turn; or the session's
      stop, new start or failed start. Otherwise the id keeps its turn object. */
  lemma TurnEndsIff(run: seq<Step>, step: Step, id: string)
    requires id in After(run).turns
    ensures id in After(run + [step]).turns <==> !Ends(After(run), step, id)
    ensures id in After(run + [step]).turns ==> After(run + [step]).turns[id] == After(run).turns[id]
  {
    OneMore(run, step);
    RunKeepsInv(run);
    StepEnds(After(run), History(run), step, id);
  }

  lemma StepEnds(s: State, log: seq<Entry>, step: Step, id: string)
    requires Inv(s, log) && id in s.turns
    ensures id in Next(s, step).turns <==> !Ends(s, step, id)
    ensures id in Next(s, step).turns ==> Next(s, step).turns[id] == s.turns[id]
  {
    match step
    case Complete(x, source, eventId, textPresent, valid, target) =>
      if x in s.turns {
        match Judge(s.objects[s.turns[x]], source, eventId, textPresent, valid, target)
        case _ =>
      }
    case Fire(task) => FireEnds(s, log, task, id);
    case _ =>
  }

  lemma FireEnds(s: State, log: seq<Entry>, task: Task, id: string)
    requires Inv(s, log) && id in s.turns
    ensures id in AfterFire(s, task).turns <==> !(s.active && StartedFor(s, task, id))
    ensures id in AfterFire(s, task).turns ==> AfterFire(s, task).turns[id] == s.turns[id]
  {
    if task in s.tasks && Owned(s, s.tasks[task]) {
      assert JobFits(s.objects[s.tasks[task].number], task, s.tasks[task]);
      assert FieldsAgree(TurnAt(s, s.tasks[task].number), log, s.tasks[task].number);
    }
  }

  /** A transcript that ends its turn, or a discard, cancels the tasks started for it and no others. */
  lemma EndingCancels(run: seq<Step>, step: Step, id: string, task: Task)
    requires id in After(run).turns && Ends(After(run), step, id) && (step.Complete? || step.DiscardTurn?)
    requires task in After(run).tasks
    ensures StartedFor(After(run), task, id) ==> task !in After(run + [step]).tasks
    ensures After(run).tasks[task].number != After(run).turns[id] ==>
              task in After(run + [step]).tasks && After(run + [step]).tasks[task] == After(run).tasks[task]
  {
    OneMore(run, step);
    RunKeepsInv(run);
    RunKeepsLive(run);
    DiscardCancels(After(run), History(run), id, task);
    DiscardsTurn(After(run), History(run), step, id);
  }

  lemma DiscardsTurn(s: State, log: seq<Entry>, step: Step, id: string)
    requires Inv(s, log) && id in s.turns && Ends(s, step, id) && (step.Complete? || step.DiscardTurn?)
    ensures Next(s, step) == AfterDiscard(s, id)
  {
  }

  lemma DiscardCancels(s: State, log: seq<Entry>, id: string, task: Task)
    requires Inv(s, log) && LiveInv(s) && id in s.turns && task in s.tasks
    ensures StartedFor(s, task, id) ==> task !in AfterDiscard(s, id).tasks
    ensures s.tasks[task].number != s.turns[id] ==>
              task in AfterDiscard(s, id).tasks && AfterDiscard(s, id).tasks[task] == s.tasks[task]
  {
    assert Names(s, s.turns[id]);
    if StartedFor(s, task, id) {
      assert Owned(s, s.tasks[task]);
      assert JobFits(s.objects[s.turns[id]], task, s.tasks[task]);
    }
  }

  /** A task that was woken is over, and no other task is affected. */
  lemma FireFinishes(run: seq<Step>, task: Task, other: Task)
    ensures other in After(run + [Fire(task)]).tasks <==> other in After(run).tasks && other != task
    ensures other in After(run + [Fire(task)]).tasks ==> After(run + [Fire(task)]).tasks[other] == After(run).tasks[other]
  {
    OneMore(run, Fire(task));
  }

  // ---------------------------------------------------------------------------------------
  // Transcripts
  // ---------------------------------------------------------------------------------------

  /** Every transcript that completed a turn's source was valid, and the microphone's had text. */
  ghost predicate TranscriptsInv(log: seq<Entry>) {
    forall k :: 0 <= k < |log| && log[k].WasCompleted? ==> log[k].valid && (log[k].source.Microphone? ==> log[k].textPresent)
  }

  lemma {:induction false} RunKeepsTranscripts(run: seq<Step>)
    ensures TranscriptsInv(History(run))
  {
    if run != [] {
      var before, last := run[..|run| - 1], run[|run| - 1];
      RunKeepsTranscripts(before);
      RunKeepsInv(before);
      RecordsTranscript(After(before), last);
    }
  }

  lemma RecordsTranscript(s: State, step: Step)
    ensures TranscriptsInv(Recorded(s, step))
  {
  }

  lemma {:induction false} MicrophoneWasCompleted(log: seq<Entry>, o: nat)
    requires Microphone in CompletedOf(log, o)
    ensures exists k: nat :: k < |log| && log[k].WasCompleted? && log[k].number == o && log[k].source.Microphone?
  {
    var n := |log| - 1;
    if log[n].WasCompleted? && log[n].number == o && log[n].source.Microphone? {
      assert log[n].WasCompleted?;
    } else {
      MicrophoneWasCompleted(log[..n], o);
      var k: nat :| k < n && log[..n][k].WasCompleted? && log[..n][k].number == o && log[..n][k].source.Microphone?;
      assert log[k] == log[..n][k];
    }
  }

  /** Over every run, a turn about to be scheduled had a valid microphone transcript with text, and all
      its transcripts were valid. */
  lemma ScheduledHasText(run: seq<Step>, task: Task)
    requires Passes(After(run), task)
    ensures var o := After(run).tasks[task].number;
            && (exists k: nat :: k < |History(run)| && MicrophoneHeard(History(run)[k], o))
            && forall k :: 0 <= k < |History(run)| && History(run)[k].WasCompleted? && History(run)[k].number == o ==> History(run)[k].valid
  {
    var log, o := History(run), After(run).tasks[task].number;
    ScheduledAsComplete(run, task);
    RunKeepsTranscripts(run);
    MicrophoneWasCompleted(log, o);
    var k: nat :| k < |log| && log[k].WasCompleted? && log[k].number == o && log[k].source.Microphone?;
    assert MicrophoneHeard(log[k], o);
  }

  ghost predicate MicrophoneHeard(e: Entry, o: nat) {
    e.WasCompleted? && e.number == o && e.source.Microphone? && e.textPresent && e.valid
  }
}
