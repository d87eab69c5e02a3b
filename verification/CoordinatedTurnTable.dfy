/** The ingest service's dictionary of coordinated turns, with turns as objects updated in place. */
module CoordinatedTurnTable {
  import opened CoordinatedTurns
  import opened Options

  class VoiceTurn {
    var committedSources: set<Source>
    var completedSources: set<Source>
    var eventIds: seq<string>
    var systemAudioRequired: Option<bool>
    var microphoneEndedAtMs: Option<int>
    var target: Target
    var timeoutTask: Option<Task>
    var scheduleTask: Option<Task>

    ghost function Value(): Turn
      reads this
    {
      Turn(committedSources, completedSources, eventIds, systemAudioRequired, microphoneEndedAtMs, target, timeoutTask, scheduleTask)
    }

    constructor ()
      ensures Value() == NEW_TURN
    {
      committedSources, completedSources, eventIds := {}, {}, [];
      systemAudioRequired, microphoneEndedAtMs, target := None, None, NO_TARGET;
      timeoutTask, scheduleTask := None, None;
    }

    /** `_coordinated_turn_ready` */
    method IsReady() returns (ready: bool)
      ensures ready == Ready(Value())
    {
      if systemAudioRequired.None? || microphoneEndedAtMs.None? || Microphone !in completedSources {
        return false;
      }
      return !systemAudioRequired.value || SystemAudio in completedSources;
    }
  }

  class TurnTable {
    var active: bool
    var turns: map<string, VoiceTurn>

    constructor ()
      ensures !active && turns == map[]
    {
      active, turns := false, map[];
    }

    /** `start_session` and its `_reset_tracking`: a session that is active already stays as it is. */
    method StartSession()
      modifies this
      ensures active && turns == if old(active) then old(turns) else map[]
    {
      if active {
        return;
      }
      active := true;
      turns := map[];
    }

    /** The error path of `start_session`: the dictionary is emptied, no task is cancelled. */
    method FailStart()
      modifies this
      ensures !active && turns == if old(active) then map[] else old(turns)
    {
      if active {
        active := false;
        turns := map[];
      }
    }

    /** `stop_session`: the tasks of the turns still in the dictionary are to be cancelled. */
    method StopSession() returns (cancelled: set<Task>)
      modifies this
      ensures !active && turns == if old(active) then map[] else old(turns)
      ensures forall task :: task in cancelled <==>
                old(active) && exists id :: id in old(turns) && task in TasksOf(old(turns[id].Value()))
    {
      cancelled := {};
      if !active {
        return;
      }
      var remaining := turns.Keys;
      while remaining != {}
        invariant active && turns == old(turns) && remaining <= turns.Keys
        invariant forall task :: task in cancelled <==>
                    exists id :: id in turns && id !in remaining && task in TasksOf(turns[id].Value())
        decreases |remaining|
      {
        var id :| id in remaining;
        cancelled := cancelled + OptionalSet(turns[id].timeoutTask) + OptionalSet(turns[id].scheduleTask);
        remaining := remaining - {id};
      }
      active := false;
      turns := map[];
    }

    /** `_register_committed_audio_locked`: false stands for the error that the source was committed
        before. */
    method RegisterCommittedAudio(turnId: string, source: Source, required: bool, endedAtMs: int) returns (registered: bool)
      modifies this`turns, if turnId in turns then {turns[turnId]} else {}
      ensures turnId in turns && turns == old(turns)[turnId := turns[turnId]]
      ensures if turnId in old(turns) then turns[turnId] == old(turns[turnId]) else fresh(turns[turnId])
      ensures registered <==> turnId !in old(turns) || source !in old(turns[turnId].committedSources)
      ensures turns[turnId].Value() ==
              var before := if turnId in old(turns) then old(turns[turnId].Value()) else NEW_TURN;
              if registered then Registered(before, source, required, endedAtMs) else before
    {
      var turn: VoiceTurn;
      if turnId in turns {
        turn := turns[turnId];
      } else {
        turn := new VoiceTurn();
        turns := turns[turnId := turn];
      }
      if source in turn.committedSources {
        return false;
      }
      turn.committedSources := turn.committedSources + {source};
      if source.Microphone? {
        turn.systemAudioRequired := Some(required);
        turn.microphoneEndedAtMs := Some(endedAtMs);
      }
      return true;
    }

    /** `_discard_coordinated_turn_locked`, `_discard_committed_audio` and `_discard_failed_final`:
        the tasks of the discarded turn are to be cancelled. */
    method Discard(turnId: string) returns (cancelled: set<Task>)
      modifies this`turns
      ensures turns == old(turns) - {turnId}
      ensures cancelled == if turnId in old(turns) then TasksOf(old(turns)[turnId].Value()) else {}
    {
      if turnId !in turns {
        return {};
      }
      var turn := turns[turnId];
      turns := turns - {turnId};
      return OptionalSet(turn.timeoutTask) + OptionalSet(turn.scheduleTask);
    }

    /** `_complete_coordinated_turn_locked`; newTask is the task it may create. */
    method CompleteTurn(turnId: string, source: Source, eventId: Option<string>, textPresent: bool, valid: bool, target: Target, newTask: Task)
      returns (cancelled: set<Task>)
      modifies this`turns, if turnId in turns then {turns[turnId]} else {}
      ensures turnId !in old(turns) ==> turns == old(turns) && cancelled == {}
      ensures turnId in old(turns) ==>
        var turn, before := old(turns)[turnId], old(turns[turnId].Value());
        var done := Completed(before, source, eventId, target);
        match Judge(before, source, eventId, textPresent, valid, target)
        case Ignore => turns == old(turns) && turn.Value() == before && cancelled == {}
        case Discard => turns == old(turns) - {turnId} && turn.Value() == before && cancelled == TasksOf(before)
        case Wait => turns == old(turns) && turn.Value() == done && cancelled == {}
        case StartTimeout => turns == old(turns) && turn.Value() == done.(timeoutTask := Some(newTask)) && cancelled == {}
        case StartSchedule =>
          turns == old(turns) && turn.Value() == done.(scheduleTask := Some(newTask)) && cancelled == OptionalSet(done.timeoutTask)
    {
      cancelled := {};
      if turnId !in turns || source !in turns[turnId].committedSources {
        return;
      }
      var turn := turns[turnId];
      if !valid || (source.Microphone? && !textPresent) {
        cancelled := this.Discard(turnId);
        return;
      }
      turn.completedSources := turn.completedSources + {source};
      if eventId.Some? {
        turn.eventIds := turn.eventIds + [eventId.value];
      }
      if source.Microphone? {
        turn.target := target;
      }
      var ready := turn.IsReady();
      if !ready {
        if source.Microphone? && turn.systemAudioRequired == Some(true) && turn.timeoutTask.None? {
          turn.timeoutTask := Some(newTask);
        }
        return;
      }
      if turn.scheduleTask.Some? {
        return;
      }
      turn.scheduleTask := Some(newTask);
      cancelled := OptionalSet(turn.timeoutTask);
    }

    /** The checks of `_expire_coordinated_turn` after its sleep; turn is the object its task was
        started for. What is handed on are the turn's event ids. */
    method Expire(turnId: string, turn: VoiceTurn, currentTask: Task) returns (handedOn: Option<seq<string>>)
      modifies this`turns
      ensures handedOn.Some? <==>
        && active && turnId in old(turns) && old(turns)[turnId] == turn
        && turn.timeoutTask == Some(currentTask) && Microphone in turn.completedSources
      ensures handedOn.Some? ==> handedOn.value == turn.eventIds && turns == old(turns) - {turnId}
      ensures handedOn.None? ==> turns == old(turns)
    {
      if !active || turnId !in turns || turns[turnId] != turn || turn.timeoutTask != Some(currentTask)
         || Microphone !in turn.completedSources {
        return None;
      }
      turns := turns - {turnId};
      return Some(turn.eventIds);
    }

    /** The checks of `_finalize_coordinated_turn` after its sleep. */
    method Finalize(turnId: string, turn: VoiceTurn, currentTask: Task) returns (handedOn: Option<seq<string>>)
      modifies this`turns
      ensures handedOn.Some? <==>
        active && turnId in old(turns) && old(turns)[turnId] == turn && turn.scheduleTask == Some(currentTask)
      ensures handedOn.Some? ==> handedOn.value == turn.eventIds && turns == old(turns) - {turnId}
      ensures handedOn.None? ==> turns == old(turns)
    {
      if !active || turnId !in turns || turns[turnId] != turn || turn.scheduleTask != Some(currentTask) {
        return None;
      }
      turns := turns - {turnId};
      return Some(turn.eventIds);
    }
  }
}
