/** The ingest service's voice cooldown, with its delta as an object updated in place. */
module VoiceCooldownGate {
  import opened Options
  import opened VoiceCooldown

  class VoiceCooldownDelta {
    var eventIds: seq<string>
    var targets: set<TargetKey>
    var userContext: map<string, string>
    var turnIds: set<string>

    ghost function Value(): Delta
      reads this
    {
      Delta(eventIds, targets, userContext, turnIds)
    }

    constructor ()
      ensures Value() == EMPTY
    {
      eventIds, targets, userContext, turnIds := [], {}, map[], {};
    }

    method RememberEvents(ids: seq<string>, cap: nat)
      modifies this`eventIds
      ensures eventIds == Trimmed(Remembered(old(eventIds), ids), cap)
    {
      for i := 0 to |ids|
        invariant eventIds == Remembered(old(eventIds), ids[..i])
      {
        assert ids[..i + 1][..i] == ids[..i];
        if ids[i] !in eventIds {
          eventIds := eventIds + [ids[i]];
        }
      }
      assert ids[..|ids|] == ids;
      ghost var all := eventIds;
      while |eventIds| > cap
        invariant |eventIds| <= |all| && eventIds == all[|all| - |eventIds|..]
        invariant |all| >= cap ==> |eventIds| >= cap
        invariant |all| < cap ==> eventIds == all
      {
        eventIds := eventIds[1..];
      }
    }

    method RememberTargets(input: Input)
      modifies this`targets
      ensures targets == Capped(Capped(old(targets), ViewerKey(input)), PersonaKey(input))
    {
      if input.viewerId.Some? {
        var target := Viewer(input.viewerId.value);
        if target in targets || |targets| < 2 {
          targets := targets + {target};
        }
      }
      if input.personaId.Some? {
        var target := Persona(input.personaId.value);
        if target in targets || |targets| < 2 {
          targets := targets + {target};
        }
      }
    }

    method RememberContext(context: map<string, string>)
      modifies this`userContext, this`turnIds
      ensures turnIds == Capped(old(turnIds), if TURN_ID in context then Some(context[TURN_ID]) else None)
      ensures userContext == WithTurnId(old(userContext) + (context - {TURN_ID}), turnIds)
    {
      var rest := context.Keys;
      while rest != {}
        invariant rest <= context.Keys
        invariant userContext == old(userContext) + (context - rest - {TURN_ID})
        invariant turnIds == Capped(old(turnIds), if TURN_ID in context && TURN_ID !in rest then Some(context[TURN_ID]) else None)
        decreases rest
      {
        var key :| key in rest;
        if key == TURN_ID {
          if context[key] in turnIds || |turnIds| < 2 {
            turnIds := turnIds + {context[key]};
          }
        } else {
          userContext := userContext[key := context[key]];
        }
        rest := rest - {key};
      }
      assert context - rest == context;
      if |turnIds| == 1 {
        var turnId :| turnId in turnIds;
        OnlyIs(turnIds, turnId);
        userContext := userContext[TURN_ID := turnId];
      } else {
        userContext := userContext - {TURN_ID};
      }
    }

    /** `_accumulate_voice_cooldown_delta` */
    method Accumulate(input: Input, cap: nat)
      modifies this
      ensures Value() == Accumulated(old(Value()), input, cap)
    {
      RememberEvents(input.eventIds, cap);
      RememberTargets(input);
      if input.context.None? {
        return;
      }
      RememberContext(input.context.value);
    }

    /** `_target_from_accumulated_targets` */
    method Target() returns (viewerId: Option<string>, personaId: Option<string>)
      ensures (viewerId, personaId) == TargetFrom(targets)
    {
      if |targets| != 1 {
        return None, None;
      }
      var target :| target in targets;
      OnlyIs(targets, target);
      match target
      case Viewer(id) => return Some(id), None;
      case Persona(id) => return None, Some(id);
    }

    /** `_schedule_voice_cooldown_delta`, up to the call of the scheduler */
    method ToSchedule(nowMs: int) returns (scheduled: Scheduled)
      ensures scheduled == FromDelta(Value(), nowMs)
    {
      var viewerId, personaId := Target();
      return Scheduled(nowMs, eventIds, viewerId, personaId, if userContext == map[] then None else Some(userContext));
    }
  }

  class VoiceCooldownGate {
    const cooldownMs: nat
    const cap: nat
    var lastVoiceTriggerAtMs: Option<int>
    var delta: VoiceCooldownDelta
    var flush: Option<Flush>

    /** The state of the cooldown, as a run begins; newTask is the task that may be created. */
    ghost function View(newTask: Task): State
      reads this, delta
    {
      State(lastVoiceTriggerAtMs, delta.Value(), flush, newTask, EMPTY, [], [])
    }

    constructor (cooldownMs: nat, cap: nat)
      ensures View(0) == INITIAL && this.cooldownMs == cooldownMs && this.cap == cap && fresh(delta)
    {
      this.cooldownMs, this.cap := cooldownMs, cap;
      lastVoiceTriggerAtMs, flush := None, None;
      delta := new VoiceCooldownDelta();
    }

    /** This gate now is in the state s, and handedOn is what s has scheduled. */
    ghost predicate Reached(s: State, handedOn: Option<Scheduled>)
      reads this, delta
    {
      && lastVoiceTriggerAtMs == s.lastMs && delta.Value() == s.delta && flush == s.flush
      && s.schedules == if handedOn.Some? then [handedOn.value] else []
    }

    /** `_schedule_voice_observation` outside window-batch mode */
    method ScheduleVoice(input: Input, nowMs: int, newTask: Task) returns (handedOn: Option<Scheduled>, cancelled: Option<Task>)
      modifies this, delta
      ensures Reached(AfterSubmit(old(View(newTask)), Config(cooldownMs, cap), input, nowMs), handedOn)
      ensures delta == old(delta) || fresh(delta)
      ensures cancelled.Some? <==> old(lastVoiceTriggerAtMs).Some? && handedOn.Some? && old(flush).Some?
      ensures cancelled.Some? ==> cancelled.value == old(flush).value.task
    {
      handedOn, cancelled := None, None;
      if lastVoiceTriggerAtMs.None? {
        lastVoiceTriggerAtMs := Some(nowMs);
        handedOn := Some(Scheduled(nowMs, input.eventIds, input.viewerId, input.personaId, input.context));
      } else if nowMs < lastVoiceTriggerAtMs.value + cooldownMs {
        delta.Accumulate(input, cap);
        if flush.None? {
          flush := Some(Flush(newTask, lastVoiceTriggerAtMs.value + cooldownMs));
        }
      } else {
        var scheduledDelta := delta;
        delta := new VoiceCooldownDelta();
        scheduledDelta.Accumulate(input, cap);
        if flush.Some? {
          cancelled := Some(flush.value.task);
        }
        flush := None;
        lastVoiceTriggerAtMs := Some(nowMs);
        var scheduled := scheduledDelta.ToSchedule(nowMs);
        handedOn := Some(scheduled);
      }
    }

    /** `_flush_voice_cooldown` after its sleep */
    method FlushVoice(currentTask: Task, nowMs: int) returns (handedOn: Option<Scheduled>)
      requires flush.Some? && flush.value.task == currentTask ==> nowMs >= flush.value.deadlineMs
      modifies this
      ensures Reached(AfterWake(old(View(0)), currentTask, nowMs), handedOn)
    {
      handedOn := None;
      if flush.None? || flush.value.task != currentTask {
        return;
      }
      var flushed := delta;
      delta := new VoiceCooldownDelta();
      flush := None;
      if flushed.eventIds == [] {
        return;
      }
      lastVoiceTriggerAtMs := Some(nowMs);
      var scheduled := flushed.ToSchedule(nowMs);
      handedOn := Some(scheduled);
    }
  }
}
