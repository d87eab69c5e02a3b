/** The scheduling class of an observation in terms of what triggers it. */
module ObservationClasses {
  import opened Observations
  import opened ObservationMerging

  /** Some event of the observation that triggers it comes from the source. */
  ghost predicate TriggeredBy(o: Observation, source: EventSource) {
    exists k, n :: 0 <= k < |o.roomEvents| && 0 <= n < |o.triggerEventIds|
                   && o.roomEvents[k].eventId == o.triggerEventIds[n] && o.roomEvents[k].sourceType == source
  }

  /** A user typed or spoke. */
  ghost predicate FromUser(o: Observation) {
    TriggeredBy(o, UserText) || TriggeredBy(o, UserVoice)
  }

  /** The screen triggers: a frame, or an event about it. */
  ghost predicate FromScreen(o: Observation) {
    |o.triggerFrameIds| > 0 || TriggeredBy(o, ScreenObservation)
  }

  /** A system event announcing a transcript of system audio triggers. */
  ghost predicate FromSystemAudio(o: Observation) {
    exists k, n :: 0 <= k < |o.roomEvents| && 0 <= n < |o.triggerEventIds|
                   && o.roomEvents[k].eventId == o.triggerEventIds[n] && o.roomEvents[k].sourceType == SystemEvent
                   && "event" in o.roomEvents[k].payload && o.roomEvents[k].payload["event"] == Text("system_audio_transcript")
  }

  ghost predicate MarkedAmbient(o: Observation) {
    exists key :: key in o.userContext && key == "ambient" && o.userContext[key] == "true"
  }

  lemma TriggeredIff(o: Observation, source: EventSource)
    ensures source in TriggerSources(o) <==> TriggeredBy(o, source)
  {
    if source in TriggerSources(o) {
      var e :| e in o.roomEvents && e.eventId in o.triggerEventIds && e.sourceType == source;
      var k :| 0 <= k < |o.roomEvents| && o.roomEvents[k] == e;
      var n :| 0 <= n < |o.triggerEventIds| && o.triggerEventIds[n] == e.eventId;
      assert o.roomEvents[k].eventId == o.triggerEventIds[n];
    }
    if TriggeredBy(o, source) {
      var k, n :| 0 <= k < |o.roomEvents| && 0 <= n < |o.triggerEventIds|
                  && o.roomEvents[k].eventId == o.triggerEventIds[n] && o.roomEvents[k].sourceType == source;
      assert o.roomEvents[k] in o.roomEvents && o.roomEvents[k].eventId in o.triggerEventIds;
    }
  }

  lemma SystemAudioIff(o: Observation)
    ensures (exists e :: e in o.roomEvents && e.eventId in o.triggerEventIds && IsSystemAudio(e)) <==> FromSystemAudio(o)
  {
    if e :| e in o.roomEvents && e.eventId in o.triggerEventIds && IsSystemAudio(e) {
      var k :| 0 <= k < |o.roomEvents| && o.roomEvents[k] == e;
      var n :| 0 <= n < |o.triggerEventIds| && o.triggerEventIds[n] == e.eventId;
      assert o.roomEvents[k].eventId == o.triggerEventIds[n];
    }
    if FromSystemAudio(o) {
      var k, n :| 0 <= k < |o.roomEvents| && 0 <= n < |o.triggerEventIds|
                  && o.roomEvents[k].eventId == o.triggerEventIds[n] && o.roomEvents[k].sourceType == SystemEvent
                  && "event" in o.roomEvents[k].payload && o.roomEvents[k].payload["event"] == Text("system_audio_transcript");
      assert o.roomEvents[k] in o.roomEvents && o.roomEvents[k].eventId in o.triggerEventIds && IsSystemAudio(o.roomEvents[k]);
    }
  }

  /** User input has priority 3; without it, the screen and system audio have 2, everything else 1. */
  lemma PriorityIs(o: Observation)
    ensures Priority(o) == if FromUser(o) then 3 else if FromScreen(o) || FromSystemAudio(o) then 2 else 1
    ensures IsAmbient(o) <==> MarkedAmbient(o)
  {
    TriggeredIff(o, UserText);
    TriggeredIff(o, UserVoice);
    TriggeredIff(o, ScreenObservation);
    SystemAudioIff(o);
  }

  /** The screen alone triggers: it does, no event from any other source does, and the observation is
      not marked ambient. */
  lemma ScreenOnlyIs(o: Observation)
    ensures IsScreenOnly(o) <==>
            FromScreen(o) && (forall source :: TriggeredBy(o, source) ==> source == ScreenObservation) && !MarkedAmbient(o)
  {
    forall source
      ensures source in TriggerSources(o) <==> TriggeredBy(o, source)
    {
      TriggeredIff(o, source);
    }
    if forall source :: TriggeredBy(o, source) ==> source == ScreenObservation {
      assert TriggerSources(o) - {ScreenObservation} == {};
    }
    if source :| TriggeredBy(o, source) && source != ScreenObservation {
      assert source in TriggerSources(o) - {ScreenObservation};
    }
  }

  /** The order behind the scheduler's branches: the screen alone ranks lowest, then the rest by
      priority. */
  lemma RankIs(o: Observation)
    ensures Rank(o) == 3 <==> FromUser(o)
    ensures Rank(o) == 0 <==> FromScreen(o) && (forall source :: TriggeredBy(o, source) ==> source == ScreenObservation) && !MarkedAmbient(o)
    ensures Rank(o) == 2 <==> !FromUser(o) && (FromScreen(o) || FromSystemAudio(o)) && Rank(o) != 0
    ensures Rank(o) == 1 <==> !FromUser(o) && !FromScreen(o) && !FromSystemAudio(o)
  {
    PriorityIs(o);
    ScreenOnlyIs(o);
  }
}
