/** Observations, their scheduling class, and the merge of two pending observations. */
module Observations {
  import opened Lexicographic
  import opened Options
  import opened OrderedDict
  import opened Sequences

  datatype EventSource = UserText | UserVoice | AudienceBarrage | ScreenObservation | SystemEvent

  /** A payload entry, as far as the scheduler looks at it: a string or something else. */
  datatype PayloadValue = Text(value: string) | NonText

  datatype RoomEvent = RoomEvent(
    eventId: string,
    sequence: int,
    sourceType: EventSource,
    payload: map<string, PayloadValue>)

  datatype FrameRef = FrameRef(frameId: string, createdAtMs: int, mimeType: string, dataRef: string)

  datatype Observation = Observation(
    sessionId: string,
    observationId: string,
    createdAtMs: int,
    frames: seq<FrameRef>,
    roomEvents: seq<RoomEvent>,
    triggerEventIds: seq<string>,
    triggerFrameIds: seq<string>,
    userContext: map<string, string>,
    targetViewerId: Option<string>,
    targetPersonaId: Option<string>,
    targetAmbiguous: bool)

  datatype TargetKind = Viewer | Persona

  type Target = (TargetKind, string)

  // ---------------------------------------------------------------------------------------
  // Well-formedness
  // ---------------------------------------------------------------------------------------

  /** What the constructor of an observation enforces (of the fields that are modelled). */
  ghost predicate Valid(o: Observation) {
    match o
    case Observation(_, _, _, frames, roomEvents, triggerEventIds, triggerFrameIds, _, viewerId, personaId, ambiguous) =>
      && !(viewerId.Some? && personaId.Some?)
      && (ambiguous ==> viewerId.None? && personaId.None?)
      && viewerId != Some("") && personaId != Some("")
      && (forall id :: id in triggerEventIds ==> exists e :: e in roomEvents && e.eventId == id)
      && (forall id :: id in triggerFrameIds ==> exists f :: f in frames && f.frameId == id)
      && NoDuplicates(triggerEventIds) && NoDuplicates(triggerFrameIds)
  }

  /** The room's event log: an event id denotes one event. */
  type World = map<string, RoomEvent>

  ghost predicate Agrees(o: Observation, world: World) {
    forall e :: e in o.roomEvents ==> e.eventId in world && world[e.eventId] == e
  }

  // ---------------------------------------------------------------------------------------
  // Scheduling class
  // ---------------------------------------------------------------------------------------

  predicate IsTrigger(o: Observation, e: RoomEvent) {
    e in o.roomEvents && e.eventId in o.triggerEventIds
  }

  /** The sources of the triggering events. */
  function TriggerSources(o: Observation): set<EventSource> {
    set e | e in o.roomEvents && e.eventId in o.triggerEventIds :: e.sourceType
  }

  predicate IsSystemAudio(e: RoomEvent) {
    && e.sourceType == SystemEvent
    && "event" in e.payload
    && e.payload["event"] == Text("system_audio_transcript")
  }

  function Priority(o: Observation): nat {
    if UserText in TriggerSources(o) || UserVoice in TriggerSources(o) then 3
    else if
      || o.triggerFrameIds != []
      || ScreenObservation in TriggerSources(o)
      || exists e :: e in o.roomEvents && e.eventId in o.triggerEventIds && IsSystemAudio(e)
    then 2
    else 1
  }

  predicate IsAmbient(o: Observation) {
    "ambient" in o.userContext && o.userContext["ambient"] == "true"
  }

  predicate IsScreenOnly(o: Observation) {
    && (o.triggerFrameIds != [] || ScreenObservation in TriggerSources(o))
    && TriggerSources(o) - {ScreenObservation} == {}
    && !IsAmbient(o)
  }

  predicate ScreenTriggerYieldsTo(candidate: Observation, existing: Observation) {
    IsScreenOnly(candidate) && !IsScreenOnly(existing)
  }

  predicate CanMergePending(first: Observation, latest: Observation) {
    if Priority(first) != Priority(latest) then false
    else if Priority(first) == 3 then true
    else IsAmbient(first) == IsAmbient(latest) && IsScreenOnly(first) == IsScreenOnly(latest)
  }

  /** The single order behind the branches: screen-only, then other priority 1, then other 2. */
  function Rank(o: Observation): nat {
    if IsScreenOnly(o) then 0 else Priority(o)
  }

  // ---------------------------------------------------------------------------------------
  // Merging
  // ---------------------------------------------------------------------------------------

  function FrameId(f: FrameRef): string { f.frameId }

  function EventId(e: RoomEvent): string { e.eventId }

  function FrameKey(f: FrameRef): seq<int> { [f.createdAtMs] + Codes(f.frameId) }

  function EventKey(e: RoomEvent): seq<int> { [e.sequence] + Codes(e.eventId) }

  /** Index by id, later elements winning, then sort by time (or sequence) and id. */
  function Canonical<T>(s: seq<T>, id: T -> string, key: T -> seq<int>): seq<T> {
    Sort(Values(Index(s, id)), key)
  }

  /** `tuple(dict.fromkeys(s))`: the first occurrences, in order. */
  function Dedupe(s: seq<string>): seq<string> {
    if s == [] then []
    else
      var front := Dedupe(s[..|s| - 1]);
      if s[|s| - 1] in front then front else front + [s[|s| - 1]]
  }

  /** The string stored under a payload key, when it is a non-empty string. */
  function PayloadTarget(e: RoomEvent, name: string, kind: TargetKind): set<Target> {
    if name in e.payload && e.payload[name].Text? && e.payload[name].value != ""
    then {(kind, e.payload[name].value)}
    else {}
  }

  function EventTargets(e: RoomEvent): set<Target> {
    PayloadTarget(e, "target_viewer_id", Viewer) + PayloadTarget(e, "target_persona_id", Persona)
  }

  function DirectTargets(o: Observation): set<Target> {
    (if o.targetViewerId.Some? then {(Viewer, o.targetViewerId.value)} else {})
    + (if o.targetPersonaId.Some? then {(Persona, o.targetPersonaId.value)} else {})
  }

  function TriggerTargets(o: Observation): set<Target> {
    set e, t | e in o.roomEvents && e.eventId in o.triggerEventIds && t in EventTargets(e) :: t
  }

  /** Every target an observation names, itself or through its triggering events. */
  function AllTargets(o: Observation): set<Target> {
    DirectTargets(o) + TriggerTargets(o)
  }

  datatype MergedTarget = MergedTarget(viewer: Option<string>, persona: Option<string>, ambiguous: bool)

  /** The outcome for a set of named targets. */
  function Outcome(ambiguous: bool, targets: set<Target>): MergedTarget {
    if ambiguous then MergedTarget(None, None, true)
    else if |targets| != 1 then MergedTarget(None, None, |targets| > 1)
    else TheOnly(targets)
  }

  function TheOnly(targets: set<Target>): (m: MergedTarget)
    requires |targets| == 1
  {
    SingletonUnique(targets);
    var t :| t in targets;
    if t.0 == Viewer then MergedTarget(Some(t.1), None, false) else MergedTarget(None, Some(t.1), false)
  }

  lemma SingletonUnique<T>(s: set<T>)
    requires |s| == 1
    ensures forall a, b :: a in s && b in s ==> a == b
  {
    forall a, b | a in s && b in s
      ensures a == b
    {
      assert |s - {a}| == 0;
      assert b == a || b in s - {a};
    }
  }

  function MergeTargets(first: Observation, latest: Observation): MergedTarget {
    Outcome(first.targetAmbiguous || latest.targetAmbiguous, AllTargets(first) + AllTargets(latest))
  }

  function Merge(first: Observation, latest: Observation): Observation
    requires first.sessionId == latest.sessionId
  {
    var m := MergeTargets(first, latest);
    Observation(
      first.sessionId,
      latest.observationId,
      if first.createdAtMs <= latest.createdAtMs then first.createdAtMs else latest.createdAtMs,
      Canonical(first.frames + latest.frames, FrameId, FrameKey),
      Canonical(first.roomEvents + latest.roomEvents, EventId, EventKey),
      Dedupe(first.triggerEventIds + latest.triggerEventIds),
      Dedupe(first.triggerFrameIds + latest.triggerFrameIds),
      first.userContext + latest.userContext,
      m.viewer, m.persona, m.ambiguous)
  }
}
