/** What a merged observation contains, field by field, in terms of its two parts and of whole runs. */
module ObservationContents {
  import opened Lexicographic
  import opened Observations
  import opened ObservationMerging
  import opened Options
  import opened OrderedDict
  import Sequences

  /** all without repetitions: first's elements in their order, then what latest adds, in its order. */
  ghost predicate JoinsIds(all: seq<string>, first: seq<string>, latest: seq<string>) {
    && Sequences.NoDuplicates(all) && first <= all && Sequences.Subsequence(all[|first|..], latest)
    && forall x :: x in all <==> x in first || x in latest
  }

  ghost predicate EventsAscend(events: seq<RoomEvent>) {
    forall i, j :: 0 <= i < j < |events| ==>
      || events[i].sequence < events[j].sequence
      || (events[i].sequence == events[j].sequence && Less(Codes(events[i].eventId), Codes(events[j].eventId)))
  }

  ghost predicate FramesAscend(frames: seq<FrameRef>) {
    forall i, j :: 0 <= i < j < |frames| ==>
      || frames[i].createdAtMs < frames[j].createdAtMs
      || (frames[i].createdAtMs == frames[j].createdAtMs && Less(Codes(frames[i].frameId), Codes(frames[j].frameId)))
  }

  /** f is the last frame of all with its id. */
  ghost predicate LastWithId(f: FrameRef, all: seq<FrameRef>) {
    exists i :: 0 <= i < |all| && all[i] == f && forall j :: i < j < |all| ==> all[j].frameId != f.frameId
  }

  ghost predicate NamesInPayload(o: Observation, field: string, target: string) {
    exists e :: e in o.roomEvents && e.eventId in o.triggerEventIds && field in e.payload && e.payload[field] == Text(target)
  }

  ghost predicate NamesViewer(o: Observation, viewer: string) {
    o.targetViewerId == Some(viewer) || (viewer != "" && NamesInPayload(o, "target_viewer_id", viewer))
  }

  ghost predicate NamesPersona(o: Observation, persona: string) {
    o.targetPersonaId == Some(persona) || (persona != "" && NamesInPayload(o, "target_persona_id", persona))
  }

  /** Either part names the target, itself or in the payload of a triggering event. */
  ghost predicate Named(first: Observation, latest: Observation, t: Target) {
    match t.0
    case Viewer => NamesViewer(first, t.1) || NamesViewer(latest, t.1)
    case Persona => NamesPersona(first, t.1) || NamesPersona(latest, t.1)
  }

  ghost predicate TargetsOf(m: Observation, first: Observation, latest: Observation) {
    && (m.targetAmbiguous <==>
          first.targetAmbiguous || latest.targetAmbiguous || exists a, b :: a != b && Named(first, latest, a) && Named(first, latest, b))
    && (forall v :: m.targetViewerId == Some(v) <==> !m.targetAmbiguous && Named(first, latest, (Viewer, v)))
    && (forall p :: m.targetPersonaId == Some(p) <==> !m.targetAmbiguous && Named(first, latest, (Persona, p)))
  }

  /** m is what an observation of the session becomes when a later one is merged into it: it carries
      the later one's id and the earlier creation time; the events, triggers and frames of both, in
      order, a later frame replacing one with the same id; both contexts, the later one's values
      winning; and the one target that is named, unless there are two or one part is ambiguous. */
  ghost predicate Contains(m: Observation, first: Observation, latest: Observation) {
    match m
    case Observation(sessionId, observationId, createdAtMs, frames, events, triggerEventIds, triggerFrameIds, context, _, _, _) =>
      && sessionId == first.sessionId && observationId == latest.observationId
      && createdAtMs <= first.createdAtMs && createdAtMs <= latest.createdAtMs
      && (createdAtMs == first.createdAtMs || createdAtMs == latest.createdAtMs)
      && (forall e :: e in events <==> e in first.roomEvents || e in latest.roomEvents) && EventsAscend(events)
      && JoinsIds(triggerEventIds, first.triggerEventIds, latest.triggerEventIds)
      && JoinsIds(triggerFrameIds, first.triggerFrameIds, latest.triggerFrameIds)
      && (forall f :: f in frames <==> LastWithId(f, first.frames + latest.frames)) && FramesAscend(frames)
      && (forall k :: k in context <==> k in first.userContext || k in latest.userContext)
      && (forall k :: k in context ==> context[k] == if k in latest.userContext then latest.userContext[k] else first.userContext[k])
      && TargetsOf(m, first, latest)
  }

  // ---------------------------------------------------------------------------------------
  // Order
  // ---------------------------------------------------------------------------------------

  lemma PairOrder(x: int, s: string, y: int, t: string)
    ensures Less([x] + Codes(s), [y] + Codes(t)) <==> x < y || (x == y && Less(Codes(s), Codes(t)))
  {
    assert ([x] + Codes(s))[1..] == Codes(s) && ([y] + Codes(t))[1..] == Codes(t);
  }

  lemma MergedEventsAscend(a: seq<RoomEvent>)
    ensures EventsAscend(Canonical(a, EventId, EventKey))
  {
    var c := Canonical(a, EventId, EventKey);
    EventKeyFixesId();
    CanonicalElements(a, EventId, EventKey);
    forall i, j | 0 <= i < j < |c|
      ensures c[i].sequence < c[j].sequence || (c[i].sequence == c[j].sequence && Less(Codes(c[i].eventId), Codes(c[j].eventId)))
    {
      PairOrder(c[i].sequence, c[i].eventId, c[j].sequence, c[j].eventId);
    }
  }

  lemma MergedFramesAscend(a: seq<FrameRef>)
    ensures FramesAscend(Canonical(a, FrameId, FrameKey))
  {
    var c := Canonical(a, FrameId, FrameKey);
    FrameKeyFixesId();
    CanonicalElements(a, FrameId, FrameKey);
    forall i, j | 0 <= i < j < |c|
      ensures c[i].createdAtMs < c[j].createdAtMs || (c[i].createdAtMs == c[j].createdAtMs && Less(Codes(c[i].frameId), Codes(c[j].frameId)))
    {
      PairOrder(c[i].createdAtMs, c[i].frameId, c[j].createdAtMs, c[j].frameId);
    }
  }

  lemma MergedFramesAreLast(a: seq<FrameRef>, f: FrameRef)
    ensures f in Canonical(a, FrameId, FrameKey) <==> LastWithId(f, a)
  {
    FrameKeyFixesId();
    CanonicalElements(a, FrameId, FrameKey);
    IndexDistinct(a, FrameId);
    EntryIff(Index(a, FrameId), f.frameId, f);
    IndexCovers(a, FrameId);
    if f.frameId in ToMap(Index(a, FrameId)) {
      IndexIsLast(a, FrameId, f.frameId);
      var i :| 0 <= i < |a| && IsLast(a, FrameId, i, f.frameId) && a[i] == ToMap(Index(a, FrameId))[f.frameId];
      if LastWithId(f, a) {
        var j :| 0 <= j < |a| && a[j] == f && forall k :: j < k < |a| ==> a[k].frameId != f.frameId;
        assert FrameId(a[j]) == f.frameId;
        assert i == j;
      }
    }
  }

  // ---------------------------------------------------------------------------------------
  // Ids
  // ---------------------------------------------------------------------------------------

  lemma {:induction false} ExtendAppends(acc: seq<string>, b: seq<string>)
    ensures acc <= Extend(acc, b) && Sequences.Subsequence(Extend(acc, b)[|acc|..], b)
  {
    if b == [] {
      Sequences.Empty<string>(b);
      assert Extend(acc, b)[|acc|..] == [];
    } else {
      var front, last := b[..|b| - 1], b[|b| - 1];
      ExtendAppends(acc, front);
      var added := Extend(acc, front)[|acc|..];
      assert b == front + [last];
      Sequences.Extend(added, front, last);
      Sequences.Skip(added, front, last);
      assert (Extend(acc, front) + [last])[|acc|..] == added + [last];
    }
  }

  lemma MergedIds(first: seq<string>, latest: seq<string>)
    requires Sequences.NoDuplicates(first)
    ensures JoinsIds(Dedupe(first + latest), first, latest)
  {
    DedupeIsExtend(first, latest);
    DedupeFixed(first);
    ExtendAppends(first, latest);
    DedupeMembers(first, latest);
  }

  // ---------------------------------------------------------------------------------------
  // Targets
  // ---------------------------------------------------------------------------------------

  lemma TargetNamed(o: Observation, t: Target)
    ensures t in AllTargets(o) <==> if t.0.Viewer? then NamesViewer(o, t.1) else NamesPersona(o, t.1)
  {
    TriggerTargetIff(o, t);
    forall e: RoomEvent
      ensures t in EventTargets(e) <==>
              t.1 != "" && (if t.0.Viewer? then "target_viewer_id" in e.payload && e.payload["target_viewer_id"] == Text(t.1)
                            else "target_persona_id" in e.payload && e.payload["target_persona_id"] == Text(t.1))
    {
    }
    if t in TriggerTargets(o) {
      var e :| IsTrigger(o, e) && t in EventTargets(e);
      assert e in o.roomEvents && e.eventId in o.triggerEventIds;
    }
    if t.1 != "" && NamesInPayload(o, if t.0.Viewer? then "target_viewer_id" else "target_persona_id", t.1) {
      NamedInPayload(o, t);
    }
  }

  lemma NamedInPayload(o: Observation, t: Target)
    requires t.1 != "" && NamesInPayload(o, if t.0.Viewer? then "target_viewer_id" else "target_persona_id", t.1)
    ensures exists e :: IsTrigger(o, e) && t in EventTargets(e)
  {
    var field := if t.0.Viewer? then "target_viewer_id" else "target_persona_id";
    var e :| e in o.roomEvents && e.eventId in o.triggerEventIds && field in e.payload && e.payload[field] == Text(t.1);
    assert IsTrigger(o, e) && t in EventTargets(e);
  }

  lemma SeveralIff(targets: set<Target>)
    ensures |targets| > 1 <==> exists a, b :: a != b && a in targets && b in targets
  {
    if |targets| == 1 {
      SingletonUnique(targets);
    } else if |targets| > 1 {
      var a :| a in targets;
      assert |targets - {a}| > 0;
      var b :| b in targets - {a};
    }
  }

  /** The outcome for a set of targets. */
  lemma OutcomeIs(ambiguous: bool, all: set<Target>)
    ensures var m := Outcome(ambiguous, all);
            && (m.ambiguous <==> ambiguous || exists a, b :: a != b && a in all && b in all)
            && (forall v :: m.viewer == Some(v) <==> !m.ambiguous && (Viewer, v) in all)
            && (forall p :: m.persona == Some(p) <==> !m.ambiguous && (Persona, p) in all)
  {
    var m := Outcome(ambiguous, all);
    OutcomeTargets(ambiguous, all);
    SeveralIff(all);
    if !m.ambiguous {
      forall t: Target | t in all
        ensures all == {t}
      {
      }
    }
  }

  lemma MergedTargets(first: Observation, latest: Observation)
    requires first.sessionId == latest.sessionId
    ensures TargetsOf(Merge(first, latest), first, latest)
  {
    var all := AllTargets(first) + AllTargets(latest);
    OutcomeIs(first.targetAmbiguous || latest.targetAmbiguous, all);
    forall t: Target
      ensures t in all <==> Named(first, latest, t)
    {
      TargetNamed(first, t);
      TargetNamed(latest, t);
    }
    TargetsFromSet(Merge(first, latest), first, latest, all);
  }

  lemma TargetsFromSet(m: Observation, first: Observation, latest: Observation, all: set<Target>)
    requires forall t :: t in all <==> Named(first, latest, t)
    requires m.targetAmbiguous <==> first.targetAmbiguous || latest.targetAmbiguous || exists a, b :: a != b && a in all && b in all
    requires forall v :: m.targetViewerId == Some(v) <==> !m.targetAmbiguous && (Viewer, v) in all
    requires forall p :: m.targetPersonaId == Some(p) <==> !m.targetAmbiguous && (Persona, p) in all
    ensures TargetsOf(m, first, latest)
  {
    if a, b :| a != b && Named(first, latest, a) && Named(first, latest, b) {
      assert a in all && b in all;
    }
  }

  // ---------------------------------------------------------------------------------------
  // Merges
  // ---------------------------------------------------------------------------------------

  lemma MergeContains(first: Observation, latest: Observation, world: World)
    requires first.sessionId == latest.sessionId && Mergeable(first, world) && Mergeable(latest, world)
    ensures Contains(Merge(first, latest), first, latest)
  {
    MergeEvents(first, latest, world);
    MergedEventsAscend(first.roomEvents + latest.roomEvents);
    MergedFramesAscend(first.frames + latest.frames);
    MergedIds(first.triggerEventIds, latest.triggerEventIds);
    MergedIds(first.triggerFrameIds, latest.triggerFrameIds);
    MergedTargets(first, latest);
    forall f
      ensures f in Merge(first, latest).frames <==> LastWithId(f, first.frames + latest.frames)
    {
      MergedFramesAreLast(first.frames + latest.frames, f);
    }
  }

  lemma SplitRun(os: seq<Observation>)
    requires os != []
    ensures forall o :: o in os <==> o in os[..|os| - 1] || o == os[|os| - 1]
  {
    assert os == os[..|os| - 1] + [os[|os| - 1]];
  }

  ghost predicate EarliestOf(createdAtMs: int, os: seq<Observation>) {
    (forall o :: o in os ==> createdAtMs <= o.createdAtMs) && exists o :: o in os && createdAtMs == o.createdAtMs
  }

  lemma EarliestMore(before: int, os: seq<Observation>)
    requires os != [] && EarliestOf(before, os[..|os| - 1])
    ensures EarliestOf(if before <= os[|os| - 1].createdAtMs then before else os[|os| - 1].createdAtMs, os)
  {
    SplitRun(os);
    var o :| o in os[..|os| - 1] && before == o.createdAtMs;
    assert o in os;
  }

  /** A merged run has the last observation's id and the earliest creation time ... */
  lemma {:induction false} RunIdentity(os: seq<Observation>, session: string, world: World)
    requires os != [] && OneRoom(os, session, world)
    ensures MergeRun(os, session, world).observationId == os[|os| - 1].observationId
    ensures EarliestOf(MergeRun(os, session, world).createdAtMs, os)
  {
    SplitRun(os);
    if |os| > 1 {
      RunIdentity(os[..|os| - 1], session, world);
      EarliestMore(MergeRun(os[..|os| - 1], session, world).createdAtMs, os);
    } else {
      assert os[0] in os;
    }
  }

  /** ... the events of all its observations ... */
  lemma {:induction false} RunEvents(os: seq<Observation>, session: string, world: World, e: RoomEvent)
    requires os != [] && OneRoom(os, session, world)
    ensures e in MergeRun(os, session, world).roomEvents <==> exists o :: o in os && e in o.roomEvents
  {
    SplitRun(os);
    if |os| > 1 {
      RunEvents(os[..|os| - 1], session, world, e);
      MergeEvents(MergeRun(os[..|os| - 1], session, world), os[|os| - 1], world);
    } else {
      assert os[0] in os;
    }
  }

  /** ... and their triggers. */
  lemma {:induction false} RunTriggers(os: seq<Observation>, session: string, world: World, x: string)
    requires os != [] && OneRoom(os, session, world)
    ensures x in MergeRun(os, session, world).triggerEventIds <==> exists o :: o in os && x in o.triggerEventIds
    ensures x in MergeRun(os, session, world).triggerFrameIds <==> exists o :: o in os && x in o.triggerFrameIds
  {
    SplitRun(os);
    if |os| > 1 {
      var m := MergeRun(os[..|os| - 1], session, world);
      RunTriggers(os[..|os| - 1], session, world, x);
      DedupeMembers(m.triggerEventIds, os[|os| - 1].triggerEventIds);
      DedupeMembers(m.triggerFrameIds, os[|os| - 1].triggerFrameIds);
    } else {
      assert os[0] in os;
    }
  }
}
