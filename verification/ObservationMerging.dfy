/** Merging pending observations is a semigroup that preserves the scheduling class. */
module ObservationMerging {
  import opened Lexicographic
  import opened Options
  import opened OrderedDict
  import opened Observations
  import opened Sequences
  import opened Sets

  // ---------------------------------------------------------------------------------------
  // Frames and events: the canonical form of a concatenation
  // ---------------------------------------------------------------------------------------

  /** Elements with equal sort keys have equal ids. */
  ghost predicate KeyFixesId<T(!new)>(id: T -> string, key: T -> seq<int>) {
    forall x, y {:trigger key(x), key(y)} :: key(x) == key(y) ==> id(x) == id(y)
  }

  lemma FrameKeyFixesId()
    ensures KeyFixesId(FrameId, FrameKey)
  {
    forall x: FrameRef, y: FrameRef | FrameKey(x) == FrameKey(y)
      ensures FrameId(x) == FrameId(y)
    {
      assert FrameKey(x)[1..] == Codes(x.frameId) && FrameKey(y)[1..] == Codes(y.frameId);
      CodesInjective(x.frameId, y.frameId);
    }
  }

  lemma EventKeyFixesId()
    ensures KeyFixesId(EventId, EventKey)
  {
    forall x: RoomEvent, y: RoomEvent | EventKey(x) == EventKey(y)
      ensures EventId(x) == EventId(y)
    {
      assert EventKey(x)[1..] == Codes(x.eventId) && EventKey(y)[1..] == Codes(y.eventId);
      CodesInjective(x.eventId, y.eventId);
    }
  }

  lemma IndexValues<T(!new)>(s: seq<T>, id: T -> string, key: T -> seq<int>)
    requires KeyFixesId(id, key)
    ensures DistinctKeys(Values(Index(s, id)), key)
    ensures forall v :: v in Values(Index(s, id)) <==> (id(v), v) in Index(s, id)
  {
    IndexDistinct(s, id);
    var d := Index(s, id);
    forall v | v in Values(d)
      ensures (id(v), v) in d
    {
      var i :| 0 <= i < |d| && Values(d)[i] == v;
      assert d[i] == (id(v), v);
    }
    forall v | (id(v), v) in d
      ensures v in Values(d)
    {
      var i :| 0 <= i < |d| && d[i] == (id(v), v);
      assert Values(d)[i] == v;
    }
  }

  /** The canonical form depends on the indexed content only. */
  lemma CanonicalByContent<T(!new)>(a: seq<T>, b: seq<T>, id: T -> string, key: T -> seq<int>)
    requires KeyFixesId(id, key)
    requires ToMap(Index(a, id)) == ToMap(Index(b, id))
    ensures Canonical(a, id, key) == Canonical(b, id, key)
  {
    IndexDistinct(a, id);
    IndexDistinct(b, id);
    IndexValues(a, id, key);
    IndexValues(b, id, key);
    forall v
      ensures v in Values(Index(a, id)) <==> v in Values(Index(b, id))
    {
      EntryIff(Index(a, id), id(v), v);
      EntryIff(Index(b, id), id(v), v);
    }
    SortCanonical(Values(Index(a, id)), Values(Index(b, id)), key);
  }

  lemma {:induction false} IndexOfDistinct<T>(s: seq<T>, id: T -> string)
    requires forall i, j :: 0 <= i < j < |s| ==> id(s[i]) != id(s[j])
    ensures Values(Index(s, id)) == s
  {
    if s != [] {
      var front, last := s[..|s| - 1], s[|s| - 1];
      IndexOfDistinct(front, id);
      IndexDistinct(front, id);
      NewIdAtEnd(Index(front, id), front, id, last);
      assert s == front + [last];
    }
  }

  lemma NewIdAtEnd<T>(d: Dict<string, T>, front: seq<T>, id: T -> string, last: T)
    requires Values(d) == front && forall i :: 0 <= i < |d| ==> d[i].0 == id(d[i].1)
    requires forall i :: 0 <= i < |front| ==> id(front[i]) != id(last)
    ensures Values(Put(d, id(last), last)) == front + [last]
  {
    assert forall i :: 0 <= i < |d| ==> d[i].1 == Values(d)[i];
    assert !Has(d, id(last));
    assert Values(d + [(id(last), last)]) == Values(d) + [last];
  }

  lemma CanonicalElements<T(!new)>(a: seq<T>, id: T -> string, key: T -> seq<int>)
    requires KeyFixesId(id, key)
    ensures Ascending(Canonical(a, id, key), key)
    ensures forall v :: v in Canonical(a, id, key) <==> (id(v), v) in Index(a, id)
  {
    IndexValues(a, id, key);
    SortSorts(Values(Index(a, id)), key);
    forall v
      ensures v in Canonical(a, id, key) <==> v in Values(Index(a, id))
    {
      assert v in Elements(Canonical(a, id, key)) <==> v in Elements(Values(Index(a, id)));
    }
  }

  lemma AscendingIdsDiffer<T(!new)>(c: seq<T>, d: Dict<string, T>, id: T -> string, key: T -> seq<int>)
    requires Ascending(c, key) && Distinct(d)
    requires forall v :: v in c ==> (id(v), v) in d
    ensures forall i, j :: 0 <= i < j < |c| ==> id(c[i]) != id(c[j])
  {
    forall i, j | 0 <= i < j < |c|
      ensures id(c[i]) != id(c[j])
    {
      EntryIff(d, id(c[i]), c[i]);
      EntryIff(d, id(c[j]), c[j]);
      LessIrreflexive(key(c[i]));
    }
  }

  /** Dictionaries with distinct keys and the same entries have the same content. */
  lemma SameEntriesSameMap<T>(d: Dict<string, T>, e: Dict<string, T>)
    requires Distinct(d) && Distinct(e)
    requires forall k, v :: (k, v) in d <==> (k, v) in e
    ensures ToMap(d) == ToMap(e)
  {
    forall k | k in ToMap(d)
      ensures k in ToMap(e) && ToMap(e)[k] == ToMap(d)[k]
    {
      EntryIff(d, k, ToMap(d)[k]);
      EntryIff(e, k, ToMap(d)[k]);
    }
    forall k | k in ToMap(e)
      ensures k in ToMap(d)
    {
      EntryIff(e, k, ToMap(e)[k]);
      EntryIff(d, k, ToMap(e)[k]);
    }
  }

  lemma IndexEntries<T>(s: seq<T>, id: T -> string, k: string, v: T)
    requires (k, v) in Index(s, id)
    ensures k == id(v) && v in s
  {
    IndexDistinct(s, id);
    var i :| 0 <= i < |Index(s, id)| && Index(s, id)[i] == (k, v);
  }

  /** Canonicalising keeps the indexed content. */
  lemma CanonicalContent<T(!new)>(a: seq<T>, id: T -> string, key: T -> seq<int>)
    requires KeyFixesId(id, key)
    ensures ToMap(Index(Canonical(a, id, key), id)) == ToMap(Index(a, id))
  {
    var d, c := Index(a, id), Canonical(a, id, key);
    IndexDistinct(a, id);
    CanonicalElements(a, id, key);
    AscendingIdsDiffer(c, d, id, key);
    IndexOfDistinct(c, id);
    IndexDistinct(c, id);
    IndexValues(c, id, key);
    forall k, v
      ensures (k, v) in Index(c, id) <==> (k, v) in d
    {
      if (k, v) in Index(c, id) {
        IndexEntries(c, id, k, v);
      }
      if (k, v) in d {
        IndexEntries(a, id, k, v);
      }
    }
    SameEntriesSameMap(Index(c, id), d);
  }

  /** Canonicalising a part first changes nothing. */
  lemma CanonicalAbsorbs<T(!new)>(a: seq<T>, b: seq<T>, id: T -> string, key: T -> seq<int>)
    requires KeyFixesId(id, key)
    ensures Canonical(Canonical(a, id, key) + b, id, key) == Canonical(a + b, id, key)
    ensures Canonical(a + Canonical(b, id, key), id, key) == Canonical(a + b, id, key)
  {
    CanonicalContent(a, id, key);
    CanonicalContent(b, id, key);
    IndexConcat(a, b, id);
    IndexConcat(Canonical(a, id, key), b, id);
    IndexConcat(a, Canonical(b, id, key), id);
    CanonicalByContent(Canonical(a, id, key) + b, a + b, id, key);
    CanonicalByContent(a + Canonical(b, id, key), a + b, id, key);
  }

  lemma ConcatAssociative<T>(a: seq<T>, b: seq<T>, c: seq<T>)
    ensures (a + b) + c == a + (b + c)
  {
  }

  lemma CanonicalAssociative<T(!new)>(a: seq<T>, b: seq<T>, c: seq<T>, id: T -> string, key: T -> seq<int>)
    requires KeyFixesId(id, key)
    ensures Canonical(Canonical(a + b, id, key) + c, id, key) == Canonical(a + Canonical(b + c, id, key), id, key)
  {
    ConcatAssociative(a, b, c);
    CanonicalAbsorbs(a + b, c, id, key);
    CanonicalAbsorbs(a, b + c, id, key);
  }

  // ---------------------------------------------------------------------------------------
  // Trigger ids: first occurrences
  // ---------------------------------------------------------------------------------------

  /** Append the elements of b that are not yet in acc. */
  ghost function Extend(acc: seq<string>, b: seq<string>): seq<string> {
    if b == [] then acc
    else
      var front := Extend(acc, b[..|b| - 1]);
      if b[|b| - 1] in front then front else front + [b[|b| - 1]]
  }

  lemma {:induction false} DedupeIsExtend(a: seq<string>, b: seq<string>)
    ensures Dedupe(a + b) == Extend(Dedupe(a), b)
  {
    if b == [] {
      assert a + b == a;
    } else {
      assert (a + b)[..|a + b| - 1] == a + b[..|b| - 1];
      DedupeIsExtend(a, b[..|b| - 1]);
    }
  }

  lemma {:induction false} DedupeElements(s: seq<string>)
    ensures Elements(Dedupe(s)) == Elements(s)
    ensures NoDuplicates(Dedupe(s))
  {
    if s != [] {
      var front := s[..|s| - 1];
      DedupeElements(front);
      assert s == front + [s[|s| - 1]];
      forall x
        ensures x in Dedupe(front) <==> x in front
      {
        assert x in Elements(Dedupe(front)) <==> x in Elements(front);
      }
    }
  }

  lemma {:induction false} DedupeFixed(s: seq<string>)
    requires NoDuplicates(s)
    ensures Dedupe(s) == s
  {
    if s != [] {
      DedupeFixed(s[..|s| - 1]);
      assert s == s[..|s| - 1] + [s[|s| - 1]];
    }
  }

  lemma {:induction false} ExtendElements(acc: seq<string>, b: seq<string>)
    ensures forall x :: x in Extend(acc, b) <==> x in acc || x in b
  {
    if b != [] {
      ExtendElements(acc, b[..|b| - 1]);
      assert b == b[..|b| - 1] + [b[|b| - 1]];
    }
  }

  lemma {:induction false} ExtendDedupe(acc: seq<string>, b: seq<string>)
    ensures Extend(acc, Dedupe(b)) == Extend(acc, b)
  {
    if b != [] {
      var front, last := b[..|b| - 1], b[|b| - 1];
      ExtendDedupe(acc, front);
      DedupeElements(front);
      ExtendElements(acc, front);
      assert last in Elements(Dedupe(front)) <==> last in Elements(front);
      if last !in Dedupe(front) {
        var d := Dedupe(front) + [last];
        assert d[..|d| - 1] == Dedupe(front);
      }
    }
  }

  lemma DedupeAbsorbs(a: seq<string>, b: seq<string>)
    ensures Dedupe(Dedupe(a) + b) == Dedupe(a + b)
    ensures Dedupe(a + Dedupe(b)) == Dedupe(a + b)
  {
    DedupeElements(a);
    DedupeFixed(Dedupe(a));
    DedupeIsExtend(a, b);
    DedupeIsExtend(Dedupe(a), b);
    DedupeIsExtend(a, Dedupe(b));
    ExtendDedupe(Dedupe(a), b);
  }

  lemma DedupeAssociative(a: seq<string>, b: seq<string>, c: seq<string>)
    ensures Dedupe(Dedupe(a + b) + c) == Dedupe(a + Dedupe(b + c))
  {
    ConcatAssociative(a, b, c);
    DedupeAbsorbs(a + b, c);
    DedupeAbsorbs(a, b + c);
  }

  // ---------------------------------------------------------------------------------------
  // Events and targets of a merge
  // ---------------------------------------------------------------------------------------

  ghost predicate Mergeable(o: Observation, world: World) {
    Valid(o) && Agrees(o, world)
  }

  lemma {:induction false} IndexOfUnique<T>(s: seq<T>, id: T -> string)
    requires forall x, y :: x in s && y in s && id(x) == id(y) ==> x == y
    ensures forall x :: x in s <==> (id(x), x) in Index(s, id)
  {
    IndexDistinct(s, id);
    IndexCovers(s, id);
    var d := Index(s, id);
    forall x | x in s
      ensures (id(x), x) in d
    {
      HasIff(d, id(x));
      var e := d[Find(d, id(x))];
      assert e.1 in s && id(e.1) == id(x);
    }
  }

  lemma CanonicalOfUnique<T(!new)>(s: seq<T>, id: T -> string, key: T -> seq<int>)
    requires KeyFixesId(id, key)
    requires forall x, y :: x in s && y in s && id(x) == id(y) ==> x == y
    ensures forall x :: x in Canonical(s, id, key) <==> x in s
  {
    CanonicalElements(s, id, key);
    IndexOfUnique(s, id);
  }

  /** The room events of a merge are those of both parts. */
  lemma MergeEvents(a: Observation, b: Observation, world: World)
    requires a.sessionId == b.sessionId && Mergeable(a, world) && Mergeable(b, world)
    ensures forall e :: e in Merge(a, b).roomEvents <==> e in a.roomEvents || e in b.roomEvents
  {
    EventKeyFixesId();
    CanonicalOfUnique(a.roomEvents + b.roomEvents, EventId, EventKey);
  }

  lemma DedupeMembers(a: seq<string>, b: seq<string>)
    ensures forall x :: x in Dedupe(a + b) <==> x in a || x in b
    ensures NoDuplicates(Dedupe(a + b))
  {
    DedupeElements(a + b);
    forall x
      ensures x in Dedupe(a + b) <==> x in a || x in b
    {
      assert x in Elements(Dedupe(a + b)) <==> x in Elements(a + b);
    }
  }

  /** m has the events and triggers of both a and b. */
  ghost predicate JoinsTriggers(m: Observation, a: Observation, b: Observation) {
    forall e :: IsTrigger(m, e) <==> IsTrigger(a, e) || IsTrigger(b, e)
  }

  lemma TriggersJoin(m: Observation, a: Observation, b: Observation, world: World)
    requires Mergeable(a, world) && Mergeable(b, world)
    requires forall e :: e in m.roomEvents <==> e in a.roomEvents || e in b.roomEvents
    requires forall x :: x in m.triggerEventIds <==> x in a.triggerEventIds || x in b.triggerEventIds
    ensures JoinsTriggers(m, a, b)
  {
  }

  /** The triggering events of a merge are those of both parts. */
  lemma MergeTriggerEvents(a: Observation, b: Observation, world: World)
    requires a.sessionId == b.sessionId && Mergeable(a, world) && Mergeable(b, world)
    ensures JoinsTriggers(Merge(a, b), a, b)
  {
    MergeEvents(a, b, world);
    DedupeMembers(a.triggerEventIds, b.triggerEventIds);
    TriggersJoin(Merge(a, b), a, b, world);
  }

  lemma MergeFrames(a: seq<FrameRef>, b: seq<FrameRef>)
    ensures forall f :: f in a || f in b ==> exists g :: g in Canonical(a + b, FrameId, FrameKey) && g.frameId == f.frameId
  {
    FrameKeyFixesId();
    var s := a + b;
    CanonicalElements(s, FrameId, FrameKey);
    IndexCovers(s, FrameId);
    IndexDistinct(s, FrameId);
    forall f | f in a || f in b
      ensures exists g :: g in Canonical(s, FrameId, FrameKey) && g.frameId == f.frameId
    {
      assert f in s;
      HasIff(Index(s, FrameId), FrameId(f));
      var e := Index(s, FrameId)[Find(Index(s, FrameId), FrameId(f))];
      assert (FrameId(e.1), e.1) in Index(s, FrameId);
    }
  }

  lemma TriggerTargetsJoin(m: Observation, a: Observation, b: Observation)
    requires JoinsTriggers(m, a, b)
    ensures TriggerTargets(m) == TriggerTargets(a) + TriggerTargets(b)
  {
    forall t
      ensures t in TriggerTargets(m) <==> t in TriggerTargets(a) || t in TriggerTargets(b)
    {
      TriggerTargetIff(m, t);
      TriggerTargetIff(a, t);
      TriggerTargetIff(b, t);
    }
  }

  lemma TriggerTargetIff(o: Observation, t: Target)
    ensures t in TriggerTargets(o) <==> exists e :: IsTrigger(o, e) && t in EventTargets(e)
  {
  }

  lemma TargetsNonEmpty(o: Observation, world: World)
    requires Mergeable(o, world)
    ensures forall k: TargetKind :: (k, "") !in AllTargets(o)
  {
    forall k: TargetKind
      ensures (k, "") !in AllTargets(o)
    {
      TriggerTargetIff(o, (k, ""));
    }
  }

  lemma OutcomeTargets(ambiguous: bool, targets: set<Target>)
    ensures var m := Outcome(ambiguous, targets);
            && (m.ambiguous <==> ambiguous || |targets| > 1)
            && !(m.viewer.Some? && m.persona.Some?)
            && (m.viewer.Some? <==> !ambiguous && exists v :: targets == {(Viewer, v)})
            && (m.viewer.Some? ==> targets == {(Viewer, m.viewer.value)})
            && (m.persona.Some? <==> !ambiguous && exists p :: targets == {(Persona, p)})
            && (m.persona.Some? ==> targets == {(Persona, m.persona.value)})
  {
    if !ambiguous && |targets| == 1 {
      SingletonUnique(targets);
      var t :| t in targets;
      assert targets == {t};
      var m := Outcome(ambiguous, targets);
      assert (Viewer, t.1) == t || (Persona, t.1) == t;
    }
    forall t | targets == {t}
      ensures |targets| == 1
    {
    }
  }

  /** The direct targets of an outcome are the named targets, when there is at most one. */
  lemma OutcomeIsTargets(o: Observation, ambiguous: bool, u: set<Target>)
    requires MergedTarget(o.targetViewerId, o.targetPersonaId, o.targetAmbiguous) == Outcome(ambiguous, u)
    requires !o.targetAmbiguous
    ensures DirectTargets(o) == u
  {
    OutcomeTargets(ambiguous, u);
    if u != {} {
      var t :| t in u;
      SubsetSize({t}, u);
      SingletonUnique(u);
      assert u == {t};
      assert t == (Viewer, t.1) || t == (Persona, t.1);
    }
  }

  /** Unless a merge is ambiguous, it names exactly the targets its parts name. */
  lemma MergeKeepsTargets(a: Observation, b: Observation, world: World)
    requires a.sessionId == b.sessionId && Mergeable(a, world) && Mergeable(b, world)
    requires !Merge(a, b).targetAmbiguous
    ensures AllTargets(Merge(a, b)) == AllTargets(a) + AllTargets(b)
  {
    MergeTriggerEvents(a, b, world);
    TriggerTargetsJoin(Merge(a, b), a, b);
    OutcomeIsTargets(Merge(a, b), a.targetAmbiguous || b.targetAmbiguous, AllTargets(a) + AllTargets(b));
  }

  // ---------------------------------------------------------------------------------------
  // Main results
  // ---------------------------------------------------------------------------------------

  lemma MergeTargetValid(a: Observation, b: Observation, world: World)
    requires Mergeable(a, world) && Mergeable(b, world)
    ensures var m := MergeTargets(a, b);
            && !(m.viewer.Some? && m.persona.Some?)
            && (m.ambiguous ==> m.viewer.None? && m.persona.None?)
            && m.viewer != Some("") && m.persona != Some("")
  {
    TargetsNonEmpty(a, world);
    TargetsNonEmpty(b, world);
    var u := AllTargets(a) + AllTargets(b);
    assert (Viewer, "") !in u && (Persona, "") !in u;
    OutcomeTargets(a.targetAmbiguous || b.targetAmbiguous, u);
  }

  /** A merge is again a valid observation of the same room. */
  lemma MergeIsMergeable(a: Observation, b: Observation, world: World)
    requires a.sessionId == b.sessionId && Mergeable(a, world) && Mergeable(b, world)
    ensures Mergeable(Merge(a, b), world)
    ensures Merge(a, b).sessionId == a.sessionId
  {
    MergeEvents(a, b, world);
    MergeFrames(a.frames, b.frames);
    MergeTargetValid(a, b, world);
    DedupeMembers(a.triggerEventIds, b.triggerEventIds);
    DedupeMembers(a.triggerFrameIds, b.triggerFrameIds);
    JoinIsMergeable(Merge(a, b), a, b, world);
  }

  lemma JoinIsMergeable(m: Observation, a: Observation, b: Observation, world: World)
    requires Mergeable(a, world) && Mergeable(b, world)
    requires MergedTarget(m.targetViewerId, m.targetPersonaId, m.targetAmbiguous) == MergeTargets(a, b)
    requires !(m.targetViewerId.Some? && m.targetPersonaId.Some?)
    requires m.targetAmbiguous ==> m.targetViewerId.None? && m.targetPersonaId.None?
    requires m.targetViewerId != Some("") && m.targetPersonaId != Some("")
    requires NoDuplicates(m.triggerEventIds) && NoDuplicates(m.triggerFrameIds)
    requires forall e :: e in m.roomEvents <==> e in a.roomEvents || e in b.roomEvents
    requires forall f :: f in a.frames || f in b.frames ==> exists g :: g in m.frames && g.frameId == f.frameId
    requires forall x :: x in m.triggerEventIds <==> x in a.triggerEventIds || x in b.triggerEventIds
    requires forall x :: x in m.triggerFrameIds <==> x in a.triggerFrameIds || x in b.triggerFrameIds
    ensures Mergeable(m, world)
  {
    forall id | id in m.triggerEventIds
      ensures exists e :: e in m.roomEvents && e.eventId == id
    {
      var e: RoomEvent :| e.eventId == id && (e in a.roomEvents || e in b.roomEvents);
      assert e in m.roomEvents;
    }
    JoinHasFrames(m, a, b);
  }

  lemma JoinHasFrames(m: Observation, a: Observation, b: Observation)
    requires Valid(a) && Valid(b)
    requires forall f :: f in a.frames || f in b.frames ==> exists g :: g in m.frames && g.frameId == f.frameId
    requires forall x :: x in m.triggerFrameIds <==> x in a.triggerFrameIds || x in b.triggerFrameIds
    ensures forall id :: id in m.triggerFrameIds ==> exists f :: f in m.frames && f.frameId == id
  {
    forall id | id in m.triggerFrameIds
      ensures exists f :: f in m.frames && f.frameId == id
    {
      var f: FrameRef :| f.frameId == id && (f in a.frames || f in b.frames);
    }
  }

  lemma SourcesJoin(m: Observation, a: Observation, b: Observation)
    requires JoinsTriggers(m, a, b)
    ensures TriggerSources(m) == TriggerSources(a) + TriggerSources(b)
  {
    forall src
      ensures src in TriggerSources(m) <==> src in TriggerSources(a) || src in TriggerSources(b)
    {
      SourceIff(m, src);
      SourceIff(a, src);
      SourceIff(b, src);
    }
  }

  lemma SourceIff(o: Observation, src: EventSource)
    ensures src in TriggerSources(o) <==> exists e :: IsTrigger(o, e) && e.sourceType == src
  {
  }

  lemma PriorityByTriggers(o: Observation)
    ensures Priority(o) ==
            if UserText in TriggerSources(o) || UserVoice in TriggerSources(o) then 3
            else if o.triggerFrameIds != [] || ScreenObservation in TriggerSources(o)
                    || exists e :: IsTrigger(o, e) && IsSystemAudio(e) then 2 else 1
  {
  }

  /** m triggers through exactly the events and frames of a and b, and is ambient like them. */
  lemma JoinKeepsRank(m: Observation, a: Observation, b: Observation)
    requires JoinsTriggers(m, a, b)
    requires m.triggerFrameIds == [] <==> a.triggerFrameIds == [] && b.triggerFrameIds == []
    requires CanMergePending(a, b)
    requires Priority(a) != 3 ==> IsAmbient(m) == IsAmbient(a) == IsAmbient(b)
    ensures Priority(m) == Priority(a)
    ensures IsScreenOnly(m) == IsScreenOnly(a)
    ensures Rank(m) == Rank(a) == Rank(b)
  {
    SourcesJoin(m, a, b);
    PriorityByTriggers(a);
    PriorityByTriggers(b);
    PriorityByTriggers(m);
    assert (exists e :: IsTrigger(m, e) && IsSystemAudio(e))
      <==> (exists e :: IsTrigger(a, e) && IsSystemAudio(e)) || (exists e :: IsTrigger(b, e) && IsSystemAudio(e));
    assert ScreenObservation in TriggerSources(m) <==> ScreenObservation in TriggerSources(a) || ScreenObservation in TriggerSources(b);
    if Priority(a) != 3 {
      assert TriggerSources(m) - {ScreenObservation} == {} <==>
        TriggerSources(a) - {ScreenObservation} == {} && TriggerSources(b) - {ScreenObservation} == {};
    } else {
      assert UserText in TriggerSources(m) - {ScreenObservation} || UserVoice in TriggerSources(m) - {ScreenObservation};
      assert UserText in TriggerSources(a) - {ScreenObservation} || UserVoice in TriggerSources(a) - {ScreenObservation};
      assert UserText in TriggerSources(b) - {ScreenObservation} || UserVoice in TriggerSources(b) - {ScreenObservation};
    }
  }

  /** An allowed merge keeps the priority, the screen-only class and so the rank. */
  lemma MergeKeepsRank(a: Observation, b: Observation, world: World)
    requires a.sessionId == b.sessionId && Mergeable(a, world) && Mergeable(b, world)
    requires CanMergePending(a, b)
    ensures Priority(Merge(a, b)) == Priority(a)
    ensures IsScreenOnly(Merge(a, b)) == IsScreenOnly(a)
    ensures Rank(Merge(a, b)) == Rank(a) == Rank(b)
  {
    var m := Merge(a, b);
    MergeTriggerEvents(a, b, world);
    DedupeMembers(a.triggerFrameIds, b.triggerFrameIds);
    assert m.triggerFrameIds == [] || m.triggerFrameIds[0] in m.triggerFrameIds;
    assert a.triggerFrameIds == [] || a.triggerFrameIds[0] in m.triggerFrameIds;
    assert b.triggerFrameIds == [] || b.triggerFrameIds[0] in m.triggerFrameIds;
    JoinKeepsRank(m, a, b);
  }

  /** The ambient flag of a merge: kept below priority 3, otherwise the latest value wins. */
  lemma MergeAmbient(a: Observation, b: Observation)
    requires a.sessionId == b.sessionId && CanMergePending(a, b)
    ensures Priority(a) != 3 ==> IsAmbient(Merge(a, b)) == IsAmbient(a) == IsAmbient(b)
    ensures "ambient" in b.userContext ==> IsAmbient(Merge(a, b)) == IsAmbient(b)
    ensures "ambient" !in b.userContext ==> IsAmbient(Merge(a, b)) == IsAmbient(a)
  {
  }

  /** Targets of a merge with a merged part, in terms of the three parts. */
  lemma MergeTargetsLeft(a: Observation, b: Observation, c: Observation, world: World)
    requires a.sessionId == b.sessionId
    requires Mergeable(a, world) && Mergeable(b, world)
    ensures MergeTargets(Merge(a, b), c)
         == Outcome(a.targetAmbiguous || b.targetAmbiguous || c.targetAmbiguous, AllTargets(a) + AllTargets(b) + AllTargets(c))
  {
    var ab := AllTargets(a) + AllTargets(b);
    OutcomeTargets(a.targetAmbiguous || b.targetAmbiguous, ab);
    if Merge(a, b).targetAmbiguous {
      SubsetSize(ab, ab + AllTargets(c));
    } else {
      MergeKeepsTargets(a, b, world);
    }
  }

  lemma MergeTargetsRight(a: Observation, b: Observation, c: Observation, world: World)
    requires b.sessionId == c.sessionId
    requires Mergeable(b, world) && Mergeable(c, world)
    ensures MergeTargets(a, Merge(b, c))
         == Outcome(a.targetAmbiguous || b.targetAmbiguous || c.targetAmbiguous, AllTargets(a) + AllTargets(b) + AllTargets(c))
  {
    var bc := AllTargets(b) + AllTargets(c);
    var u := AllTargets(a) + AllTargets(b) + AllTargets(c);
    assert AllTargets(a) + bc == u;
    OutcomeTargets(b.targetAmbiguous || c.targetAmbiguous, bc);
    if Merge(b, c).targetAmbiguous {
      SubsetSize(bc, u);
    } else {
      MergeKeepsTargets(b, c, world);
    }
  }

  /** The frames and events of a nested merge do not depend on its grouping. */
  lemma MergeContentAssociative(a: Observation, b: Observation, c: Observation)
    ensures Canonical(Canonical(a.frames + b.frames, FrameId, FrameKey) + c.frames, FrameId, FrameKey)
         == Canonical(a.frames + Canonical(b.frames + c.frames, FrameId, FrameKey), FrameId, FrameKey)
    ensures Canonical(Canonical(a.roomEvents + b.roomEvents, EventId, EventKey) + c.roomEvents, EventId, EventKey)
         == Canonical(a.roomEvents + Canonical(b.roomEvents + c.roomEvents, EventId, EventKey), EventId, EventKey)
  {
    FrameKeyFixesId();
    EventKeyFixesId();
    CanonicalAssociative(a.frames, b.frames, c.frames, FrameId, FrameKey);
    CanonicalAssociative(a.roomEvents, b.roomEvents, c.roomEvents, EventId, EventKey);
  }

  /** So do the trigger ids and the user context. */
  lemma MergeIdsAssociative(a: Observation, b: Observation, c: Observation)
    ensures Dedupe(Dedupe(a.triggerEventIds + b.triggerEventIds) + c.triggerEventIds)
         == Dedupe(a.triggerEventIds + Dedupe(b.triggerEventIds + c.triggerEventIds))
    ensures Dedupe(Dedupe(a.triggerFrameIds + b.triggerFrameIds) + c.triggerFrameIds)
         == Dedupe(a.triggerFrameIds + Dedupe(b.triggerFrameIds + c.triggerFrameIds))
    ensures (a.userContext + b.userContext) + c.userContext == a.userContext + (b.userContext + c.userContext)
  {
    DedupeAssociative(a.triggerEventIds, b.triggerEventIds, c.triggerEventIds);
    DedupeAssociative(a.triggerFrameIds, b.triggerFrameIds, c.triggerFrameIds);
  }

  /** Merging is associative on observations of one session and one room. */
  lemma MergeAssociative(a: Observation, b: Observation, c: Observation, world: World)
    requires a.sessionId == b.sessionId == c.sessionId
    requires Mergeable(a, world) && Mergeable(b, world) && Mergeable(c, world)
    ensures Merge(Merge(a, b), c) == Merge(a, Merge(b, c))
  {
    MergeContentAssociative(a, b, c);
    MergeIdsAssociative(a, b, c);
    assert MergeTargets(Merge(a, b), c) == MergeTargets(a, Merge(b, c)) by {
      MergeTargetsLeft(a, b, c, world);
      MergeTargetsRight(a, b, c, world);
    }
  }

  // ---------------------------------------------------------------------------------------
  // Every grouping of a run of merges
  // ---------------------------------------------------------------------------------------

  /** One way to bracket a run of merges. */
  datatype Grouping = Single(o: Observation) | Pair(left: Grouping, right: Grouping)

  ghost function Leaves(g: Grouping): (r: seq<Observation>)
    ensures r != []
  {
    match g
    case Single(o) => [o]
    case Pair(l, r) => Leaves(l) + Leaves(r)
  }

  ghost predicate OneRoom(os: seq<Observation>, session: string, world: World) {
    forall o :: o in os ==> o.sessionId == session && Mergeable(o, world)
  }

  ghost function Evaluate(g: Grouping, session: string, world: World): (m: Observation)
    requires OneRoom(Leaves(g), session, world)
    ensures m.sessionId == session && Mergeable(m, world)
  {
    match g
    case Single(o) =>
      assert o in Leaves(g);
      o
    case Pair(l, r) =>
      assert forall o :: o in Leaves(l) || o in Leaves(r) ==> o in Leaves(g);
      var a, b := Evaluate(l, session, world), Evaluate(r, session, world);
      MergeIsMergeable(a, b, world);
      Merge(a, b)
  }

  /** The run merged from the left, as successive submits do. */
  ghost function MergeRun(os: seq<Observation>, session: string, world: World): (m: Observation)
    requires os != [] && OneRoom(os, session, world)
    ensures m.sessionId == session && Mergeable(m, world)
  {
    assert os[|os| - 1] in os;
    if |os| == 1 then os[0]
    else
      var front := os[..|os| - 1];
      assert forall o :: o in front ==> o in os;
      var a := MergeRun(front, session, world);
      MergeIsMergeable(a, os[|os| - 1], world);
      Merge(a, os[|os| - 1])
  }

  lemma {:induction false} MergeRunConcat(a: seq<Observation>, b: seq<Observation>, session: string, world: World)
    requires a != [] && b != [] && OneRoom(a + b, session, world)
    ensures OneRoom(a, session, world) && OneRoom(b, session, world)
    ensures MergeRun(a + b, session, world) == Merge(MergeRun(a, session, world), MergeRun(b, session, world))
  {
    assert forall o :: o in a || o in b ==> o in a + b;
    var last := b[|b| - 1];
    assert (a + b)[|a + b| - 1] == last;
    if |b| == 1 {
      assert (a + b)[..|a + b| - 1] == a;
    } else {
      var front := b[..|b| - 1];
      assert (a + b)[..|a + b| - 1] == a + front;
      assert forall o :: o in a + front ==> o in a + b;
      MergeRunConcat(a, front, session, world);
      assert last in b;
      MergeAssociative(MergeRun(a, session, world), MergeRun(front, session, world), last, world);
    }
  }

  /** However a run of merges is grouped, the result is the left-to-right one. */
  lemma {:induction false} GroupingIrrelevant(g: Grouping, session: string, world: World)
    requires OneRoom(Leaves(g), session, world)
    ensures Evaluate(g, session, world) == MergeRun(Leaves(g), session, world)
  {
    match g
    case Single(o) =>
    case Pair(l, r) =>
      assert forall o :: o in Leaves(l) || o in Leaves(r) ==> o in Leaves(g);
      GroupingIrrelevant(l, session, world);
      GroupingIrrelevant(r, session, world);
      MergeRunConcat(Leaves(l), Leaves(r), session, world);
  }

  ghost function UnionOfTargets(os: seq<Observation>): set<Target> {
    if os == [] then {} else UnionOfTargets(os[..|os| - 1]) + AllTargets(os[|os| - 1])
  }

  ghost predicate AnyAmbiguous(os: seq<Observation>) {
    exists o :: o in os && o.targetAmbiguous
  }

  /** One more merge into a run whose targets and ambiguity are known. */
  lemma TargetsFoldMore(m: Observation, last: Observation, ambiguous: bool, targets: set<Target>, world: World)
    requires m.sessionId == last.sessionId && Mergeable(m, world) && Mergeable(last, world)
    requires (ambiguous ==> m.targetAmbiguous) && (m.targetAmbiguous ==> ambiguous || |targets| > 1)
    requires !m.targetAmbiguous ==> AllTargets(m) == targets
    ensures var r, all := Merge(m, last), targets + AllTargets(last);
            && MergedTarget(r.targetViewerId, r.targetPersonaId, r.targetAmbiguous) == Outcome(ambiguous || last.targetAmbiguous, all)
            && (!r.targetAmbiguous ==> AllTargets(r) == all)
  {
    SubsetSize(targets, targets + AllTargets(last));
    if !Merge(m, last).targetAmbiguous {
      MergeKeepsTargets(m, last, world);
    }
  }

  lemma SplitAmbiguous(os: seq<Observation>)
    requires os != []
    ensures var front, last := os[..|os| - 1], os[|os| - 1];
            && last in os && (forall o :: o in front ==> o in os)
            && (AnyAmbiguous(os) <==> AnyAmbiguous(front) || last.targetAmbiguous)
  {
    assert os == os[..|os| - 1] + [os[|os| - 1]];
  }

  lemma {:induction false} RunTargetsFold(os: seq<Observation>, session: string, world: World)
    requires |os| >= 2 && OneRoom(os, session, world)
    ensures var m := MergeRun(os, session, world);
            MergedTarget(m.targetViewerId, m.targetPersonaId, m.targetAmbiguous)
            == Outcome(AnyAmbiguous(os), UnionOfTargets(os))
    ensures !MergeRun(os, session, world).targetAmbiguous
            ==> AllTargets(MergeRun(os, session, world)) == UnionOfTargets(os)
  {
    var front, last := os[..|os| - 1], os[|os| - 1];
    SplitAmbiguous(os);
    var m := MergeRun(front, session, world);
    if |os| == 2 {
      assert front[0] in front;
      assert UnionOfTargets(front) == AllTargets(front[0]) by {
        assert front[..0] == [];
      }
    } else {
      RunTargetsFold(front, session, world);
      OutcomeTargets(AnyAmbiguous(front), UnionOfTargets(front));
    }
    TargetsFoldMore(m, last, AnyAmbiguous(front), UnionOfTargets(front), world);
  }

  /** The target of a merged run: present iff the run names one target and nothing was ambiguous;
      ambiguous iff it names two or more or a part was ambiguous. */
  lemma RunTargets(os: seq<Observation>, session: string, world: World)
    requires |os| >= 2 && OneRoom(os, session, world)
    ensures var m, u := MergeRun(os, session, world), UnionOfTargets(os);
            && (m.targetAmbiguous <==> AnyAmbiguous(os) || |u| > 1)
            && (m.targetViewerId.Some? <==> !AnyAmbiguous(os) && exists v :: u == {(Viewer, v)})
            && (m.targetViewerId.Some? ==> u == {(Viewer, m.targetViewerId.value)})
            && (m.targetPersonaId.Some? <==> !AnyAmbiguous(os) && exists p :: u == {(Persona, p)})
            && (m.targetPersonaId.Some? ==> u == {(Persona, m.targetPersonaId.value)})
  {
    RunTargetsFold(os, session, world);
    OutcomeTargets(AnyAmbiguous(os), UnionOfTargets(os));
  }
}
