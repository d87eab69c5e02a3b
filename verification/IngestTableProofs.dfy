/** The bounded idempotency table decides as an unbounded one would. */
module IngestTableProofs {
  import opened Options
  import opened OrderedDict
  import opened IngestTable

  // ---------------------------------------------------------------------------------------
  // Steps that neither grant nor drop
  // ---------------------------------------------------------------------------------------

  /** seen' tracks the same ids with the same keys and timestamps. */
  ghost predicate SameInputs(seen: Dict<string, Tracked>, seen': Dict<string, Tracked>) {
    && Distinct(seen') && |seen'| == |seen|
    && (forall id :: Has(seen', id) <==> Has(seen, id))
    && (forall id :: Has(seen, id) ==>
          Get(seen', id).key == Get(seen, id).key && Get(seen', id).timestampMs == Get(seen, id).timestampMs)
  }

  lemma SameInputsKeep(t: Table, t': Table, b: Books, cap: nat)
    requires Inv(t, b, cap) && SameInputs(t.seen, t'.seen) && t'.floors == t.floors && Distinct(t'.pending)
    ensures Inv(t', b, cap)
  {
  }

  lemma PutSame(seen: Dict<string, Tracked>, id: string, tracked: Tracked)
    requires Distinct(seen) && Has(seen, id)
    requires tracked.key == Get(seen, id).key && tracked.timestampMs == Get(seen, id).timestampMs
    ensures SameInputs(seen, Put(seen, id, tracked))
    ensures Get(Put(seen, id, tracked), id) == tracked
    ensures forall x :: x != id && Has(seen, x) ==> Get(Put(seen, id, tracked), x) == Get(seen, x)
  {
    PutDistinct(seen, id, tracked);
    var seen' := Put(seen, id, tracked);
    forall x
      ensures Has(seen', x) <==> Has(seen, x)
      ensures Has(seen, x) ==> Get(seen', x) == if x == id then tracked else Get(seen, x)
    {
      PutGet(seen, id, tracked, x);
    }
  }

  lemma MovedSame(seen: Dict<string, Tracked>, id: string)
    requires Distinct(seen) && Has(seen, id)
    ensures SameInputs(seen, MoveToEnd(seen, id))
    ensures forall x :: Has(seen, x) ==> Get(MoveToEnd(seen, id), x) == Get(seen, x)
  {
    var tracked, rest, moved := Get(seen, id), Remove(seen, id), MoveToEnd(seen, id);
    RemoveMap(seen, id);
    HasIff(rest, id);
    HasIff(seen, id);
    assert moved == Put(rest, id, tracked);
    PutMap(rest, id, tracked);
    forall x
      ensures Has(moved, x) <==> Has(seen, x)
      ensures Has(seen, x) ==> Get(moved, x) == Get(seen, x)
    {
      HasIff(seen, x);
      HasIff(moved, x);
    }
  }

  // ---------------------------------------------------------------------------------------
  // Dropping
  // ---------------------------------------------------------------------------------------

  lemma UndoKeepsFloors(t: Table, b: Books, id: string)
    requires TrackedInv(t, b) && FloorInv(t, b) && id in b.grantOf
    ensures FloorInv(t, Undo(b, {id}))
  {
    var b' := Undo(b, {id});
    forall g: nat
      ensures Kept(b', g) <==> Kept(b, g) && g != b.grantOf[id]
      ensures Kept(b', g) ==> (Standing(b', g) <==> Standing(b, g))
    {
    }
    forall key: Key | key in t.floors
      ensures exists g: nat :: Kept(b', g) && !Standing(b', g) && b'.history[g].key == key && b'.history[g].timestampMs == t.floors[key]
    {
      var g: nat :| Kept(b, g) && !Standing(b, g) && b.history[g].key == key && b.history[g].timestampMs == t.floors[key];
      assert Standing(b, b.grantOf[id]);
      assert Kept(b', g);
    }
  }

  lemma UndoneGrant(t: Table, b: Books, id: string, x: string)
    requires TrackedInv(t, b) && id in b.grantOf && x in b.grantOf && x != id
    ensures Kept(Undo(b, {id}), b.grantOf[x])
  {
    assert b.history[b.grantOf[x]].id == x && b.history[b.grantOf[id]].id == id;
    assert b.grantOf[x] != b.grantOf[id];
  }

  lemma UndoKeepsTracked(t: Table, b: Books, id: string)
    requires TrackedInv(t, b) && Distinct(t.seen) && id in b.grantOf
    ensures TrackedInv(t.(seen := Remove(t.seen, id)), Undo(b, {id}))
  {
    var t', b' := t.(seen := Remove(t.seen, id)), Undo(b, {id});
    Removed(t.seen, id);
    assert b'.grantOf == b.grantOf - {id} && b'.history == b.history;
    forall x: string | x in b'.grantOf
      ensures Kept(b', b'.grantOf[x])
    {
      UndoneGrant(t, b, id, x);
    }
  }

  lemma UndoKeepsBooks(t: Table, b: Books, id: string)
    requires TrackedInv(t, b) && OrderInv(b) && OnceInv(b) && id in b.grantOf
    ensures OrderInv(Undo(b, {id})) && OnceInv(Undo(b, {id}))
  {
    var b' := Undo(b, {id});
    forall g: nat
      ensures Kept(b', g) ==> Kept(b, g)
    {
    }
  }

  /** An input that failed, or whose connection is gone, leaves no trace. */
  lemma DropKeeps(t: Table, b: Books, cap: nat, id: string, pending: Dict<Source, string>)
    requires Inv(t, b, cap) && Has(t.seen, id) && Distinct(pending)
    ensures Inv(Table(Remove(t.seen, id), t.floors, pending), Undo(b, {id}), cap)
  {
    UndoKeepsFloors(t, b, id);
    UndoKeepsTracked(t, b, id);
    UndoKeepsBooks(t, b, id);
    Removed(t.seen, id);
  }

  // ---------------------------------------------------------------------------------------
  // Eviction
  // ---------------------------------------------------------------------------------------

  ghost function AfterEvict(t: Table, i: nat): Table
    requires i < |t.seen|
  {
    t.(seen := t.seen[..i] + t.seen[i + 1..], floors := RaisedFloor(t.floors, t.seen[i].1))
  }

  ghost function Forget(b: Books, id: string): Books {
    b.(grantOf := b.grantOf - {id})
  }

  lemma EvictKeepsFloors(t: Table, b: Books, i: nat)
    requires TrackedInv(t, b) && FloorInv(t, b) && Distinct(t.seen) && i < |t.seen|
    ensures FloorInv(AfterEvict(t, i), Forget(b, t.seen[i].0))
  {
    var (id, tracked) := t.seen[i];
    var t', b' := AfterEvict(t, i), Forget(b, id);
    FindAt(t.seen, i);
    var evicted := b.grantOf[id];
    forall g: nat
      ensures Kept(b', g) <==> Kept(b, g)
      ensures Standing(b', g) <==> Standing(b, g) && g != evicted
    {
    }
    assert t'.floors[tracked.key] >= tracked.timestampMs;
    forall key: Key | key in t'.floors
      ensures exists g: nat :: Kept(b', g) && !Standing(b', g) && b'.history[g].key == key && b'.history[g].timestampMs == t'.floors[key]
    {
      if key in t.floors && t'.floors[key] == t.floors[key] {
        var g: nat :| Kept(b, g) && !Standing(b, g) && b.history[g].key == key && b.history[g].timestampMs == t.floors[key];
        assert Kept(b', g);
      } else {
        assert Kept(b', evicted);
      }
    }
  }

  lemma ForgetKeepsBooks(b: Books, id: string)
    requires OrderInv(b) && OnceInv(b)
    ensures OrderInv(Forget(b, id)) && OnceInv(Forget(b, id))
  {
    forall g: nat
      ensures Kept(Forget(b, id), g) <==> Kept(b, g)
    {
    }
  }

  lemma EvictedInputs(seen: Dict<string, Tracked>, i: nat)
    requires Distinct(seen) && i < |seen|
    ensures Has(seen, seen[i].0) && Get(seen, seen[i].0) == seen[i].1
    ensures seen[..i] + seen[i + 1..] == Remove(seen, seen[i].0)
  {
    FindAt(seen, i);
  }

  lemma EvictKeepsTracked(t: Table, b: Books, i: nat)
    requires TrackedInv(t, b) && Distinct(t.seen) && i < |t.seen|
    ensures TrackedInv(AfterEvict(t, i), Forget(b, t.seen[i].0))
  {
    EvictedInputs(t.seen, i);
    Removed(t.seen, t.seen[i].0);
  }

  lemma EvictLeaves(t: Table, i: nat)
    requires Distinct(t.seen) && i < |t.seen|
    ensures Distinct(AfterEvict(t, i).seen) && |AfterEvict(t, i).seen| == |t.seen| - 1
    ensures forall x :: Has(AfterEvict(t, i).seen, x) <==> Has(t.seen, x) && x != t.seen[i].0
    ensures forall x :: Has(AfterEvict(t, i).seen, x) ==> Get(AfterEvict(t, i).seen, x) == Get(t.seen, x)
  {
    EvictedInputs(t.seen, i);
    Removed(t.seen, t.seen[i].0);
  }

  lemma EvictKeeps(t: Table, b: Books, cap: nat, i: nat)
    requires Inv(t, b, cap) && i < |t.seen|
    ensures Inv(AfterEvict(t, i), Forget(b, t.seen[i].0), cap)
  {
    EvictKeepsFloors(t, b, i);
    EvictKeepsTracked(t, b, i);
    ForgetKeepsBooks(b, t.seen[i].0);
    EvictLeaves(t, i);
  }

  // ---------------------------------------------------------------------------------------
  // Granting
  // ---------------------------------------------------------------------------------------

  ghost function Granting(b: Books, g: Grant): Books {
    Books(b.history + [g], b.undone, b.grantOf[g.id := |b.history|])
  }

  lemma GrantKeepsFloors(t: Table, b: Books, g: Grant, seen: Dict<string, Tracked>)
    requires FloorInv(t, b) && OnceInv(b) && g.id !in b.grantOf
    ensures FloorInv(t.(seen := seen), Granting(b, g))
  {
    var b' := Granting(b, g);
    forall x: nat
      ensures Kept(b', x) <==> Kept(b, x) || x == |b.history|
      ensures x < |b.history| ==> (Standing(b', x) <==> Standing(b, x)) && b'.history[x] == b.history[x]
    {
    }
    forall key: Key | key in t.floors
      ensures exists x: nat :: Kept(b', x) && !Standing(b', x) && b'.history[x].key == key && b'.history[x].timestampMs == t.floors[key]
    {
      var x: nat :| Kept(b, x) && !Standing(b, x) && b.history[x].key == key && b.history[x].timestampMs == t.floors[key];
      assert Kept(b', x);
    }
  }

  lemma GrantKeepsTracked(t: Table, b: Books, g: Grant, tracked: Tracked)
    requires TrackedInv(t, b) && OnceInv(b) && Distinct(t.seen) && !Has(t.seen, g.id)
    requires g == Grant(g.id, tracked.key, tracked.timestampMs)
    ensures TrackedInv(t.(seen := t.seen + [(g.id, tracked)]), Granting(b, g))
  {
    var b' := Granting(b, g);
    Appended(t.seen, g.id, tracked);
    forall id: string | id in b'.grantOf
      ensures Kept(b', b'.grantOf[id])
    {
      assert id != g.id ==> Kept(b, b.grantOf[id]);
    }
  }

  lemma GrantKeepsBooks(t: Table, b: Books, g: Grant)
    requires TrackedInv(t, b) && OrderInv(b) && OnceInv(b) && g.id !in b.grantOf
    requires forall x: nat :: Kept(b, x) && b.history[x].key == g.key ==> b.history[x].timestampMs <= g.timestampMs
    ensures OrderInv(Granting(b, g)) && OnceInv(Granting(b, g))
  {
    var b' := Granting(b, g);
    forall x: nat
      ensures Kept(b', x) <==> Kept(b, x) || x == |b.history|
      ensures x < |b.history| ==> b'.history[x] == b.history[x]
    {
    }
  }

  lemma GrantKeeps(t: Table, b: Books, cap: nat, g: Grant, tracked: Tracked, pending: Dict<Source, string>)
    requires Inv(t, b, cap) && |t.seen| < cap && !Has(t.seen, g.id) && Distinct(pending)
    requires g == Grant(g.id, tracked.key, tracked.timestampMs)
    requires forall x: nat :: Kept(b, x) && b.history[x].key == g.key ==> b.history[x].timestampMs <= g.timestampMs
    ensures Inv(Table(t.seen + [(g.id, tracked)], t.floors, pending), Granting(b, g), cap)
  {
    var seen := t.seen + [(g.id, tracked)];
    assert g.id !in b.grantOf;
    GrantKeepsFloors(t, b, g, seen);
    GrantKeepsTracked(t, b, g, tracked);
    GrantKeepsBooks(t, b, g);
    Appended(t.seen, g.id, tracked);
  }

  // ---------------------------------------------------------------------------------------
  // The bounded table against the unbounded history
  // ---------------------------------------------------------------------------------------

  lemma TrackedIsKept(t: Table, b: Books, e: (string, Tracked))
    requires Distinct(t.seen) && TrackedInv(t, b) && e in t.seen
    ensures e.0 in b.grantOf && Kept(b, b.grantOf[e.0])
    ensures b.history[b.grantOf[e.0]] == Grant(e.0, e.1.key, e.1.timestampMs)
  {
    EntryGet(t.seen, e.0, e.1);
  }

  lemma KeptIsRemembered(t: Table, b: Books, g: nat)
    requires Distinct(t.seen) && TrackedInv(t, b) && FloorInv(t, b) && Kept(b, g)
    ensures var last := LastTimestamp(t, b.history[g].key);
            last.Some? && b.history[g].timestampMs <= last.value
  {
    var key := b.history[g].key;
    MaxTrackedIs(t.seen, key);
    if Standing(b, g) {
      var id := b.history[g].id;
      EntryGet(t.seen, id, Get(t.seen, id));
      assert (id, Get(t.seen, id)) in t.seen;
    }
  }

  lemma RememberedIsKept(t: Table, b: Books, key: Key)
    requires Distinct(t.seen) && TrackedInv(t, b) && FloorInv(t, b) && LastTimestamp(t, key).Some?
    ensures exists g: nat :: Kept(b, g) && b.history[g].key == key && b.history[g].timestampMs == LastTimestamp(t, key).value
  {
    var last := LastTimestamp(t, key).value;
    MaxTrackedIs(t.seen, key);
    if key in t.floors && t.floors[key] == last {
      var g: nat :| Kept(b, g) && !Standing(b, g) && b.history[g].key == key && b.history[g].timestampMs == last;
    } else {
      var e :| e in t.seen && e.1.key == key && e.1.timestampMs == last;
      TrackedIsKept(t, b, e);
    }
  }

  /** An input is refused as out of order exactly when an unbounded table would refuse it: when an
      input of its kind and source with a later timestamp was granted and not undone. */
  lemma OutOfOrderIff(t: Table, b: Books, cap: nat, key: Key, timestampMs: int)
    requires Inv(t, b, cap)
    ensures !InOrder(t, key, timestampMs) <==>
            exists g: nat :: Kept(b, g) && b.history[g].key == key && b.history[g].timestampMs > timestampMs
  {
    if !InOrder(t, key, timestampMs) {
      RememberedIsKept(t, b, key);
    }
    forall g: nat | Kept(b, g) && b.history[g].key == key && b.history[g].timestampMs > timestampMs
      ensures !InOrder(t, key, timestampMs)
    {
      KeptIsRemembered(t, b, g);
    }
  }

  // ---------------------------------------------------------------------------------------
  // Every step keeps the invariant
  // ---------------------------------------------------------------------------------------

  lemma DroppedOne(t: Table, t': Table, id: string)
    requires Has(t.seen, id) && !Has(t'.seen, id) && Distinct(t.seen)
    requires forall x :: Has(t.seen, x) && x != id ==> Has(t'.seen, x)
    ensures DroppedIds(t, t') == {id}
  {
    EntryGet(t.seen, id, Get(t.seen, id));
    forall e | e in t.seen && !Has(t'.seen, e.0)
      ensures e.0 == id
    {
      EntryGet(t.seen, e.0, e.1);
    }
  }

  lemma DroppedNone(t: Table, t': Table)
    requires Distinct(t.seen) && forall x :: Has(t.seen, x) ==> Has(t'.seen, x)
    ensures DroppedIds(t, t') == {}
  {
    forall e | e in t.seen
      ensures Has(t'.seen, e.0)
    {
      EntryGet(t.seen, e.0, e.1);
    }
  }

  lemma UndoNone(b: Books)
    ensures Undo(b, {}) == b
  {
  }

  lemma PutDistinctPending(pending: Dict<Source, string>, source: Source, id: string)
    requires Distinct(pending)
    ensures Distinct(Put(pending, source, id)) && Distinct(Remove(pending, source))
  {
    PutMap(pending, source, id);
    RemoveEntries(pending, source);
  }

  /** A granted reservation, after the eviction it may need. */
  lemma GrantStep(t: Table, b: Books, cap: nat, r: Reservation)
    requires Inv(t, b, cap) && ReserveOutcome(t, cap, r).Granted?
    ensures Inv(AfterReserve(t, cap, r), Booked(b, t, cap, Reserve(r)), cap)
  {
    KeptBefore(t, b, cap, r.key, r.timestampMs);
    if |t.seen| < cap {
      PendingDistinct(t.pending, r);
      GrantKeeps(t, b, cap, Grant(r.id, r.key, r.timestampMs), NewEntry(r), PendingAfter(t.pending, r));
      ReservedInRoom(t, b, cap, r);
    } else {
      EvictThenGrant(t, b, cap, r);
    }
  }

  lemma ReservedInRoom(t: Table, b: Books, cap: nat, r: Reservation)
    requires Distinct(t.seen) && ReserveOutcome(t, cap, r).Granted? && |t.seen| < cap
    ensures AfterReserve(t, cap, r) == Table(t.seen + [(r.id, NewEntry(r))], t.floors, PendingAfter(t.pending, r))
    ensures Booked(b, t, cap, Reserve(r)) == Granting(b, Grant(r.id, r.key, r.timestampMs))
  {
    Appended(t.seen, r.id, NewEntry(r));
    DroppedNone(t, AfterReserve(t, cap, r));
    assert b.grantOf - {} == b.grantOf;
  }

  lemma KeptBefore(t: Table, b: Books, cap: nat, key: Key, timestampMs: int)
    requires Inv(t, b, cap) && InOrder(t, key, timestampMs)
    ensures forall x: nat :: Kept(b, x) && b.history[x].key == key ==> b.history[x].timestampMs <= timestampMs
  {
    OutOfOrderIff(t, b, cap, key, timestampMs);
  }

  lemma EvictThenGrant(t: Table, b: Books, cap: nat, r: Reservation)
    requires Inv(t, b, cap) && ReserveOutcome(t, cap, r).Granted? && |t.seen| >= cap
    requires forall x: nat :: Kept(b, x) && b.history[x].key == r.key ==> b.history[x].timestampMs <= r.timestampMs
    ensures Inv(AfterReserve(t, cap, r), Booked(b, t, cap, Reserve(r)), cap)
  {
    var i := FirstEvictable(t.seen, t.pending);
    PendingDistinct(t.pending, r);
    EvictKeepsOpen(t, b, cap, i, r, PendingAfter(t.pending, r));
    ReservedByEviction(t, b, cap, r);
  }

  ghost function PendingAfter(pending: Dict<Source, string>, r: Reservation): Dict<Source, string> {
    if IsAudio(r) then Put(pending, r.key.source.value, r.id) else pending
  }

  lemma PendingDistinct(pending: Dict<Source, string>, r: Reservation)
    requires Distinct(pending)
    ensures Distinct(PendingAfter(pending, r))
  {
    if IsAudio(r) {
      PutMap(pending, r.key.source.value, r.id);
    }
  }

  lemma EvictKeepsOpen(t: Table, b: Books, cap: nat, i: nat, r: Reservation, pending: Dict<Source, string>)
    requires Inv(t, b, cap) && i < |t.seen| && !Has(t.seen, r.id) && Distinct(pending)
    requires forall x: nat :: Kept(b, x) && b.history[x].key == r.key ==> b.history[x].timestampMs <= r.timestampMs
    ensures Inv(Table(AfterEvict(t, i).seen + [(r.id, NewEntry(r))], AfterEvict(t, i).floors, pending),
                Granting(Forget(b, t.seen[i].0), Grant(r.id, r.key, r.timestampMs)), cap)
  {
    EvictKeeps(t, b, cap, i);
    EvictLeaves(t, i);
    ForgottenKept(b, t.seen[i].0);
    GrantKeeps(AfterEvict(t, i), Forget(b, t.seen[i].0), cap, Grant(r.id, r.key, r.timestampMs), NewEntry(r), pending);
  }

  lemma ForgottenKept(b: Books, id: string)
    ensures forall x: nat :: Kept(Forget(b, id), x) <==> Kept(b, x)
  {
  }

  /** What a reservation does to a full table: it drops the entry that eviction chooses. */
  lemma ReservedByEviction(t: Table, b: Books, cap: nat, r: Reservation)
    requires Distinct(t.seen) && ReserveOutcome(t, cap, r).Granted? && |t.seen| >= cap
    ensures var i, t' := FirstEvictable(t.seen, t.pending), AfterReserve(t, cap, r);
            && i < |t.seen| && DroppedIds(t, t') == {t.seen[i].0} && r.id != t.seen[i].0
            && t' == Table(AfterEvict(t, i).seen + [(r.id, NewEntry(r))], AfterEvict(t, i).floors, PendingAfter(t.pending, r))
            && Booked(b, t, cap, Reserve(r)) == Granting(Forget(b, t.seen[i].0), Grant(r.id, r.key, r.timestampMs))
  {
    var i, t' := FirstEvictable(t.seen, t.pending), AfterReserve(t, cap, r);
    ReplacedInputs(t.seen, i, r.id, NewEntry(r));
    DroppedOne(t, t', t.seen[i].0);
  }

  lemma ReplacedInputs(seen: Dict<string, Tracked>, i: nat, id: string, tracked: Tracked)
    requires Distinct(seen) && i < |seen| && !Has(seen, id)
    ensures var seen' := seen[..i] + seen[i + 1..] + [(id, tracked)];
            && (forall x :: Has(seen', x) <==> (Has(seen, x) && x != seen[i].0) || x == id)
            && (forall x :: Has(seen, x) && x != seen[i].0 ==> Get(seen', x) == Get(seen, x))
    ensures id != seen[i].0
  {
    EvictedInputs(seen, i);
    Removed(seen, seen[i].0);
    Appended(Remove(seen, seen[i].0), id, tracked);
  }

  lemma ReserveStep(t: Table, b: Books, cap: nat, r: Reservation)
    requires Inv(t, b, cap)
    ensures Inv(AfterReserve(t, cap, r), Booked(b, t, cap, Reserve(r)), cap)
  {
    match ReserveOutcome(t, cap, r)
    case Granted => GrantStep(t, b, cap, r);
    case Cached(_) =>
      MovedSame(t.seen, r.id);
      SameInputsKeep(t, AfterReserve(t, cap, r), b, cap);
    case Raised(_) =>
  }

  /** A step that only changes what is recorded about tracked ids, or what is pending. */
  lemma UpdateStep(t: Table, b: Books, cap: nat, step: Step)
    requires Inv(t, b, cap) && !step.Reserve?
    requires SameInputs(t.seen, Apply(t, cap, step).seen) && Apply(t, cap, step).floors == t.floors
    requires Distinct(Apply(t, cap, step).pending)
    ensures Inv(Apply(t, cap, step), Booked(b, t, cap, step), cap)
  {
    DroppedNone(t, Apply(t, cap, step));
    UndoNone(b);
    SameInputsKeep(t, Apply(t, cap, step), b, cap);
  }

  lemma AcceptStep(t: Table, b: Books, cap: nat, id: string, receipt: Option<Receipt>)
    requires Inv(t, b, cap) && Has(t.seen, id)
    ensures Inv(AfterSettle(t, id, true, receipt), Booked(b, t, cap, Settle(id, true, receipt)), cap)
  {
    PutSame(t.seen, id, Settled(Get(t.seen, id), receipt));
    UpdateStep(t, b, cap, Settle(id, true, receipt));
  }

  lemma FailStep(t: Table, b: Books, cap: nat, id: string, receipt: Option<Receipt>)
    requires Inv(t, b, cap) && Has(t.seen, id)
    ensures Inv(AfterSettle(t, id, false, receipt), Booked(b, t, cap, Settle(id, false, receipt)), cap)
  {
    FailedIs(t, b, cap, id, receipt);
    DropKeeps(t, b, cap, id, t.pending);
  }

  lemma FailedIs(t: Table, b: Books, cap: nat, id: string, receipt: Option<Receipt>)
    requires Distinct(t.seen) && Has(t.seen, id)
    ensures AfterSettle(t, id, false, receipt) == Table(Remove(t.seen, id), t.floors, t.pending)
    ensures Booked(b, t, cap, Settle(id, false, receipt)) == Undo(b, {id})
  {
    Removed(t.seen, id);
    DroppedOne(t, t.(seen := Remove(t.seen, id)), id);
  }

  lemma SettleStep(t: Table, b: Books, cap: nat, id: string, accepted: bool, receipt: Option<Receipt>)
    requires Inv(t, b, cap)
    ensures Inv(AfterSettle(t, id, accepted, receipt), Booked(b, t, cap, Settle(id, accepted, receipt)), cap)
  {
    if !Has(t.seen, id) {
      UpdateStep(t, b, cap, Settle(id, accepted, receipt));
    } else if accepted {
      AcceptStep(t, b, cap, id, receipt);
    } else {
      FailStep(t, b, cap, id, receipt);
    }
  }

  lemma {:induction false} ClearStep(t: Table, b: Books, cap: nat, connection: string, entries: Dict<Source, string>)
    requires Inv(t, b, cap)
    ensures var t' := AfterClear(t, connection, entries);
            && Inv(t', Undo(b, DroppedIds(t, t')), cap)
            && forall x :: Has(t'.seen, x) ==> Has(t.seen, x)
    decreases |entries|
  {
    if entries == [] {
      DroppedNone(t, t);
      UndoNone(b);
    } else if ClearedBy(t, connection, entries[0]) {
      var id := entries[0].1;
      var next := t.(pending := Remove(t.pending, entries[0].0), seen := Remove(t.seen, id));
      PutDistinctPending(t.pending, entries[0].0, id);
      DropKeeps(t, b, cap, id, next.pending);
      Removed(t.seen, id);
      ClearStep(next, Undo(b, {id}), cap, connection, entries[1..]);
      UndoMore(t, next, AfterClear(next, connection, entries[1..]), b, id);
    } else {
      ClearStep(t, b, cap, connection, entries[1..]);
    }
  }

  lemma UndoMore(t: Table, next: Table, last: Table, b: Books, id: string)
    requires Distinct(t.seen) && Distinct(next.seen) && Has(t.seen, id)
    requires forall x :: Has(next.seen, x) <==> Has(t.seen, x) && x != id
    requires forall x :: Has(last.seen, x) ==> Has(next.seen, x)
    ensures Undo(Undo(b, {id}), DroppedIds(next, last)) == Undo(b, DroppedIds(t, last))
  {
    assert DroppedIds(t, last) == DroppedIds(next, last) + {id} by {
      forall x
        ensures x in DroppedIds(t, last) <==> x in DroppedIds(next, last) || x == id
      {
        DroppedIff(t, last, x);
        DroppedIff(next, last, x);
      }
    }
    var ids := DroppedIds(next, last);
    assert id !in ids by {
      DroppedIff(next, last, id);
    }
    UndoUnion(b, id, ids);
  }

  lemma DroppedIff(t: Table, t': Table, id: string)
    requires Distinct(t.seen)
    ensures id in DroppedIds(t, t') <==> Has(t.seen, id) && !Has(t'.seen, id)
  {
    if Has(t.seen, id) {
      EntryGet(t.seen, id, Get(t.seen, id));
      assert (id, Get(t.seen, id)) in t.seen;
    }
    forall e | e in t.seen && e.0 == id
      ensures Has(t.seen, id)
    {
      EntryGet(t.seen, e.0, e.1);
    }
  }

  lemma UndoUnion(b: Books, id: string, ids: set<string>)
    requires id !in ids
    ensures Undo(Undo(b, {id}), ids) == Undo(b, ids + {id})
  {
    var once, both := Undo(Undo(b, {id}), ids), Undo(b, ids + {id});
    forall g
      ensures g in once.undone <==> g in both.undone
    {
      if g in both.undone && g !in b.undone {
        var x :| x in ids + {id} && x in b.grantOf && b.grantOf[x] == g;
        assert x != id ==> x in (b.grantOf - {id}) && (b.grantOf - {id})[x] == g;
      }
      if g in once.undone && g !in Undo(b, {id}).undone {
        var x :| x in ids && x in (b.grantOf - {id}) && (b.grantOf - {id})[x] == g;
        assert x in ids + {id} && b.grantOf[x] == g;
      }
    }
    assert once.grantOf == both.grantOf;
  }

  lemma StepKeepsInv(t: Table, b: Books, cap: nat, step: Step)
    requires Inv(t, b, cap)
    ensures Inv(Apply(t, cap, step), Booked(b, t, cap, step), cap)
  {
    match step
    case Reserve(r) => ReserveStep(t, b, cap, r);
    case Commit(id, source, at, connectionId, fingerprint) =>
      if CommitOutcome(t, id, source, at, connectionId, fingerprint).Granted? {
        var tracked := Get(t.seen, id);
        PutSame(t.seen, id, tracked.(fingerprints := tracked.fingerprints[Committed := fingerprint]));
      }
      UpdateStep(t, b, cap, step);
    case Release(id, source) =>
      PutDistinctPending(t.pending, source, id);
      UpdateStep(t, b, cap, step);
    case Settle(id, accepted, receipt) => SettleStep(t, b, cap, id, accepted, receipt);
    case ClearConnection(connection) => ClearStep(t, b, cap, connection, t.pending);
  }

  // ---------------------------------------------------------------------------------------
  // Runs
  // ---------------------------------------------------------------------------------------

  ghost function After(run: seq<Step>, cap: nat): Table {
    if run == [] then EMPTY else Apply(After(run[..|run| - 1], cap), cap, run[|run| - 1])
  }

  ghost function BooksAfter(run: seq<Step>, cap: nat): Books {
    if run == [] then BLANK
    else Booked(BooksAfter(run[..|run| - 1], cap), After(run[..|run| - 1], cap), cap, run[|run| - 1])
  }

  lemma {:induction false} RunKeepsInv(run: seq<Step>, cap: nat)
    ensures Inv(After(run, cap), BooksAfter(run, cap), cap)
  {
    if run != [] {
      RunKeepsInv(run[..|run| - 1], cap);
      StepKeepsInv(After(run[..|run| - 1], cap), BooksAfter(run[..|run| - 1], cap), cap, run[|run| - 1]);
    }
  }

  ghost predicate Reachable(t: Table, b: Books, cap: nat) {
    exists run :: t == After(run, cap) && b == BooksAfter(run, cap)
  }

  lemma ReachableInv(t: Table, b: Books, cap: nat)
    requires Reachable(t, b, cap)
    ensures Inv(t, b, cap)
  {
    var run :| t == After(run, cap) && b == BooksAfter(run, cap);
    RunKeepsInv(run, cap);
  }

  /** The table keeps within its cap, and per kind and source the reservations that were granted and
      not undone never go back in time, however many of them were evicted. */
  lemma TimestampsNeverGoBack(t: Table, b: Books, cap: nat, g: nat, h: nat)
    requires Reachable(t, b, cap)
    ensures |t.seen| <= cap
    ensures g < h && Kept(b, g) && Kept(b, h) && b.history[g].key == b.history[h].key ==>
              b.history[g].timestampMs <= b.history[h].timestampMs
  {
    ReachableInv(t, b, cap);
  }

  /** Whether an input comes too late is decided as by a table that forgets nothing. */
  lemma RefinesUnbounded(t: Table, b: Books, cap: nat, key: Key, timestampMs: int)
    requires Reachable(t, b, cap)
    ensures !InOrder(t, key, timestampMs) <==>
            exists g: nat :: Kept(b, g) && b.history[g].key == key && b.history[g].timestampMs > timestampMs
  {
    ReachableInv(t, b, cap);
    OutOfOrderIff(t, b, cap, key, timestampMs);
  }

  /** A reservation evicts at most one input, and only one that was accepted and is not pending
      audio: the least recently used such input. */
  lemma EvictsOnlyIdle(t: Table, b: Books, cap: nat, r: Reservation, id: string)
    requires Reachable(t, b, cap)
    requires Has(t.seen, id) && !Has(AfterReserve(t, cap, r).seen, id)
    ensures |t.seen| == cap && ReserveOutcome(t, cap, r).Granted?
    ensures Get(t.seen, id).accepted && !exists p :: p in t.pending && p.1 == id
    ensures Find(t.seen, id) == FirstEvictable(t.seen, t.pending)
  {
    ReachableInv(t, b, cap);
    match ReserveOutcome(t, cap, r)
    case Granted => GrantEvicts(t, b, cap, r, id);
    case Cached(_) => MovedSame(t.seen, r.id);
    case Raised(_) =>
  }

  lemma GrantEvicts(t: Table, b: Books, cap: nat, r: Reservation, id: string)
    requires Distinct(t.seen) && |t.seen| <= cap && ReserveOutcome(t, cap, r).Granted?
    requires Has(t.seen, id) && !Has(AfterReserve(t, cap, r).seen, id)
    ensures |t.seen| == cap && Find(t.seen, id) == FirstEvictable(t.seen, t.pending)
  {
    if |t.seen| < cap {
      Appended(t.seen, r.id, NewEntry(r));
    } else {
      ReservedByEviction(t, b, cap, r);
      DroppedIff(t, AfterReserve(t, cap, r), id);
      FindAt(t.seen, FirstEvictable(t.seen, t.pending));
    }
  }

  /** While an id is tracked, its reservation is not granted again. */
  lemma TrackedIsGrantedOnce(t: Table, b: Books, cap: nat, r: Reservation)
    requires Reachable(t, b, cap) && Has(t.seen, r.id)
    ensures !ReserveOutcome(t, cap, r).Granted?
    ensures r.id in b.grantOf && forall h :: b.grantOf[r.id] < h < |b.history| ==> b.history[h].id != r.id
  {
    ReachableInv(t, b, cap);
  }

  // ---------------------------------------------------------------------------------------
  // Replays
  // ---------------------------------------------------------------------------------------

  /** Grant g of this id is tracked with a receipt for this stage and fingerprint. */
  ghost predicate HasReceipt(t: Table, b: Books, id: string, g: nat, stage: Stage, fingerprint: string, receipt: Receipt) {
    && Has(t.seen, id) && id in b.grantOf && b.grantOf[id] == g
    && var tracked := Get(t.seen, id);
       && stage in tracked.fingerprints && tracked.fingerprints[stage] == fingerprint
       && stage in tracked.receipts && tracked.receipts[stage] == receipt
  }

  ghost predicate Rewrites(step: Step, id: string, stage: Stage) {
    step.Settle? && step.id == id && step.receipt.Some? && step.receipt.value.stage == stage
  }

  /** The entry of an id that stays tracked keeps its fingerprints and receipts. */
  lemma {:induction false} ClearLeaves(t: Table, connection: string, entries: Dict<Source, string>, id: string)
    requires Distinct(t.seen) && Has(AfterClear(t, connection, entries).seen, id)
    ensures Has(t.seen, id) && Get(AfterClear(t, connection, entries).seen, id) == Get(t.seen, id)
    decreases |entries|
  {
    if entries != [] {
      Removed(t.seen, entries[0].1);
      ClearLeaves(AfterClearOne(t, connection, entries[0]), connection, entries[1..], id);
    }
  }

  lemma ReserveLeaves(t: Table, b: Books, cap: nat, r: Reservation, id: string)
    requires Distinct(t.seen) && Has(t.seen, id) && Has(AfterReserve(t, cap, r).seen, id)
    ensures Get(AfterReserve(t, cap, r).seen, id) == Get(t.seen, id)
    ensures ReserveOutcome(t, cap, r).Granted? ==> r.id != id
  {
    match ReserveOutcome(t, cap, r)
    case Granted => GrantLeaves(t, b, cap, r, id);
    case Cached(_) => MovedSame(t.seen, r.id);
    case Raised(_) =>
  }

  lemma GrantLeaves(t: Table, b: Books, cap: nat, r: Reservation, id: string)
    requires Distinct(t.seen) && Has(t.seen, id) && Has(AfterReserve(t, cap, r).seen, id) && ReserveOutcome(t, cap, r).Granted?
    ensures Get(AfterReserve(t, cap, r).seen, id) == Get(t.seen, id) && r.id != id
  {
    if |t.seen| < cap {
      Appended(t.seen, r.id, NewEntry(r));
    } else {
      ReplacedInputs(t.seen, FirstEvictable(t.seen, t.pending), r.id, NewEntry(r));
    }
  }

  lemma SettleLeaves(t: Table, id: string, accepted: bool, receipt: Option<Receipt>, x: string)
    requires Distinct(t.seen) && Has(t.seen, x) && Has(AfterSettle(t, id, accepted, receipt).seen, x)
    ensures var before, now := Get(t.seen, x), Get(AfterSettle(t, id, accepted, receipt).seen, x);
            && now.fingerprints == before.fingerprints
            && (forall stage :: stage in before.receipts && !Rewrites(Settle(id, accepted, receipt), x, stage) ==>
                  stage in now.receipts && now.receipts[stage] == before.receipts[stage])
  {
    if Has(t.seen, id) {
      PutSame(t.seen, id, Settled(Get(t.seen, id), receipt));
      Removed(t.seen, id);
    }
  }

  lemma StepLeaves(t: Table, b: Books, cap: nat, step: Step, id: string, stage: Stage)
    requires Distinct(t.seen) && Has(t.seen, id) && Has(Apply(t, cap, step).seen, id) && !Rewrites(step, id, stage)
    ensures var before, now := Get(t.seen, id), Get(Apply(t, cap, step).seen, id);
            && (stage in before.fingerprints && stage in before.receipts ==>
                 && stage in now.fingerprints && now.fingerprints[stage] == before.fingerprints[stage]
                 && stage in now.receipts && now.receipts[stage] == before.receipts[stage])
  {
    match step
    case Reserve(r) => ReserveLeaves(t, b, cap, r, id);
    case Commit(x, source, at, connectionId, fingerprint) =>
      if CommitOutcome(t, x, source, at, connectionId, fingerprint).Granted? {
        var tracked := Get(t.seen, x);
        PutSame(t.seen, x, tracked.(fingerprints := tracked.fingerprints[Committed := fingerprint]));
      }
    case Release(_, _) =>
    case Settle(x, accepted, receipt) => SettleLeaves(t, x, accepted, receipt, id);
    case ClearConnection(connection) => ClearLeaves(t, connection, t.pending, id);
  }

  lemma GrantOfLeaves(t: Table, b: Books, cap: nat, step: Step, id: string)
    requires Inv(t, b, cap) && Has(t.seen, id) && Has(Apply(t, cap, step).seen, id)
    ensures id in Booked(b, t, cap, step).grantOf && Booked(b, t, cap, step).grantOf[id] == b.grantOf[id]
  {
    DroppedIff(t, Apply(t, cap, step), id);
    if step.Reserve? {
      ReserveLeaves(t, b, cap, step.reservation, id);
    }
  }

  /** One step keeps a recorded receipt, unless it ends the tracking of the id or settles the same
      stage again. */
  lemma ReceiptStays(t: Table, b: Books, cap: nat, step: Step, id: string, g: nat, stage: Stage, fingerprint: string, receipt: Receipt)
    requires Inv(t, b, cap) && HasReceipt(t, b, id, g, stage, fingerprint, receipt)
    requires !Rewrites(step, id, stage) && Has(Apply(t, cap, step).seen, id)
    ensures HasReceipt(Apply(t, cap, step), Booked(b, t, cap, step), id, g, stage, fingerprint, receipt)
  {
    StepLeaves(t, b, cap, step, id, stage);
    GrantOfLeaves(t, b, cap, step, id);
  }

  /** The id stays tracked through all of more, and its stage is not settled again. */
  ghost predicate StaysTracked(run: seq<Step>, more: seq<Step>, cap: nat, id: string, stage: Stage) {
    && Has(After(run + more, cap).seen, id)
    && (more != [] ==> !Rewrites(more[|more| - 1], id, stage) && StaysTracked(run, more[..|more| - 1], cap, id, stage))
  }

  lemma {:induction false} ReceiptIsStable(run: seq<Step>, more: seq<Step>, cap: nat, id: string, g: nat, stage: Stage, fingerprint: string, receipt: Receipt)
    requires HasReceipt(After(run, cap), BooksAfter(run, cap), id, g, stage, fingerprint, receipt)
    requires StaysTracked(run, more, cap, id, stage)
    ensures HasReceipt(After(run + more, cap), BooksAfter(run + more, cap), id, g, stage, fingerprint, receipt)
  {
    if more == [] {
      assert run + more == run;
    } else {
      var front := more[..|more| - 1];
      assert (run + more)[..|run + more| - 1] == run + front;
      ReceiptIsStable(run, front, cap, id, g, stage, fingerprint, receipt);
      RunKeepsInv(run + front, cap);
      ReceiptStays(After(run + front, cap), BooksAfter(run + front, cap), cap, more[|more| - 1], id, g, stage, fingerprint, receipt);
    }
  }

  /** A settled input that stays tracked answers every replay that carries the same fingerprint with
      the receipt it was settled with, and refuses every other. */
  lemma ReplayReturnsReceipt(run: seq<Step>, more: seq<Step>, cap: nat, g: nat, r: Reservation, receipt: Receipt, fingerprint: string)
    requires HasReceipt(After(run, cap), BooksAfter(run, cap), r.id, g, r.stage, fingerprint, receipt)
    requires StaysTracked(run, more, cap, r.id, r.stage)
    ensures ReserveOutcome(After(run + more, cap), cap, r) ==
            if r.fingerprint == fingerprint then Cached(receipt) else Raised(Duplicate)
  {
    ReceiptIsStable(run, more, cap, r.id, g, r.stage, fingerprint, receipt);
  }

  // ---------------------------------------------------------------------------------------
  // Commits
  // ---------------------------------------------------------------------------------------

  /** A commit that was settled and stays tracked answers every repetition with the same fingerprint
      with its receipt and refuses every other, whatever source, time or connection it names. */
  lemma CommitReplayReturnsReceipt(run: seq<Step>, more: seq<Step>, cap: nat, id: string, g: nat, receipt: Receipt, fingerprint: string,
                                   source: Source, committedAtMs: int, connectionId: Option<string>, again: string)
    requires HasReceipt(After(run, cap), BooksAfter(run, cap), id, g, Committed, fingerprint, receipt)
    requires StaysTracked(run, more, cap, id, Committed)
    ensures CommitOutcome(After(run + more, cap), id, source, committedAtMs, connectionId, again) ==
            if again == fingerprint then Cached(receipt) else Raised(Duplicate)
  {
    ReceiptIsStable(run, more, cap, id, g, Committed, fingerprint, receipt);
  }

  /** A commit is granted only for the input pending under its source, whose reservation stands and
      was made on the same connection, if any, and only if no audio of that source was ever granted,
      and not undone, with a later timestamp. */
  lemma CommitGrantedOnlyForPending(t: Table, b: Books, cap: nat, id: string, source: Source, committedAtMs: int,
                                    connectionId: Option<string>, fingerprint: string)
    requires Reachable(t, b, cap)
    requires CommitOutcome(t, id, source, committedAtMs, connectionId, fingerprint).Granted?
    ensures Has(t.pending, source) && Get(t.pending, source) == id
    ensures id in b.grantOf && Kept(b, b.grantOf[id])
            && b.history[b.grantOf[id]].id == id && b.history[b.grantOf[id]].key.source == Some(source)
    ensures Has(t.seen, id) && (Get(t.seen, id).connectionId.Some? ==> connectionId == Get(t.seen, id).connectionId)
    ensures forall g: nat :: Kept(b, g) && b.history[g].key == Key(Audio, Some(source)) ==> b.history[g].timestampMs <= committedAtMs
  {
    ReachableInv(t, b, cap);
    OutOfOrderIff(t, b, cap, Key(Audio, Some(source)), committedAtMs);
  }
}
