/** The idempotency table of the ingest service, updated in place. */
module IngestInputTable {
  import opened Options
  import opened OrderedDict
  import opened IngestTable
  import opened IngestTableProofs

  /** Some history explains the table. */
  ghost predicate Sound(t: Table, cap: nat) {
    exists b :: Inv(t, b, cap)
  }

  lemma StepKeepsSound(t: Table, cap: nat, step: Step)
    requires Sound(t, cap)
    ensures Sound(Apply(t, cap, step), cap)
  {
    var b :| Inv(t, b, cap);
    StepKeepsInv(t, b, cap, step);
  }

  lemma EmptySound(cap: nat)
    ensures Sound(EMPTY, cap)
  {
    assert Inv(EMPTY, BLANK, cap);
  }

  lemma SoundBounds(t: Table, cap: nat)
    requires Sound(t, cap)
    ensures Distinct(t.seen) && Distinct(t.pending) && |t.seen| <= cap
  {
  }

  lemma ReserveKeepsSound(t: Table, cap: nat, r: Reservation)
    requires Sound(t, cap)
    ensures Sound(AfterReserve(t, cap, r), cap) && |t.seen| <= cap
  {
    SoundBounds(t, cap);
    StepKeepsSound(t, cap, Step.Reserve(r));
  }

  lemma ClearKeepsSound(t: Table, cap: nat, connection: string)
    requires Sound(t, cap)
    ensures Sound(AfterClear(t, connection, t.pending), cap)
  {
    StepKeepsSound(t, cap, ClearConnection(connection));
  }

  /** A new entry is not accepted yet and so never its own victim. */
  lemma {:induction false} EvictableOfLonger(seen: Dict<string, Tracked>, pending: Dict<Source, string>, e: (string, Tracked))
    requires !e.1.accepted
    ensures FirstEvictable(seen + [e], pending) ==
            if FirstEvictable(seen, pending) < |seen| then FirstEvictable(seen, pending) else |seen| + 1
  {
    if seen == [] {
      assert (seen + [e])[1..] == [];
    } else {
      assert (seen + [e])[1..] == seen[1..] + [e];
      EvictableOfLonger(seen[1..], pending, e);
    }
  }

  lemma RemoveLast(seen: Dict<string, Tracked>, e: (string, Tracked))
    requires !Has(seen, e.0)
    ensures Remove(seen + [e], e.0) == seen
  {
    var longer := seen + [e];
    assert longer[|seen|] == e;
    assert forall j :: 0 <= j < |seen| ==> longer[j].0 == seen[j].0 != e.0;
    assert longer[..|seen|] + longer[|seen| + 1..] == seen;
  }

  /** What one round of the eviction loop does to a table that just outgrew its cap. */
  lemma EvictionRound(t: Table, cap: nat, id: string, tracked: Tracked)
    requires |t.seen| == cap && !Has(t.seen, id) && !tracked.accepted
    ensures var grown := t.seen + [(id, tracked)];
            var i := FirstEvictable(grown, t.pending);
            && (i == |grown| ==> Remembered(t, cap, id, tracked).None? && Remove(grown, id) == t.seen)
            && (i < |grown| ==>
                 Remembered(t, cap, id, tracked) ==
                 Some(Table(grown[..i] + grown[i + 1..], RaisedFloor(t.floors, grown[i].1), t.pending)))
  {
    var grown := t.seen + [(id, tracked)];
    EvictableOfLonger(t.seen, t.pending, (id, tracked));
    var i := FirstEvictable(t.seen, t.pending);
    if i < |t.seen| {
      assert grown[..i] + grown[i + 1..] == t.seen[..i] + t.seen[i + 1..] + [(id, tracked)];
    } else {
      RemoveLast(t.seen, (id, tracked));
    }
  }

  class InputTable {
    const maxTrackedInputIds: nat
    var seenInputs: Dict<string, Tracked>
    var timestampFloors: map<Key, int>
    var pendingAudioIds: Dict<Source, string>

    ghost function Value(): Table
      reads this
    {
      Table(seenInputs, timestampFloors, pendingAudioIds)
    }

    ghost predicate Valid()
      reads this
    {
      Sound(Value(), maxTrackedInputIds)
    }

    constructor (maxTrackedInputIds: nat)
      ensures Valid() && Value() == EMPTY && this.maxTrackedInputIds == maxTrackedInputIds
    {
      this.maxTrackedInputIds := maxTrackedInputIds;
      seenInputs, timestampFloors, pendingAudioIds := [], map[], [];
      new;
      EmptySound(maxTrackedInputIds);
    }

    method TimestampFor(key: Key) returns (last: Option<int>)
      ensures last == LastTimestamp(Value(), key)
    {
      last := None;
      for i := 0 to |seenInputs|
        invariant last == MaxTracked(seenInputs[..i], key)
      {
        assert seenInputs[..i + 1][..i] == seenInputs[..i];
        if seenInputs[i].1.key == key {
          last := Later(last, seenInputs[i].1.timestampMs);
        }
      }
      assert seenInputs[..|seenInputs|] == seenInputs;
      if key in timestampFloors {
        last := Later(last, timestampFloors[key]);
      }
    }

    method CachedReceipt(id: string, stage: Stage, fingerprint: string) returns (outcome: Option<Outcome>)
      modifies this`seenInputs
      ensures outcome == Replay(old(Value()), id, stage, fingerprint)
      ensures seenInputs == if outcome.Some? && outcome.value.Cached? then MoveToEnd(old(seenInputs), id) else old(seenInputs)
    {
      if !Has(seenInputs, id) {
        return None;
      }
      var tracked := Get(seenInputs, id);
      if stage !in tracked.fingerprints || tracked.fingerprints[stage] != fingerprint {
        return Some(Raised(Duplicate));
      }
      if stage !in tracked.receipts {
        return Some(Raised(InProgress));
      }
      seenInputs := MoveToEnd(seenInputs, id);
      return Some(Cached(tracked.receipts[stage]));
    }

    method Remember(id: string, tracked: Tracked) returns (remembered: bool)
      requires |seenInputs| <= maxTrackedInputIds && !Has(seenInputs, id) && !tracked.accepted
      modifies this`seenInputs, this`timestampFloors
      ensures remembered <==> Remembered(old(Value()), maxTrackedInputIds, id, tracked).Some?
      ensures Value() == if remembered then Remembered(old(Value()), maxTrackedInputIds, id, tracked).value else old(Value())
    {
      seenInputs := Put(seenInputs, id, tracked);
      if |old(seenInputs)| == maxTrackedInputIds {
        EvictionRound(old(Value()), maxTrackedInputIds, id, tracked);
      }
      while |seenInputs| > maxTrackedInputIds
        invariant
          || (seenInputs == old(seenInputs) + [(id, tracked)] && timestampFloors == old(timestampFloors))
          || (Remembered(old(Value()), maxTrackedInputIds, id, tracked) == Some(Value()) && |seenInputs| == maxTrackedInputIds)
        decreases |seenInputs|
      {
        var victim := FirstEvictable(seenInputs, pendingAudioIds);
        if victim == |seenInputs| {
          seenInputs := Remove(seenInputs, id);
          return false;
        }
        var evicted := seenInputs[victim].1;
        seenInputs := seenInputs[..victim] + seenInputs[victim + 1..];
        if evicted.key !in timestampFloors || evicted.timestampMs > timestampFloors[evicted.key] {
          timestampFloors := timestampFloors[evicted.key := evicted.timestampMs];
        }
      }
      return true;
    }

    /** `_reserve` */
    method Reserve(r: Reservation) returns (outcome: Outcome)
      requires Valid() && !IsAudio(r)
      modifies this
      ensures Valid()
      ensures outcome == ReserveOutcome(old(Value()), maxTrackedInputIds, r)
      ensures Value() == AfterReserve(old(Value()), maxTrackedInputIds, r)
    {
      ReserveKeepsSound(Value(), maxTrackedInputIds, r);
      outcome := ReserveLocked(r);
    }

    /** The part under the lock, for any input that is not audio. */
    method ReserveLocked(r: Reservation) returns (outcome: Outcome)
      requires |seenInputs| <= maxTrackedInputIds && !IsAudio(r)
      modifies this
      ensures outcome == ReserveOutcome(old(Value()), maxTrackedInputIds, r)
      ensures Value() == AfterReserve(old(Value()), maxTrackedInputIds, r)
    {
      var cached := CachedReceipt(r.id, r.stage, r.fingerprint);
      if cached.Some? {
        return cached.value;
      }
      var last := TimestampFor(r.key);
      if last.Some? && r.timestampMs < last.value {
        return Raised(OutOfOrder);
      }
      var remembered := Remember(r.id, NewEntry(r));
      return if remembered then Granted else Raised(CapacityExceeded);
    }

    /** `_reserve_audio` */
    method ReserveAudio(r: Reservation) returns (outcome: Outcome)
      requires Valid() && IsAudio(r)
      modifies this
      ensures Valid()
      ensures outcome == ReserveOutcome(old(Value()), maxTrackedInputIds, r)
      ensures Value() == AfterReserve(old(Value()), maxTrackedInputIds, r)
    {
      ReserveKeepsSound(Value(), maxTrackedInputIds, r);
      outcome := ReserveAudioLocked(r);
    }

    /** The part under the lock, for audio. */
    method ReserveAudioLocked(r: Reservation) returns (outcome: Outcome)
      requires |seenInputs| <= maxTrackedInputIds && IsAudio(r)
      modifies this
      ensures outcome == ReserveOutcome(old(Value()), maxTrackedInputIds, r)
      ensures Value() == AfterReserve(old(Value()), maxTrackedInputIds, r)
    {
      var cached := CachedReceipt(r.id, r.stage, r.fingerprint);
      if cached.Some? {
        return cached.value;
      }
      var source := r.key.source.value;
      if Has(pendingAudioIds, source) {
        return Raised(PreviousNotCommitted);
      }
      var last := TimestampFor(r.key);
      if last.Some? && r.timestampMs < last.value {
        return Raised(OutOfOrder);
      }
      var remembered := Remember(r.id, NewEntry(r));
      if !remembered {
        return Raised(CapacityExceeded);
      }
      pendingAudioIds := Put(pendingAudioIds, source, r.id);
      return Granted;
    }

    method CheckCommit(id: string, source: Source, committedAtMs: int, connectionId: Option<string>, fingerprint: string) returns (outcome: Outcome)
      ensures outcome == CommitOutcome(Value(), id, source, committedAtMs, connectionId, fingerprint)
    {
      var tracked := if Has(seenInputs, id) then Some(Get(seenInputs, id)) else None;
      if tracked.Some? && Committed in tracked.value.fingerprints {
        if tracked.value.fingerprints[Committed] != fingerprint {
          return Raised(Duplicate);
        }
        if Committed in tracked.value.receipts {
          return Cached(tracked.value.receipts[Committed]);
        }
      }
      if !Has(pendingAudioIds, source) || Get(pendingAudioIds, source) != id {
        return Raised(UnknownAudio);
      }
      var last := TimestampFor(Key(Audio, Some(source)));
      if last.Some? && committedAtMs < last.value {
        return Raised(OutOfOrder);
      }
      if tracked.None? || tracked.value.key.source != Some(source) {
        return Raised(UnknownAudio);
      }
      if tracked.value.connectionId.Some? && connectionId != tracked.value.connectionId {
        return Raised(UnknownAudio);
      }
      return Granted;
    }

    /** `commit_audio` under the lock, without the turn it registers */
    method CommitAudio(id: string, source: Source, committedAtMs: int, connectionId: Option<string>, fingerprint: string) returns (outcome: Outcome)
      requires Valid()
      modifies this`seenInputs
      ensures Valid()
      ensures outcome == CommitOutcome(old(Value()), id, source, committedAtMs, connectionId, fingerprint)
      ensures Value() == AfterCommit(old(Value()), id, source, committedAtMs, connectionId, fingerprint)
    {
      StepKeepsSound(Value(), maxTrackedInputIds, Commit(id, source, committedAtMs, connectionId, fingerprint));
      outcome := CheckCommit(id, source, committedAtMs, connectionId, fingerprint);
      if outcome.Granted? {
        var tracked := Get(seenInputs, id);
        seenInputs := Put(seenInputs, id, tracked.(fingerprints := tracked.fingerprints[Committed := fingerprint]));
      }
    }

    method ReleaseAudio(id: string, source: Source)
      requires Valid()
      modifies this`pendingAudioIds
      ensures Valid() && Value() == AfterRelease(old(Value()), id, source)
    {
      StepKeepsSound(Value(), maxTrackedInputIds, Release(id, source));
      if Has(pendingAudioIds, source) && Get(pendingAudioIds, source) == id {
        pendingAudioIds := Remove(pendingAudioIds, source);
      }
    }

    method SettleInput(id: string, accepted: bool, receipt: Option<Receipt>)
      requires Valid()
      modifies this`seenInputs
      ensures Valid() && Value() == AfterSettle(old(Value()), id, accepted, receipt)
    {
      StepKeepsSound(Value(), maxTrackedInputIds, Settle(id, accepted, receipt));
      if !Has(seenInputs, id) {
        return;
      }
      if accepted {
        var tracked := Get(seenInputs, id).(accepted := true);
        if receipt.Some? {
          tracked := tracked.(receipts := tracked.receipts[receipt.value.stage := receipt.value]);
        }
        seenInputs := Put(seenInputs, id, tracked);
      } else {
        seenInputs := Remove(seenInputs, id);
      }
    }

    method ClearConnectionInputs(connection: string)
      requires Valid()
      modifies this`seenInputs, this`pendingAudioIds
      ensures Valid() && Value() == AfterClear(old(Value()), connection, old(pendingAudioIds))
    {
      ClearKeepsSound(Value(), maxTrackedInputIds, connection);
      ClearLocked(connection);
    }

    /** The part under the lock. */
    method ClearLocked(connection: string)
      modifies this`seenInputs, this`pendingAudioIds
      ensures Value() == AfterClear(old(Value()), connection, old(pendingAudioIds))
    {
      var entries := pendingAudioIds;
      for i := 0 to |entries|
        invariant timestampFloors == old(timestampFloors)
        invariant AfterClear(Value(), connection, entries[i..]) == AfterClear(old(Value()), connection, entries)
      {
        assert entries[i..][0] == entries[i] && entries[i..][1..] == entries[i + 1..];
        ClearEntry(connection, entries[i]);
      }
    }

    method ClearEntry(connection: string, entry: (Source, string))
      modifies this`seenInputs, this`pendingAudioIds
      ensures Value() == AfterClearOne(old(Value()), connection, entry)
    {
      if Has(seenInputs, entry.1) && Get(seenInputs, entry.1).connectionId == Some(connection) {
        pendingAudioIds := Remove(pendingAudioIds, entry.0);
        seenInputs := Remove(seenInputs, entry.1);
      }
    }
  }
}
