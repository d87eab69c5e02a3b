/** The bounded idempotency table of ingested inputs and the history it stands for. */
module IngestTable {
  import opened Options
  import opened OrderedDict

  datatype Kind = Text | Frame | Audio

  datatype Source = Microphone | SystemAudio

  datatype Key = Key(kind: Kind, source: Option<Source>)

  datatype Stage = Received | Committed

  datatype Receipt = Receipt(inputId: string, kind: Kind, stage: Stage, receivedAtMs: int)

  datatype Tracked = Tracked(key: Key, timestampMs: int, endedAtMs: Option<int>, connectionId: Option<string>, accepted: bool,
                             fingerprints: map<Stage, string>, receipts: map<Stage, Receipt>)

  /** `seen` is ordered by last use; `floors` keeps the greatest evicted timestamp per key. */
  datatype Table = Table(seen: Dict<string, Tracked>, floors: map<Key, int>, pending: Dict<Source, string>)

  const EMPTY := Table([], map[], [])

  datatype Error = Duplicate | InProgress | PreviousNotCommitted | OutOfOrder | CapacityExceeded | UnknownAudio

  datatype Outcome = Granted | Cached(receipt: Receipt) | Raised(error: Error)

  // ---------------------------------------------------------------------------------------
  // Timestamps
  // ---------------------------------------------------------------------------------------

  function Later(a: Option<int>, b: int): Option<int> {
    if a.None? || b > a.value then Some(b) else a
  }

  /** The greatest timestamp tracked under key. */
  function MaxTracked(seen: Dict<string, Tracked>, key: Key): Option<int> {
    if seen == [] then None
    else
      var rest, last := MaxTracked(seen[..|seen| - 1], key), seen[|seen| - 1].1;
      if last.key == key then Later(rest, last.timestampMs) else rest
  }

  /** `_timestamp_for` */
  function LastTimestamp(t: Table, key: Key): Option<int> {
    if key in t.floors then Later(MaxTracked(t.seen, key), t.floors[key]) else MaxTracked(t.seen, key)
  }

  predicate InOrder(t: Table, key: Key, timestampMs: int) {
    LastTimestamp(t, key).None? || timestampMs >= LastTimestamp(t, key).value
  }

  lemma {:induction false} MaxTrackedIs(seen: Dict<string, Tracked>, key: Key)
    ensures forall e :: e in seen && e.1.key == key ==> MaxTracked(seen, key).Some? && e.1.timestampMs <= MaxTracked(seen, key).value
    ensures MaxTracked(seen, key).Some? ==> exists e :: e in seen && e.1.key == key && e.1.timestampMs == MaxTracked(seen, key).value
  {
    if seen != [] {
      MaxTrackedIs(seen[..|seen| - 1], key);
      assert seen == seen[..|seen| - 1] + [seen[|seen| - 1]];
    }
  }

  // ---------------------------------------------------------------------------------------
  // Operations
  // ---------------------------------------------------------------------------------------

  /** `_cached_receipt_locked`: None when the id is not tracked. */
  function Replay(t: Table, id: string, stage: Stage, fingerprint: string): Option<Outcome> {
    if !Has(t.seen, id) then None
    else
      var tracked := Get(t.seen, id);
      if stage !in tracked.fingerprints || tracked.fingerprints[stage] != fingerprint then Some(Raised(Duplicate))
      else if stage !in tracked.receipts then Some(Raised(InProgress))
      else Some(Cached(tracked.receipts[stage]))
  }

  predicate Evictable(e: (string, Tracked), pending: Dict<Source, string>) {
    e.1.accepted && !exists p :: p in pending && p.1 == e.0
  }

  /** The position of the least recently used entry that may be evicted, or |seen|. */
  function FirstEvictable(seen: Dict<string, Tracked>, pending: Dict<Source, string>): (i: nat)
    ensures i <= |seen|
    ensures i < |seen| ==> Evictable(seen[i], pending)
    ensures forall j :: 0 <= j < i ==> !Evictable(seen[j], pending)
  {
    if seen == [] || Evictable(seen[0], pending) then 0 else 1 + FirstEvictable(seen[1..], pending)
  }

  function RaisedFloor(floors: map<Key, int>, tracked: Tracked): map<Key, int> {
    if tracked.key !in floors || tracked.timestampMs > floors[tracked.key] then floors[tracked.key := tracked.timestampMs] else floors
  }

  /** `_remember_locked`: None when the table is full of inputs that are in progress. */
  function Remembered(t: Table, cap: nat, id: string, tracked: Tracked): Option<Table> {
    if |t.seen| < cap then Some(t.(seen := t.seen + [(id, tracked)]))
    else
      var i := FirstEvictable(t.seen, t.pending);
      if i == |t.seen| then None
      else Some(t.(seen := t.seen[..i] + t.seen[i + 1..] + [(id, tracked)], floors := RaisedFloor(t.floors, t.seen[i].1)))
  }

  datatype Reservation = Reservation(id: string, key: Key, timestampMs: int, endedAtMs: Option<int>,
                                     connectionId: Option<string>, fingerprint: string, stage: Stage)

  function NewEntry(r: Reservation): Tracked {
    Tracked(r.key, r.timestampMs, r.endedAtMs, r.connectionId, false, map[r.stage := r.fingerprint], map[])
  }

  predicate IsAudio(r: Reservation) {
    r.key.kind.Audio? && r.key.source.Some?
  }

  /** `_reserve` and, for audio, `_reserve_audio` */
  function ReserveOutcome(t: Table, cap: nat, r: Reservation): Outcome {
    var replay := Replay(t, r.id, r.stage, r.fingerprint);
    if replay.Some? then replay.value
    else if IsAudio(r) && Has(t.pending, r.key.source.value) then Raised(PreviousNotCommitted)
    else if !InOrder(t, r.key, r.timestampMs) then Raised(OutOfOrder)
    else if Remembered(t, cap, r.id, NewEntry(r)).None? then Raised(CapacityExceeded)
    else Granted
  }

  function AfterReserve(t: Table, cap: nat, r: Reservation): Table {
    match ReserveOutcome(t, cap, r)
    case Granted =>
      var remembered := Remembered(t, cap, r.id, NewEntry(r)).value;
      if IsAudio(r) then remembered.(pending := Put(t.pending, r.key.source.value, r.id)) else remembered
    case Cached(_) => t.(seen := MoveToEnd(t.seen, r.id))
    case Raised(_) => t
  }

  /** The part of `commit_audio` under the lock. */
  function CommitOutcome(t: Table, id: string, source: Source, committedAtMs: int, connectionId: Option<string>, fingerprint: string): Outcome {
    var tracked := if Has(t.seen, id) then Some(Get(t.seen, id)) else None;
    if tracked.Some? && Committed in tracked.value.fingerprints && tracked.value.fingerprints[Committed] != fingerprint then Raised(Duplicate)
    else if tracked.Some? && Committed in tracked.value.fingerprints && Committed in tracked.value.receipts then Cached(tracked.value.receipts[Committed])
    else if !Has(t.pending, source) || Get(t.pending, source) != id then Raised(UnknownAudio)
    else if !InOrder(t, Key(Audio, Some(source)), committedAtMs) then Raised(OutOfOrder)
    else if tracked.None? || tracked.value.key.source != Some(source) then Raised(UnknownAudio)
    else if tracked.value.connectionId.Some? && connectionId != tracked.value.connectionId then Raised(UnknownAudio)
    else Granted
  }

  function AfterCommit(t: Table, id: string, source: Source, committedAtMs: int, connectionId: Option<string>, fingerprint: string): Table {
    if CommitOutcome(t, id, source, committedAtMs, connectionId, fingerprint).Granted? then
      var tracked := Get(t.seen, id);
      t.(seen := Put(t.seen, id, tracked.(fingerprints := tracked.fingerprints[Committed := fingerprint])))
    else t
  }

  function AfterRelease(t: Table, id: string, source: Source): Table {
    if Has(t.pending, source) && Get(t.pending, source) == id then t.(pending := Remove(t.pending, source)) else t
  }

  function Settled(tracked: Tracked, receipt: Option<Receipt>): Tracked {
    if receipt.Some? then tracked.(accepted := true, receipts := tracked.receipts[receipt.value.stage := receipt.value])
    else tracked.(accepted := true)
  }

  function AfterSettle(t: Table, id: string, accepted: bool, receipt: Option<Receipt>): Table {
    if !Has(t.seen, id) then t
    else if accepted then t.(seen := Put(t.seen, id, Settled(Get(t.seen, id), receipt)))
    else t.(seen := Remove(t.seen, id))
  }

  predicate ClearedBy(t: Table, connectionId: string, entry: (Source, string)) {
    Has(t.seen, entry.1) && Get(t.seen, entry.1).connectionId == Some(connectionId)
  }

  function AfterClearOne(t: Table, connectionId: string, entry: (Source, string)): Table {
    if ClearedBy(t, connectionId, entry) then t.(pending := Remove(t.pending, entry.0), seen := Remove(t.seen, entry.1)) else t
  }

  /** `clear_connection`, over what is left of the pending entries it started with. */
  function AfterClear(t: Table, connectionId: string, entries: Dict<Source, string>): Table
    decreases |entries|
  {
    if entries == [] then t
    else AfterClear(AfterClearOne(t, connectionId, entries[0]), connectionId, entries[1..])
  }

  datatype Step =
    | Reserve(reservation: Reservation)
    | Commit(id: string, source: Source, committedAtMs: int, connectionId: Option<string>, fingerprint: string)
    | Release(id: string, source: Source)
    | Settle(id: string, accepted: bool, receipt: Option<Receipt>)
    | ClearConnection(connection: string)

  function Apply(t: Table, cap: nat, step: Step): Table {
    match step
    case Reserve(r) => AfterReserve(t, cap, r)
    case Commit(id, source, at, connectionId, fingerprint) => AfterCommit(t, id, source, at, connectionId, fingerprint)
    case Release(id, source) => AfterRelease(t, id, source)
    case Settle(id, accepted, receipt) => AfterSettle(t, id, accepted, receipt)
    case ClearConnection(connection) => AfterClear(t, connection, t.pending)
  }

  // ---------------------------------------------------------------------------------------
  // The unbounded history
  // ---------------------------------------------------------------------------------------

  datatype Grant = Grant(id: string, key: Key, timestampMs: int)

  /** All reservations granted since the session started; those undone since (the input failed, or
      its connection was cleared); and which one each tracked id stands for. */
  datatype Books = Books(history: seq<Grant>, undone: set<nat>, grantOf: map<string, nat>)

  const BLANK := Books([], {}, map[])

  ghost function Undo(b: Books, ids: set<string>): Books {
    b.(undone := b.undone + (set id | id in ids && id in b.grantOf :: b.grantOf[id]), grantOf := b.grantOf - ids)
  }

  ghost function DroppedIds(before: Table, after: Table): set<string> {
    set e | e in before.seen && !Has(after.seen, e.0) :: e.0
  }

  /** The books after a step that took the table from t to t'. */
  ghost function Booked(b: Books, t: Table, cap: nat, step: Step): Books {
    match step
    case Reserve(r) =>
      if ReserveOutcome(t, cap, r).Granted? then
        Books(b.history + [Grant(r.id, r.key, r.timestampMs)], b.undone,
              (b.grantOf - DroppedIds(t, AfterReserve(t, cap, r)))[r.id := |b.history|])
      else b
    case _ => Undo(b, DroppedIds(t, Apply(t, cap, step)))
  }

  /** The grant counts: it was made and not undone. */
  ghost predicate Kept(b: Books, g: nat) {
    g < |b.history| && g !in b.undone
  }

  ghost predicate Standing(b: Books, g: nat) {
    Kept(b, g) && b.history[g].id in b.grantOf && b.grantOf[b.history[g].id] == g
  }

  ghost predicate TrackedInv(t: Table, b: Books) {
    && (forall id: string :: Has(t.seen, id) <==> id in b.grantOf)
    && (forall id: string :: id in b.grantOf ==>
          && Has(t.seen, id) && Kept(b, b.grantOf[id])
          && b.history[b.grantOf[id]] == Grant(id, Get(t.seen, id).key, Get(t.seen, id).timestampMs))
  }

  /** A kept grant is still tracked, or the floor of its key has caught up with it. */
  ghost predicate FloorInv(t: Table, b: Books) {
    && (forall g: nat :: Kept(b, g) ==>
          Standing(b, g) || (b.history[g].key in t.floors && t.floors[b.history[g].key] >= b.history[g].timestampMs))
    && (forall key: Key :: key in t.floors ==>
          exists g: nat :: Kept(b, g) && !Standing(b, g) && b.history[g].key == key && b.history[g].timestampMs == t.floors[key])
  }

  ghost predicate OrderInv(b: Books) {
    forall g: nat, h: nat :: g < h && Kept(b, g) && Kept(b, h) && b.history[g].key == b.history[h].key ==>
      b.history[g].timestampMs <= b.history[h].timestampMs
  }

  /** No id is granted again while it is tracked. */
  ghost predicate OnceInv(b: Books) {
    && (forall id: string, h: nat :: id in b.grantOf && b.grantOf[id] < h < |b.history| ==> b.history[h].id != id)
    && (forall g :: g in b.undone ==> g < |b.history|)
  }

  ghost predicate Inv(t: Table, b: Books, cap: nat) {
    match t
    case Table(seen, _, pending) =>
      && Distinct(seen) && Distinct(pending) && |seen| <= cap
      && TrackedInv(t, b) && FloorInv(t, b) && OrderInv(b) && OnceInv(b)
  }
}
