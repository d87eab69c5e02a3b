/** What becomes of a granted input: until it is settled its replays are in progress, afterwards they
    return the receipt it was settled with; and what ends its tracking. */
module IngestSettlements {
  import opened Options
  import opened OrderedDict
  import opened IngestTable
  import opened IngestTableProofs

  /** The id stays tracked through all of more. */
  ghost predicate TrackedThrough(run: seq<Step>, more: seq<Step>, cap: nat, id: string) {
    && Has(After(run + more, cap).seen, id)
    && (more != [] ==> TrackedThrough(run, more[..|more| - 1], cap, id))
  }

  /** No step of more settles this stage of the id with a receipt. */
  ghost predicate NotSettled(more: seq<Step>, id: string, stage: Stage) {
    forall k :: 0 <= k < |more| ==> !Rewrites(more[k], id, stage)
  }

  /** The step settles the id as accepted. */
  ghost predicate Accepts(step: Step, id: string) {
    step.Settle? && step.id == id && step.accepted
  }

  /** Some step of more settles the id as accepted. */
  ghost predicate AcceptedIn(more: seq<Step>, id: string) {
    more != [] && (Accepts(more[|more| - 1], id) || AcceptedIn(more[..|more| - 1], id))
  }

  /** The tracked id remembers this fingerprint for the stage. */
  ghost predicate Remembers(t: Table, id: string, stage: Stage, fingerprint: string) {
    && Has(t.seen, id) && stage in Get(t.seen, id).fingerprints && Get(t.seen, id).fingerprints[stage] == fingerprint
  }

  lemma FingerprintStays(t: Table, b: Books, cap: nat, step: Step, id: string, stage: Stage, fingerprint: string)
    requires Distinct(t.seen) && Remembers(t, id, stage, fingerprint) && Has(Apply(t, cap, step).seen, id)
    ensures Remembers(Apply(t, cap, step), id, stage, fingerprint)
    ensures stage !in Get(t.seen, id).receipts && !Rewrites(step, id, stage) ==> stage !in Get(Apply(t, cap, step).seen, id).receipts
    ensures Get(Apply(t, cap, step).seen, id).connectionId == Get(t.seen, id).connectionId
    ensures Get(Apply(t, cap, step).seen, id).accepted <==> Get(t.seen, id).accepted || Accepts(step, id)
  {
    match step
    case Reserve(r) => ReserveLeaves(t, b, cap, r, id);
    case Commit(x, source, at, connectionId, fingerprint) =>
      if CommitOutcome(t, x, source, at, connectionId, fingerprint).Granted? {
        var tracked := Get(t.seen, x);
        PutSame(t.seen, x, tracked.(fingerprints := tracked.fingerprints[Committed := fingerprint]));
      }
    case Release(_, _) =>
    case Settle(x, accepted, receipt) => SettleKeepsFingerprint(t, x, accepted, receipt, id);
    case ClearConnection(connection) => ClearLeaves(t, connection, t.pending, id);
  }

  lemma SettleKeepsFingerprint(t: Table, x: string, accepted: bool, receipt: Option<Receipt>, id: string)
    requires Distinct(t.seen) && Has(t.seen, id) && Has(AfterSettle(t, x, accepted, receipt).seen, id)
    ensures var before, now := Get(t.seen, id), Get(AfterSettle(t, x, accepted, receipt).seen, id);
            && now.fingerprints == before.fingerprints && now.connectionId == before.connectionId
            && (now.accepted <==> before.accepted || (accepted && x == id))
            && forall stage :: stage in now.receipts ==> stage in before.receipts || Rewrites(Settle(x, accepted, receipt), id, stage)
  {
    if Has(t.seen, x) {
      PutSame(t.seen, x, Settled(Get(t.seen, x), receipt));
      Removed(t.seen, x);
    }
  }

  lemma {:induction false} FingerprintThrough(run: seq<Step>, more: seq<Step>, cap: nat, id: string, stage: Stage, fingerprint: string)
    requires Remembers(After(run, cap), id, stage, fingerprint) && TrackedThrough(run, more, cap, id)
    ensures Remembers(After(run + more, cap), id, stage, fingerprint)
    ensures stage !in Get(After(run, cap).seen, id).receipts && NotSettled(more, id, stage) ==>
              stage !in Get(After(run + more, cap).seen, id).receipts
    ensures Get(After(run + more, cap).seen, id).connectionId == Get(After(run, cap).seen, id).connectionId
    ensures Get(After(run + more, cap).seen, id).accepted <==> Get(After(run, cap).seen, id).accepted || AcceptedIn(more, id)
  {
    if more == [] {
      assert run + more == run;
    } else {
      var m := |more| - 1;
      assert (run + more)[..|run + more| - 1] == run + more[..m];
      FingerprintThrough(run, more[..m], cap, id, stage, fingerprint);
      RunKeepsInv(run + more[..m], cap);
      FingerprintStays(After(run + more[..m], cap), BooksAfter(run + more[..m], cap), cap, more[m], id, stage, fingerprint);
    }
  }

  /** Every replay of this stage of the id gets this answer if it carries the fingerprint and is
      refused as a duplicate otherwise. */
  ghost predicate Answers(t: Table, cap: nat, id: string, stage: Stage, fingerprint: string, answer: Outcome) {
    forall r: Reservation :: r.id == id && r.stage == stage ==>
      ReserveOutcome(t, cap, r) == if r.fingerprint == fingerprint then answer else Raised(Duplicate)
  }

  /** A granted reservation is tracked as it was made, with nothing recorded for it yet. */
  lemma ReserveRemembers(t: Table, b: Books, cap: nat, r: Reservation)
    requires Distinct(t.seen) && |t.seen| <= cap && ReserveOutcome(t, cap, r).Granted?
    ensures Remembers(AfterReserve(t, cap, r), r.id, r.stage, r.fingerprint)
    ensures var entry := Get(AfterReserve(t, cap, r).seen, r.id); r.stage !in entry.receipts && entry.connectionId == r.connectionId && !entry.accepted
  {
    ReservedEntry(t, b, cap, r);
  }

  lemma ReservedEntry(t: Table, b: Books, cap: nat, r: Reservation)
    requires Distinct(t.seen) && |t.seen| <= cap && ReserveOutcome(t, cap, r).Granted?
    ensures Has(AfterReserve(t, cap, r).seen, r.id) && Get(AfterReserve(t, cap, r).seen, r.id) == NewEntry(r)
  {
    if |t.seen| < cap {
      ReservedInRoom(t, b, cap, r);
      Appended(t.seen, r.id, NewEntry(r));
    } else {
      EvictedEntry(t, b, cap, r);
    }
  }

  lemma EvictedEntry(t: Table, b: Books, cap: nat, r: Reservation)
    requires Distinct(t.seen) && |t.seen| == cap && ReserveOutcome(t, cap, r).Granted?
    ensures Has(AfterReserve(t, cap, r).seen, r.id) && Get(AfterReserve(t, cap, r).seen, r.id) == NewEntry(r)
  {
    ReservedByEviction(t, b, cap, r);
    AppendedAfter(t.seen, FirstEvictable(t.seen, t.pending), r.id, NewEntry(r));
  }

  lemma AppendedAfter(seen: Dict<string, Tracked>, i: nat, id: string, tracked: Tracked)
    requires Distinct(seen) && i < |seen| && !Has(seen, id)
    ensures var seen' := seen[..i] + seen[i + 1..] + [(id, tracked)]; Has(seen', id) && Get(seen', id) == tracked
  {
    EvictedInputs(seen, i);
    Removed(seen, seen[i].0);
    Appended(Remove(seen, seen[i].0), id, tracked);
  }

  lemma CommitRemembers(t: Table, b: Books, cap: nat, id: string, source: Source, committedAtMs: int, connectionId: Option<string>,
                        fingerprint: string)
    requires Inv(t, b, cap) && CommitOutcome(t, id, source, committedAtMs, connectionId, fingerprint).Granted?
    ensures Remembers(AfterCommit(t, id, source, committedAtMs, connectionId, fingerprint), id, Committed, fingerprint)
  {
    var tracked := Get(t.seen, id);
    PutSame(t.seen, id, tracked.(fingerprints := tracked.fingerprints[Committed := fingerprint]));
  }

  /** A settlement records its receipt. */
  lemma SettleRecords(t: Table, b: Books, cap: nat, id: string, fingerprint: string, receipt: Receipt)
    requires Inv(t, b, cap) && Remembers(t, id, receipt.stage, fingerprint)
    ensures var step := Settle(id, true, Some(receipt));
            && id in Booked(b, t, cap, step).grantOf
            && HasReceipt(Apply(t, cap, step), Booked(b, t, cap, step), id, Booked(b, t, cap, step).grantOf[id], receipt.stage, fingerprint, receipt)
  {
    var step := Settle(id, true, Some(receipt));
    PutSame(t.seen, id, Settled(Get(t.seen, id), Some(receipt)));
    StepKeepsInv(t, b, cap, step);
  }

  /** From the moment a stage's fingerprint is remembered, through its settlement, and on. */
  lemma SettledAnswers(run: seq<Step>, between: seq<Step>, more: seq<Step>, cap: nat, id: string, fingerprint: string, receipt: Receipt)
    requires Remembers(After(run, cap), id, receipt.stage, fingerprint) && TrackedThrough(run, between, cap, id)
    requires StaysTracked(run + between + [Settle(id, true, Some(receipt))], more, cap, id, receipt.stage)
    ensures Replays(After(run + between + [Settle(id, true, Some(receipt))] + more, cap), id, receipt.stage, fingerprint, receipt)
  {
    var before, settled := run + between, run + between + [Settle(id, true, Some(receipt))];
    FingerprintThrough(run, between, cap, id, receipt.stage, fingerprint);
    RunKeepsInv(before, cap);
    SettleRecords(After(before, cap), BooksAfter(before, cap), cap, id, fingerprint, receipt);
    assert settled[..|settled| - 1] == before;
    ReceiptIsStable(settled, more, cap, id, BooksAfter(settled, cap).grantOf[id], receipt.stage, fingerprint, receipt);
  }

  /** The table has this receipt for the stage. */
  ghost predicate Replays(t: Table, id: string, stage: Stage, fingerprint: string, receipt: Receipt) {
    && Remembers(t, id, stage, fingerprint)
    && stage in Get(t.seen, id).receipts && Get(t.seen, id).receipts[stage] == receipt
  }

  /** Over every run: once an input was granted and later settled with a receipt of the granted stage,
      then, as long as its id stays tracked and the stage is not settled again, every replay with the
      granted fingerprint is answered with that receipt and every other is refused. */
  lemma SettledInputReplays(run: seq<Step>, r: Reservation, between: seq<Step>, receipt: Receipt, more: seq<Step>, cap: nat)
    requires ReserveOutcome(After(run, cap), cap, r).Granted? && receipt.stage == r.stage
    requires TrackedThrough(run + [Reserve(r)], between, cap, r.id)
    requires StaysTracked(run + [Reserve(r)] + between + [Settle(r.id, true, Some(receipt))], more, cap, r.id, r.stage)
    ensures Answers(After(run + [Reserve(r)] + between + [Settle(r.id, true, Some(receipt))] + more, cap), cap, r.id, r.stage, r.fingerprint, Cached(receipt))
  {
    GrantRemembers(run, r, cap);
    SettledAnswers(run + [Reserve(r)], between, more, cap, r.id, r.fingerprint, receipt);
  }

  /** Until then they are told that the input is in progress. */
  lemma UnsettledInputReplays(run: seq<Step>, r: Reservation, between: seq<Step>, cap: nat)
    requires ReserveOutcome(After(run, cap), cap, r).Granted?
    requires TrackedThrough(run + [Reserve(r)], between, cap, r.id) && NotSettled(between, r.id, r.stage)
    ensures Answers(After(run + [Reserve(r)] + between, cap), cap, r.id, r.stage, r.fingerprint, Raised(InProgress))
  {
    GrantRemembers(run, r, cap);
    FingerprintThrough(run + [Reserve(r)], between, cap, r.id, r.stage, r.fingerprint);
  }

  /** The same for a commit: once granted and settled, it is answered with its receipt, whatever
      source, time or connection the repetition names. */
  lemma SettledCommitReplays(run: seq<Step>, commit: Step, between: seq<Step>, receipt: Receipt, more: seq<Step>, cap: nat, again: Step)
    requires commit.Commit? && again.Commit? && again.id == commit.id && receipt.stage == Committed
    requires CommitOutcome(After(run, cap), commit.id, commit.source, commit.committedAtMs, commit.connectionId, commit.fingerprint).Granted?
    requires TrackedThrough(run + [commit], between, cap, commit.id)
    requires StaysTracked(run + [commit] + between + [Settle(commit.id, true, Some(receipt))], more, cap, commit.id, Committed)
    ensures var t := After(run + [commit] + between + [Settle(commit.id, true, Some(receipt))] + more, cap);
            CommitOutcome(t, again.id, again.source, again.committedAtMs, again.connectionId, again.fingerprint) ==
            if again.fingerprint == commit.fingerprint then Cached(receipt) else Raised(Duplicate)
  {
    var granted := run + [commit];
    assert granted[..|granted| - 1] == run;
    RunKeepsInv(run, cap);
    CommitRemembers(After(run, cap), BooksAfter(run, cap), cap, commit.id, commit.source, commit.committedAtMs, commit.connectionId, commit.fingerprint);
    SettledAnswers(granted, between, more, cap, commit.id, commit.fingerprint, receipt);
  }

  // ---------------------------------------------------------------------------------------
  // What ends the tracking of an input
  // ---------------------------------------------------------------------------------------

  /** A pending entry names the id. */
  ghost predicate IsPending(pending: Dict<Source, string>, id: string) {
    exists k :: 0 <= k < |pending| && pending[k].1 == id
  }

  lemma {:induction false} ClearDrops(t: Table, connection: string, entries: Dict<Source, string>, id: string)
    requires Distinct(t.seen)
    ensures Has(AfterClear(t, connection, entries).seen, id) <==>
            Has(t.seen, id) && !(IsPending(entries, id) && Get(t.seen, id).connectionId == Some(connection))
    decreases |entries|
  {
    if entries != [] {
      var next := AfterClearOne(t, connection, entries[0]);
      Removed(t.seen, entries[0].1);
      ClearDrops(next, connection, entries[1..], id);
      assert IsPending(entries, id) <==> entries[0].1 == id || IsPending(entries[1..], id) by {
        if IsPending(entries, id) && entries[0].1 != id {
          var k :| 0 <= k < |entries| && entries[k].1 == id;
          assert entries[1..][k - 1].1 == id;
        }
        if k :| 0 <= k < |entries[1..]| && entries[1..][k].1 == id {
          assert entries[k + 1].1 == id;
        }
      }
    }
  }

  /** Over every run: when a connection is lost, a granted input that is still tracked is forgotten if
      and only if it was reserved on that connection and is pending audio. */
  lemma LostConnectionForgets(run: seq<Step>, r: Reservation, between: seq<Step>, connection: string, cap: nat)
    requires ReserveOutcome(After(run, cap), cap, r).Granted?
    requires TrackedThrough(run + [Reserve(r)], between, cap, r.id)
    ensures var before := After(run + [Reserve(r)] + between, cap);
            Has(After(run + [Reserve(r)] + between + [ClearConnection(connection)], cap).seen, r.id) <==>
            !(r.connectionId == Some(connection) && IsPending(before.pending, r.id))
  {
    var before := run + [Reserve(r)] + between;
    OneMore(before, ClearConnection(connection), cap);
    GrantedConnection(run, r, between, cap);
    DistinctAfter(before, cap);
    ConnectionForgets(After(before, cap), cap, connection, r.id, r.connectionId);
  }

  lemma ConnectionForgets(t: Table, cap: nat, connection: string, id: string, own: Option<string>)
    requires Distinct(t.seen) && Has(t.seen, id) && Get(t.seen, id).connectionId == own
    ensures Has(Apply(t, cap, ClearConnection(connection)).seen, id) <==> !(own == Some(connection) && IsPending(t.pending, id))
  {
    ClearDrops(t, connection, t.pending, id);
  }

  lemma OneMore(run: seq<Step>, step: Step, cap: nat)
    ensures After(run + [step], cap) == Apply(After(run, cap), cap, step)
    ensures BooksAfter(run + [step], cap) == Booked(BooksAfter(run, cap), After(run, cap), cap, step)
  {
    assert (run + [step])[..|run|] == run;
  }

  lemma DistinctAfter(run: seq<Step>, cap: nat)
    ensures Distinct(After(run, cap).seen) && |After(run, cap).seen| <= cap
  {
    RunKeepsInv(run, cap);
  }

  /** The table after a granted reservation remembers it. */
  lemma GrantRemembers(run: seq<Step>, r: Reservation, cap: nat)
    requires ReserveOutcome(After(run, cap), cap, r).Granted?
    ensures var t := After(run + [Reserve(r)], cap);
            && Remembers(t, r.id, r.stage, r.fingerprint)
            && r.stage !in Get(t.seen, r.id).receipts && Get(t.seen, r.id).connectionId == r.connectionId && !Get(t.seen, r.id).accepted
  {
    OneMore(run, Reserve(r), cap);
    DistinctAfter(run, cap);
    ReserveRemembers(After(run, cap), BooksAfter(run, cap), cap, r);
  }

  lemma GrantedConnection(run: seq<Step>, r: Reservation, between: seq<Step>, cap: nat)
    requires ReserveOutcome(After(run, cap), cap, r).Granted?
    requires TrackedThrough(run + [Reserve(r)], between, cap, r.id)
    ensures var t := After(run + [Reserve(r)] + between, cap); Has(t.seen, r.id) && Get(t.seen, r.id).connectionId == r.connectionId
  {
    GrantRemembers(run, r, cap);
    FingerprintThrough(run + [Reserve(r)], between, cap, r.id, r.stage, r.fingerprint);
  }

  /** An input that failed is forgotten, and nothing else ends the tracking of an id but the loss of
      its connection and eviction by a granted reservation. */
  lemma TrackingEnds(t: Table, b: Books, cap: nat, step: Step, id: string)
    requires Reachable(t, b, cap) && Has(t.seen, id)
    ensures !Has(Apply(t, cap, step).seen, id) <==>
            match step
            case Reserve(r) => ReserveOutcome(t, cap, r).Granted? && |t.seen| == cap && Find(t.seen, id) == FirstEvictable(t.seen, t.pending)
            case Settle(x, accepted, _) => x == id && !accepted
            case ClearConnection(connection) => IsPending(t.pending, id) && Get(t.seen, id).connectionId == Some(connection)
            case _ => false
  {
    ReachableDistinct(t, b, cap);
    match step
    case Reserve(r) => ReserveEnds(t, b, cap, r, id);
    case Commit(_, _, _, _, _) => CommitEndsNone(t, cap, step, id);
    case Release(_, _) =>
    case Settle(x, accepted, receipt) => SettleEnds(t, x, accepted, receipt, id);
    case ClearConnection(connection) => ClearDrops(t, connection, t.pending, id);
  }

  lemma CommitEndsNone(t: Table, cap: nat, step: Step, id: string)
    requires Distinct(t.seen) && step.Commit? && Has(t.seen, id)
    ensures Has(Apply(t, cap, step).seen, id)
  {
    if CommitOutcome(t, step.id, step.source, step.committedAtMs, step.connectionId, step.fingerprint).Granted? {
      var tracked := Get(t.seen, step.id);
      PutSame(t.seen, step.id, tracked.(fingerprints := tracked.fingerprints[Committed := step.fingerprint]));
    }
  }

  lemma SettleEnds(t: Table, x: string, accepted: bool, receipt: Option<Receipt>, id: string)
    requires Distinct(t.seen) && Has(t.seen, id)
    ensures Has(AfterSettle(t, x, accepted, receipt).seen, id) <==> !(x == id && !accepted)
  {
    if Has(t.seen, x) {
      PutSame(t.seen, x, Settled(Get(t.seen, x), receipt));
      Removed(t.seen, x);
    }
  }

  lemma ReachableDistinct(t: Table, b: Books, cap: nat)
    requires Reachable(t, b, cap)
    ensures Distinct(t.seen) && |t.seen| <= cap
  {
    ReachableInv(t, b, cap);
  }

  lemma ReserveEnds(t: Table, b: Books, cap: nat, r: Reservation, id: string)
    requires Distinct(t.seen) && |t.seen| <= cap && Has(t.seen, id)
    ensures !Has(AfterReserve(t, cap, r).seen, id) <==>
            ReserveOutcome(t, cap, r).Granted? && |t.seen| == cap && Find(t.seen, id) == FirstEvictable(t.seen, t.pending)
  {
    match ReserveOutcome(t, cap, r)
    case Granted =>
      if |t.seen| < cap {
        ReservedInRoom(t, b, cap, r);
        Appended(t.seen, r.id, NewEntry(r));
      } else {
        ReservedByEviction(t, b, cap, r);
        DroppedIff(t, AfterReserve(t, cap, r), id);
        FindAt(t.seen, FirstEvictable(t.seen, t.pending));
      }
    case Cached(_) => MovedSame(t.seen, r.id);
    case Raised(_) =>
  }

  // ---------------------------------------------------------------------------------------
  // Which reservations and commits are granted
  // ---------------------------------------------------------------------------------------

  /** A kept grant of this key is later than the moment. */
  ghost predicate LaterKept(b: Books, key: Key, timestampMs: int) {
    exists g: nat :: Kept(b, g) && b.history[g].key == key && b.history[g].timestampMs > timestampMs
  }

  /** In every reachable table, a reservation is granted if and only if its id is not tracked, its
      source has no uncommitted audio if it is audio, no later input of its kind and source was granted
      and not undone, and the table has room or an input that was accepted and is not pending audio. */
  lemma ReservationGrantedIff(t: Table, b: Books, cap: nat, r: Reservation)
    requires Reachable(t, b, cap)
    ensures ReserveOutcome(t, cap, r).Granted? <==>
            && r.id !in b.grantOf
            && !(r.key.kind.Audio? && r.key.source.Some? && Has(t.pending, r.key.source.value))
            && !LaterKept(b, r.key, r.timestampMs)
            && (|t.seen| < cap || exists k :: 0 <= k < |t.seen| && t.seen[k].1.accepted && !IsPending(t.pending, t.seen[k].0))
  {
    ReachableInv(t, b, cap);
    OutOfOrderIff(t, b, cap, r.key, r.timestampMs);
    VictimIff(t.seen, t.pending);
  }

  lemma VictimIff(seen: Dict<string, Tracked>, pending: Dict<Source, string>)
    ensures FirstEvictable(seen, pending) < |seen| <==>
            exists k :: 0 <= k < |seen| && seen[k].1.accepted && !IsPending(pending, seen[k].0)
  {
    forall k | 0 <= k < |seen|
      ensures Evictable(seen[k], pending) <==> seen[k].1.accepted && !IsPending(pending, seen[k].0)
    {
      if p :| p in pending && p.1 == seen[k].0 {
        var n :| 0 <= n < |pending| && pending[n] == p;
      }
      if n :| 0 <= n < |pending| && pending[n].1 == seen[k].0 {
        assert pending[n] in pending;
      }
    }
  }

  /** In every reachable table, a commit is granted if and only if the id is tracked and pending under
      the source it was reserved for, on the connection it was reserved on, if any, no later audio of
      the source was granted and not undone, and the id has no other commit and none that was settled. */
  lemma CommitGrantedIff(t: Table, b: Books, cap: nat, id: string, source: Source, committedAtMs: int, connectionId: Option<string>,
                         fingerprint: string)
    requires Reachable(t, b, cap)
    ensures CommitOutcome(t, id, source, committedAtMs, connectionId, fingerprint).Granted? <==>
            && id in b.grantOf && Kept(b, b.grantOf[id]) && b.history[b.grantOf[id]].key.source == Some(source)
            && Has(t.pending, source) && Get(t.pending, source) == id
            && !LaterKept(b, Key(Audio, Some(source)), committedAtMs)
            && Has(t.seen, id)
            && var entry := Get(t.seen, id);
               && (entry.connectionId.None? || entry.connectionId == connectionId)
               && (Committed in entry.fingerprints ==> entry.fingerprints[Committed] == fingerprint && Committed !in entry.receipts)
  {
    ReachableInv(t, b, cap);
    OutOfOrderIff(t, b, cap, Key(Audio, Some(source)), committedAtMs);
  }

  // ---------------------------------------------------------------------------------------
  // Idle and pending inputs
  // ---------------------------------------------------------------------------------------

  /** Over every run: a tracked input counts as accepted, and so as one that eviction may take, exactly
      once it has been settled as accepted. */
  lemma AcceptedOnceSettled(run: seq<Step>, r: Reservation, between: seq<Step>, cap: nat)
    requires ReserveOutcome(After(run, cap), cap, r).Granted?
    requires TrackedThrough(run + [Reserve(r)], between, cap, r.id)
    ensures var t := After(run + [Reserve(r)] + between, cap);
            Has(t.seen, r.id) && (Get(t.seen, r.id).accepted <==> AcceptedIn(between, r.id))
  {
    GrantRemembers(run, r, cap);
    FingerprintThrough(run + [Reserve(r)], between, cap, r.id, r.stage, r.fingerprint);
  }

  /** So no reservation ever evicts an input that has not been settled. */
  lemma UnsettledIsKept(run: seq<Step>, r: Reservation, between: seq<Step>, cap: nat, next: Reservation)
    requires ReserveOutcome(After(run, cap), cap, r).Granted?
    requires TrackedThrough(run + [Reserve(r)], between, cap, r.id) && !AcceptedIn(between, r.id)
    ensures Has(After(run + [Reserve(r)] + between + [Reserve(next)], cap).seen, r.id)
  {
    var before := run + [Reserve(r)] + between;
    AcceptedOnceSettled(run, r, between, cap);
    OneMore(before, Reserve(next), cap);
    DistinctAfter(before, cap);
    NotVictim(After(before, cap), BooksAfter(before, cap), cap, next, r.id);
  }

  lemma NotVictim(t: Table, b: Books, cap: nat, r: Reservation, id: string)
    requires Distinct(t.seen) && |t.seen| <= cap && Has(t.seen, id) && !Get(t.seen, id).accepted
    ensures Has(Apply(t, cap, Reserve(r)).seen, id)
  {
    ReserveEnds(t, b, cap, r, id);
  }

  ghost function PendingAt(t: Table, source: Source): Option<string> {
    if Has(t.pending, source) then Some(Get(t.pending, source)) else None
  }

  /** What is pending under a source after a step: a granted audio reservation of the source makes its
      id pending, releasing it ends that, and so may the loss of a connection; nothing else does. */
  lemma PendingIs(t: Table, b: Books, cap: nat, step: Step, source: Source)
    requires Reachable(t, b, cap)
    ensures var before, now := PendingAt(t, source), PendingAt(Apply(t, cap, step), source);
            match step
            case Reserve(r) =>
              now == if ReserveOutcome(t, cap, r).Granted? && r.key == Key(Audio, Some(source)) then Some(r.id) else before
            case Release(id, x) => now == if x == source && before == Some(id) then None else before
            case ClearConnection(_) => now == before || now == None
            case _ => now == before
  {
    ReachablePending(t, b, cap);
    match step
    case Reserve(r) => ReservePending(t, cap, r, source);
    case Release(id, x) =>
      if PendingAt(t, x) == Some(id) {
        Removed(t.pending, x);
      }
    case ClearConnection(connection) => ClearPending(t, connection, t.pending, source);
    case _ =>
  }

  lemma ReachablePending(t: Table, b: Books, cap: nat)
    requires Reachable(t, b, cap)
    ensures Distinct(t.pending)
  {
    ReachableInv(t, b, cap);
  }

  lemma ReservePending(t: Table, cap: nat, r: Reservation, source: Source)
    requires Distinct(t.pending)
    ensures PendingAt(AfterReserve(t, cap, r), source) ==
            if ReserveOutcome(t, cap, r).Granted? && r.key == Key(Audio, Some(source)) then Some(r.id) else PendingAt(t, source)
  {
    if IsAudio(r) {
      PutGet(t.pending, r.key.source.value, r.id, source);
    }
  }

  lemma {:induction false} ClearPending(t: Table, connection: string, entries: Dict<Source, string>, source: Source)
    requires Distinct(t.pending)
    ensures var now := PendingAt(AfterClear(t, connection, entries), source); now == PendingAt(t, source) || now == None
    decreases |entries|
  {
    if entries != [] {
      Removed(t.pending, entries[0].0);
      ClearPending(AfterClearOne(t, connection, entries[0]), connection, entries[1..], source);
    }
  }
}
