/** The committed runtime of one session and the fences that late model results must pass. */
module RuntimeState {
  import opened Options

  datatype Viewer = Viewer(id: string, sequence: nat, active: bool, ordinal: int,
                           presenceRevision: int, moderationRevision: int, behaviorRevision: int)

  /** `spec` is what the canonical runtime spec holds besides its room and active namespace;
      `provider` identifies the provider generation. */
  datatype Runtime = Runtime(sessionId: string, roomId: string, namespaceId: string, spec: string, epoch: int,
                             populationRevision: int, viewers: seq<Viewer>, nextOrdinal: int, accepting: bool,
                             provider: Option<int>)

  /** All the store knows about one session; an absent dictionary entry counts as an empty one. */
  datatype Session = Session(runtime: Option<Runtime>, claims: map<string, nat>, issued: map<string, set<int>>)

  const NO_SESSION := Session(None, map[], map[])

  /** Runtimes compare without their provider generation. */
  predicate SameRuntime(a: Runtime, b: Runtime) {
    a.(provider := None) == b.(provider := None)
  }

  /** The position of the first viewer with this id, or |viewers|. */
  function FindViewer(viewers: seq<Viewer>, id: string): (i: nat)
    ensures i <= |viewers|
    ensures i < |viewers| ==> viewers[i].id == id
    ensures forall j :: 0 <= j < i ==> viewers[j].id != id
  {
    if viewers == [] || viewers[0].id == id then 0 else 1 + FindViewer(viewers[1..], id)
  }

  predicate HasViewer(viewers: seq<Viewer>, id: string) {
    FindViewer(viewers, id) < |viewers|
  }

  function Claims(viewers: seq<Viewer>): map<string, nat> {
    if viewers == [] then map[]
    else Claims(viewers[..|viewers| - 1])[viewers[|viewers| - 1].id := viewers[|viewers| - 1].sequence]
  }

  /** `_replace_state_locked`: a viewer that stays carries its claim over; any other starts at 0. */
  function CarriedClaims(viewers: seq<Viewer>, current: seq<Viewer>, previous: map<string, nat>): map<string, nat> {
    if viewers == [] then map[]
    else
      var v := viewers[|viewers| - 1];
      var claim := if !HasViewer(current, v.id) then 0 else if v.id in previous then previous[v.id] else v.sequence;
      CarriedClaims(viewers[..|viewers| - 1], current, previous)[v.id := claim]
  }

  function EmptySets(viewers: seq<Viewer>): (r: map<string, set<int>>)
    ensures forall id :: id in r ==> r[id] == {}
  {
    if viewers == [] then map[] else EmptySets(viewers[..|viewers| - 1])[viewers[|viewers| - 1].id := {}]
  }

  function Renumbered(viewers: seq<Viewer>, claims: map<string, nat>): seq<Viewer> {
    seq(|viewers|, i requires 0 <= i < |viewers| =>
      if viewers[i].id in claims then viewers[i].(sequence := claims[viewers[i].id]) else viewers[i])
  }

  lemma {:induction false} CarriedClaim(viewers: seq<Viewer>, current: seq<Viewer>, previous: map<string, nat>, id: string)
    ensures id in CarriedClaims(viewers, current, previous) <==> HasViewer(viewers, id)
    ensures HasViewer(viewers, id) && HasViewer(current, id) && id in previous ==>
              CarriedClaims(viewers, current, previous)[id] == previous[id]
    ensures HasViewer(viewers, id) && !HasViewer(current, id) ==> CarriedClaims(viewers, current, previous)[id] == 0
    ensures HasViewer(viewers, id) && HasViewer(current, id) && id !in previous ==>
              exists v :: v in viewers && v.id == id && v.sequence == CarriedClaims(viewers, current, previous)[id]
  {
    if viewers != [] {
      var n := |viewers| - 1;
      CarriedClaim(viewers[..n], current, previous, id);
      FindViewerFront(viewers, id);
      assert viewers[n] in viewers;
    }
  }

  lemma FindViewerFront(viewers: seq<Viewer>, id: string)
    requires viewers != []
    ensures HasViewer(viewers, id) <==> HasViewer(viewers[..|viewers| - 1], id) || viewers[|viewers| - 1].id == id
  {
    var n := |viewers| - 1;
    var i, j := FindViewer(viewers, id), FindViewer(viewers[..n], id);
    if j < n {
      assert viewers[j].id == id;
    }
    if i < n {
      assert viewers[..n][i].id == id;
    }
  }

  // ---------------------------------------------------------------------------------------
  // The operations, for one session
  // ---------------------------------------------------------------------------------------

  /** `persisted` is false when the durable commit that comes first fails; `next` is what the
      update callback returns. */
  datatype Command =
    | Activate(runtime: Runtime, persisted: bool)
    | Replace(runtime: Runtime, persisted: bool)
    | Stop
    | Claim(roomId: string, epoch: int, viewerId: string, sequence: int)
    | Update(viewerId: string, next: Viewer, incrementPopulation: bool, persisted: bool)
    | Add(viewer: Viewer, persisted: bool)

  predicate MayActivate(s: Session, runtime: Runtime) {
    s.runtime.None? || SameRuntime(s.runtime.value, runtime)
  }

  predicate MayReplace(s: Session, runtime: Runtime) {
    s.runtime.Some? && runtime.epoch > s.runtime.value.epoch && runtime.populationRevision > s.runtime.value.populationRevision
  }

  /** The claim a viewer's next number must follow. */
  function CurrentClaim(s: Session, viewerId: string): nat
    requires s.runtime.Some? && HasViewer(s.runtime.value.viewers, viewerId)
  {
    if viewerId in s.claims then s.claims[viewerId]
    else s.runtime.value.viewers[FindViewer(s.runtime.value.viewers, viewerId)].sequence
  }

  predicate ViewerActive(s: Session, viewerId: string) {
    && s.runtime.Some?
    && HasViewer(s.runtime.value.viewers, viewerId)
    && s.runtime.value.viewers[FindViewer(s.runtime.value.viewers, viewerId)].active
  }

  predicate MayClaim(s: Session, roomId: string, epoch: int, viewerId: string, sequence: int) {
    && sequence >= 1
    && s.runtime.Some? && s.runtime.value.accepting && s.runtime.value.roomId == roomId && s.runtime.value.epoch == epoch
    && ViewerActive(s, viewerId)
    && sequence == CurrentClaim(s, viewerId) + 1
  }

  predicate MayUpdate(s: Session, viewerId: string, next: Viewer) {
    s.runtime.Some? && HasViewer(s.runtime.value.viewers, viewerId) && next.id == viewerId
  }

  predicate MayAdd(s: Session, viewer: Viewer) {
    s.runtime.Some? && !HasViewer(s.runtime.value.viewers, viewer.id)
  }

  /** The command takes effect. */
  predicate Succeeds(s: Session, c: Command) {
    match c
    case Activate(runtime, persisted) => MayActivate(s, runtime) && persisted
    case Replace(runtime, persisted) => MayReplace(s, runtime) && persisted
    case Stop => true
    case Claim(roomId, epoch, viewerId, sequence) => MayClaim(s, roomId, epoch, viewerId, sequence)
    case Update(viewerId, next, _, persisted) => MayUpdate(s, viewerId, next) && persisted
    case Add(viewer, persisted) => MayAdd(s, viewer) && persisted
  }

  function IssuedTo(s: Session, viewerId: string): set<int> {
    if viewerId in s.issued then s.issued[viewerId] else {}
  }

  function AfterActivate(s: Session, runtime: Runtime): Session {
    if s.runtime.None? then Session(Some(runtime), Claims(runtime.viewers), EmptySets(runtime.viewers))
    else s.(runtime := Some(runtime))
  }

  function AfterReplace(s: Session, runtime: Runtime): Session
    requires s.runtime.Some?
  {
    var claims := CarriedClaims(runtime.viewers, s.runtime.value.viewers, s.claims);
    Session(Some(runtime.(viewers := Renumbered(runtime.viewers, claims))), claims, EmptySets(runtime.viewers))
  }

  function AfterStop(s: Session): Session {
    Session(if s.runtime.Some? then Some(s.runtime.value.(accepting := false)) else None, map[], map[])
  }

  function AfterClaim(s: Session, viewerId: string, sequence: nat): Session {
    s.(claims := s.claims[viewerId := sequence], issued := s.issued[viewerId := IssuedTo(s, viewerId) + {sequence}])
  }

  function AfterUpdate(s: Session, viewerId: string, next: Viewer, incrementPopulation: bool): Session
    requires s.runtime.Some? && HasViewer(s.runtime.value.viewers, viewerId)
  {
    var r := s.runtime.value;
    var updated := r.(viewers := r.viewers[FindViewer(r.viewers, viewerId) := next],
                      populationRevision := if incrementPopulation then r.populationRevision + 1 else r.populationRevision);
    if next.active then s.(runtime := Some(updated))
    else Session(Some(updated), s.claims - {viewerId}, s.issued - {viewerId})
  }

  function AfterAdd(s: Session, viewer: Viewer): Session
    requires s.runtime.Some?
  {
    var r := s.runtime.value;
    s.(runtime := Some(r.(viewers := r.viewers + [viewer],
                          nextOrdinal := if r.nextOrdinal >= viewer.ordinal + 1 then r.nextOrdinal else viewer.ordinal + 1,
                          populationRevision := r.populationRevision + 1)))
  }

  /** A command that does not succeed changes nothing. */
  function Apply(s: Session, c: Command): Session {
    if !Succeeds(s, c) then s
    else
      match c
      case Activate(runtime, _) => AfterActivate(s, runtime)
      case Replace(runtime, _) => AfterReplace(s, runtime)
      case Stop => AfterStop(s)
      case Claim(_, _, viewerId, sequence) => AfterClaim(s, viewerId, sequence)
      case Update(viewerId, next, incrementPopulation, _) => AfterUpdate(s, viewerId, next, incrementPopulation)
      case Add(viewer, _) => AfterAdd(s, viewer)
  }

  /** What a late result says about itself; absent parts are not checked. */
  datatype Result = Result(epoch: int, roomId: Option<string>, namespaceId: Option<string>, viewerId: Option<string>,
                           sequence: Option<int>, presenceRevision: Option<int>, moderationRevision: Option<int>,
                           behaviorRevision: Option<int>)

  predicate Agrees<T(==)>(expected: Option<T>, actual: T) {
    expected.None? || expected.value == actual
  }

  /** What a result must match besides its number having been issued. */
  predicate Current(s: Session, result: Result) {
    && s.runtime.Some? && s.runtime.value.accepting
    && Agrees(result.roomId, s.runtime.value.roomId)
    && Agrees(result.namespaceId, s.runtime.value.namespaceId)
    && s.runtime.value.epoch == result.epoch
    && (result.viewerId.Some? ==>
         && ViewerActive(s, result.viewerId.value)
         && var viewer := s.runtime.value.viewers[FindViewer(s.runtime.value.viewers, result.viewerId.value)];
            && Agrees(result.presenceRevision, viewer.presenceRevision)
            && Agrees(result.moderationRevision, viewer.moderationRevision)
            && Agrees(result.behaviorRevision, viewer.behaviorRevision))
  }

  predicate Accepts(s: Session, result: Result) {
    && Current(s, result)
    && (result.viewerId.Some? ==> result.sequence.Some? && result.sequence.value in IssuedTo(s, result.viewerId.value))
  }

  // ---------------------------------------------------------------------------------------
  // Runs and their history
  // ---------------------------------------------------------------------------------------

  datatype Entry =
    | Issued(viewerId: string, epoch: int, sequence: int)
    | Activated
    | Replaced(kept: set<string>)
    | Stopped
    | Deactivated(viewerId: string)

  /** What a command that succeeds adds to the history. */
  ghost function Recorded(s: Session, c: Command): seq<Entry> {
    if !Succeeds(s, c) then []
    else
      match c
      case Activate(_, _) => if s.runtime.None? then [Activated] else []
      case Replace(runtime, _) => [Replaced(set v | v in runtime.viewers && HasViewer(s.runtime.value.viewers, v.id) :: v.id)]
      case Stop => [Stopped]
      case Claim(_, epoch, viewerId, sequence) => [Issued(viewerId, epoch, sequence)]
      case Update(viewerId, next, _, _) => if next.active then [] else [Deactivated(viewerId)]
      case Add(_, _) => []
  }

  ghost function After(run: seq<Command>): Session {
    if run == [] then NO_SESSION else Apply(After(run[..|run| - 1]), run[|run| - 1])
  }

  ghost function History(run: seq<Command>): seq<Entry> {
    if run == [] then []
    else History(run[..|run| - 1]) + Recorded(After(run[..|run| - 1]), run[|run| - 1])
  }

  /** After this entry, results issued to the viewer before it count no more. */
  ghost predicate Resets(e: Entry, viewerId: string) {
    e.Activated? || e.Replaced? || e.Stopped? || e == Deactivated(viewerId)
  }

  /** After this entry, the viewer's numbering starts anew. */
  ghost predicate Breaks(e: Entry, viewerId: string) {
    e.Activated? || (e.Replaced? && viewerId !in e.kept) || e.Stopped? || e == Deactivated(viewerId)
  }

  ghost predicate IssuedAt(log: seq<Entry>, i: nat, viewerId: string) {
    i < |log| && log[i].Issued? && log[i].viewerId == viewerId
  }

  /** No entry of log from position `from` on resets the viewer's results. */
  ghost predicate Live(log: seq<Entry>, from: nat, viewerId: string) {
    forall j :: from <= j < |log| ==> !Resets(log[j], viewerId)
  }

  ghost predicate Unbroken(log: seq<Entry>, from: nat, viewerId: string) {
    forall j :: from <= j < |log| ==> !Breaks(log[j], viewerId)
  }

  ghost predicate NoneIssued(log: seq<Entry>, from: nat, viewerId: string) {
    forall j :: from <= j < |log| ==> !IssuedAt(log, j, viewerId)
  }

  /** The viewer became inactive at or after position `from`. */
  ghost predicate WasDeactivated(log: seq<Entry>, from: nat, viewerId: string) {
    exists j :: from <= j < |log| && log[j] == Deactivated(viewerId)
  }

  // ---------------------------------------------------------------------------------------
  // What the history says about the session
  // ---------------------------------------------------------------------------------------

  /** The numbers that would be accepted are those issued since the last reset ... */
  ghost predicate IssuedInv(s: Session, log: seq<Entry>) {
    && (forall v: string, n: int :: n in IssuedTo(s, v) ==> exists i: nat :: IssuedAt(log, i, v) && log[i].sequence == n && Live(log, i, v))
    && (forall v: string, i: nat :: IssuedAt(log, i, v) && Live(log, i, v) ==> log[i].sequence in IssuedTo(s, v))
  }

  /** ... all in the present epoch, while no number was issued in a later one. */
  ghost predicate EpochInv(s: Session, log: seq<Entry>) {
    forall v: string, i: nat :: IssuedAt(log, i, v) ==>
      && s.runtime.Some? && log[i].epoch <= s.runtime.value.epoch
      && (Live(log, i, v) ==> log[i].epoch == s.runtime.value.epoch)
      && (s.runtime.value.accepting && log[i].epoch == s.runtime.value.epoch ==> Live(log, i, v) || WasDeactivated(log, i, v))
  }

  /** The claim is the last number issued since the numbering started. */
  ghost predicate ClaimInv(s: Session, log: seq<Entry>) {
    forall v: string, i: nat :: IssuedAt(log, i, v) && Unbroken(log, i, v) ==>
      && v in s.claims && log[i].sequence <= s.claims[v]
      && (NoneIssued(log, i + 1, v) ==> log[i].sequence == s.claims[v])
  }

  ghost predicate Inv(s: Session, log: seq<Entry>) {
    IssuedInv(s, log) && EpochInv(s, log) && ClaimInv(s, log)
  }

  lemma Extended(log: seq<Entry>, e: Entry, i: nat, v: string)
    ensures IssuedAt(log + [e], i, v) <==> IssuedAt(log, i, v) || (i == |log| && e.Issued? && e.viewerId == v)
    ensures i <= |log| ==> (Live(log + [e], i, v) <==> Live(log, i, v) && !Resets(e, v))
    ensures i <= |log| ==> (Unbroken(log + [e], i, v) <==> Unbroken(log, i, v) && !Breaks(e, v))
    ensures i <= |log| ==> (WasDeactivated(log + [e], i, v) <==> WasDeactivated(log, i, v) || e == Deactivated(v))
    ensures i <= |log| ==> (NoneIssued(log + [e], i, v) <==> NoneIssued(log, i, v) && !(e.Issued? && e.viewerId == v))
  {
    var longer := log + [e];
    assert longer[|log|] == e;
    assert forall j :: 0 <= j < |log| ==> longer[j] == log[j];
    assert i <= |log| ==> (IssuedAt(longer, |log|, v) <==> e.Issued? && e.viewerId == v);
    assert forall j: nat :: j < |log| ==> (IssuedAt(longer, j, v) <==> IssuedAt(log, j, v));
  }

  lemma QuietKeeps(s: Session, s': Session, log: seq<Entry>)
    requires Inv(s, log) && s'.claims == s.claims && s'.issued == s.issued
    requires s.runtime.Some? ==>
      s'.runtime.Some? && s'.runtime.value.epoch == s.runtime.value.epoch && s'.runtime.value.accepting == s.runtime.value.accepting
    ensures Inv(s', log)
  {
    forall v: string
      ensures IssuedTo(s', v) == IssuedTo(s, v)
    {
    }
  }

  lemma ResetIssued(s: Session, log: seq<Entry>, e: Entry)
    requires e.Activated? || e.Replaced? || e.Stopped?
    requires forall v: string :: IssuedTo(s, v) == {}
    ensures IssuedInv(s, log + [e])
  {
    forall v: string, i: nat | IssuedAt(log + [e], i, v)
      ensures !Live(log + [e], i, v)
    {
      Extended(log, e, i, v);
    }
  }

  /** Activation, replacement and stopping move all results out of reach. */
  lemma ResetEpochs(s: Session, s': Session, log: seq<Entry>, e: Entry)
    requires EpochInv(s, log) && (e.Activated? || e.Replaced? || e.Stopped?)
    requires s.runtime.Some? ==> s'.runtime.Some?
    requires s.runtime.Some? && e.Replaced? ==> s'.runtime.value.epoch > s.runtime.value.epoch
    requires s.runtime.Some? && !e.Replaced? ==> s'.runtime.value.epoch == s.runtime.value.epoch && !s'.runtime.value.accepting
    ensures EpochInv(s', log + [e])
  {
    forall v: string, i: nat | IssuedAt(log + [e], i, v)
      ensures IssuedAt(log, i, v) && (log + [e])[i] == log[i] && !Live(log + [e], i, v)
    {
      Extended(log, e, i, v);
    }
  }

  lemma ResetClaims(s: Session, s': Session, log: seq<Entry>, e: Entry)
    requires ClaimInv(s, log) && (e.Activated? || e.Replaced? || e.Stopped?)
    requires e.Replaced? ==> forall v :: v in e.kept && v in s.claims ==> v in s'.claims && s'.claims[v] == s.claims[v]
    ensures ClaimInv(s', log + [e])
  {
    forall v: string, i: nat | IssuedAt(log + [e], i, v) && Unbroken(log + [e], i, v)
      ensures v in s'.claims && (log + [e])[i].sequence <= s'.claims[v]
      ensures NoneIssued(log + [e], i + 1, v) ==> (log + [e])[i].sequence == s'.claims[v]
    {
      Extended(log, e, i, v);
      Extended(log, e, i + 1, v);
    }
  }

  lemma DeactivateIssued(s: Session, s': Session, log: seq<Entry>, id: string)
    requires IssuedInv(s, log) && s'.issued == s.issued - {id}
    ensures IssuedInv(s', log + [Deactivated(id)])
  {
    var e := Deactivated(id);
    forall v: string, i: nat
      ensures IssuedAt(log + [e], i, v) <==> IssuedAt(log, i, v)
      ensures i < |log| ==> (Live(log + [e], i, v) <==> Live(log, i, v) && v != id) && (log + [e])[i] == log[i]
    {
      Extended(log, e, i, v);
    }
    forall v: string, n: int | n in IssuedTo(s', v)
      ensures exists i: nat :: IssuedAt(log + [e], i, v) && (log + [e])[i].sequence == n && Live(log + [e], i, v)
    {
      assert n in IssuedTo(s, v);
      var i: nat :| IssuedAt(log, i, v) && log[i].sequence == n && Live(log, i, v);
      assert IssuedAt(log + [e], i, v);
    }
  }

  lemma DeactivateEpochs(s: Session, s': Session, log: seq<Entry>, id: string)
    requires EpochInv(s, log) && s.runtime.Some? && s'.runtime.Some?
    requires s'.runtime.value.epoch == s.runtime.value.epoch && s'.runtime.value.accepting == s.runtime.value.accepting
    ensures EpochInv(s', log + [Deactivated(id)])
  {
    var e := Deactivated(id);
    forall v: string, i: nat | IssuedAt(log + [e], i, v)
      ensures IssuedAt(log, i, v) && (log + [e])[i] == log[i]
      ensures Live(log + [e], i, v) <==> Live(log, i, v) && v != id
      ensures WasDeactivated(log + [e], i, v) <==> WasDeactivated(log, i, v) || v == id
    {
      Extended(log, e, i, v);
    }
  }

  lemma DeactivateClaims(s: Session, s': Session, log: seq<Entry>, id: string)
    requires ClaimInv(s, log) && s'.claims == s.claims - {id}
    ensures ClaimInv(s', log + [Deactivated(id)])
  {
    var e := Deactivated(id);
    forall v: string, i: nat | IssuedAt(log + [e], i, v) && Unbroken(log + [e], i, v)
      ensures v in s'.claims && (log + [e])[i].sequence <= s'.claims[v]
      ensures NoneIssued(log + [e], i + 1, v) ==> (log + [e])[i].sequence == s'.claims[v]
    {
      Extended(log, e, i, v);
      Extended(log, e, i + 1, v);
    }
  }

  lemma IssueIssued(s: Session, log: seq<Entry>, id: string, epoch: int, n: nat)
    requires IssuedInv(s, log)
    ensures IssuedInv(AfterClaim(s, id, n), log + [Issued(id, epoch, n)])
  {
    var e, s' := Issued(id, epoch, n), AfterClaim(s, id, n);
    forall v: string, i: nat
      ensures IssuedAt(log + [e], i, v) <==> IssuedAt(log, i, v) || (i == |log| && v == id)
      ensures i <= |log| ==> (Live(log + [e], i, v) <==> Live(log, i, v))
      ensures i < |log| ==> (log + [e])[i] == log[i]
    {
      Extended(log, e, i, v);
    }
    forall v: string, m: int | m in IssuedTo(s', v)
      ensures exists i: nat :: IssuedAt(log + [e], i, v) && (log + [e])[i].sequence == m && Live(log + [e], i, v)
    {
      if m in IssuedTo(s, v) {
        var i: nat :| IssuedAt(log, i, v) && log[i].sequence == m && Live(log, i, v);
        assert IssuedAt(log + [e], i, v);
      } else {
        assert IssuedAt(log + [e], |log|, v);
      }
    }
  }

  lemma IssueEpochs(s: Session, log: seq<Entry>, id: string, epoch: int, n: nat)
    requires EpochInv(s, log) && s.runtime.Some? && s.runtime.value.epoch == epoch
    ensures EpochInv(AfterClaim(s, id, n), log + [Issued(id, epoch, n)])
  {
    var e := Issued(id, epoch, n);
    forall v: string, i: nat | IssuedAt(log + [e], i, v)
      ensures i < |log| ==> IssuedAt(log, i, v) && (log + [e])[i] == log[i]
      ensures Live(log + [e], i, v) <==> Live(log, i, v)
      ensures WasDeactivated(log + [e], i, v) <==> WasDeactivated(log, i, v)
    {
      Extended(log, e, i, v);
    }
  }

  lemma IssueClaims(s: Session, log: seq<Entry>, id: string, epoch: int, n: nat)
    requires ClaimInv(s, log) && (id in s.claims ==> n == s.claims[id] + 1)
    ensures ClaimInv(AfterClaim(s, id, n), log + [Issued(id, epoch, n)])
  {
    var e, s' := Issued(id, epoch, n), AfterClaim(s, id, n);
    forall v: string, i: nat | IssuedAt(log + [e], i, v) && Unbroken(log + [e], i, v)
      ensures v in s'.claims && (log + [e])[i].sequence <= s'.claims[v]
      ensures NoneIssued(log + [e], i + 1, v) ==> (log + [e])[i].sequence == s'.claims[v]
    {
      Extended(log, e, i, v);
      Extended(log, e, i + 1, v);
    }
  }

  lemma ReplaceKeeps(s: Session, runtime: Runtime, log: seq<Entry>)
    requires Inv(s, log) && MayReplace(s, runtime)
    ensures Inv(AfterReplace(s, runtime), log + Recorded(s, Replace(runtime, true)))
  {
    var e := Recorded(s, Replace(runtime, true))[0];
    var s' := AfterReplace(s, runtime);
    ResetIssued(s', log, e);
    ResetEpochs(s, s', log, e);
    forall v | v in e.kept && v in s.claims
      ensures v in s'.claims && s'.claims[v] == s.claims[v]
    {
      KeptIsPresent(runtime.viewers, v);
      CarriedClaim(runtime.viewers, s.runtime.value.viewers, s.claims, v);
    }
    ResetClaims(s, s', log, e);
  }

  /** Replacement carries a kept viewer's claim forward, takes the replacement record's sequence for a
      kept viewer without a claim, and starts every new viewer at 0; the pool and the claims agree
      afterwards, and nothing issued before is accepted. */
  lemma ReplacementCarries(s: Session, runtime: Runtime, i: nat)
    requires MayReplace(s, runtime) && i < |runtime.viewers|
    ensures var s', v := AfterReplace(s, runtime), runtime.viewers[i].id;
            && v in s'.claims && s'.runtime.value.viewers[i] == runtime.viewers[i].(sequence := s'.claims[v])
            && (HasViewer(s.runtime.value.viewers, v) && v in s.claims ==> s'.claims[v] == s.claims[v])
            && (!HasViewer(s.runtime.value.viewers, v) ==> s'.claims[v] == 0)
            && (HasViewer(s.runtime.value.viewers, v) && v !in s.claims ==>
                  exists w :: w in runtime.viewers && w.id == v && w.sequence == s'.claims[v])
            && IssuedTo(s', v) == {}
  {
    var s', v := AfterReplace(s, runtime), runtime.viewers[i].id;
    KeptIsPresent(runtime.viewers, v);
    CarriedClaim(runtime.viewers, s.runtime.value.viewers, s.claims, v);
  }

  lemma KeptIsPresent(viewers: seq<Viewer>, id: string)
    ensures HasViewer(viewers, id) <==> exists v :: v in viewers && v.id == id
  {
    if i :| 0 <= i < |viewers| && viewers[i].id == id {
      assert FindViewer(viewers, id) <= i;
    }
    if HasViewer(viewers, id) {
      assert viewers[FindViewer(viewers, id)] in viewers;
    }
  }

  lemma StepKeepsInv(s: Session, c: Command, log: seq<Entry>)
    requires Inv(s, log)
    ensures Inv(Apply(s, c), log + Recorded(s, c))
  {
    var s' := Apply(s, c);
    assert log + [] == log;
    if Succeeds(s, c) {
      match c
      case Activate(runtime, _) =>
        if s.runtime.None? {
          ResetIssued(s', log, Activated);
          ResetEpochs(s, s', log, Activated);
          ResetClaims(s, s', log, Activated);
        } else {
          QuietKeeps(s, s', log);
        }
      case Replace(runtime, _) => ReplaceKeeps(s, runtime, log);
      case Stop =>
        ResetIssued(s', log, Stopped);
        ResetEpochs(s, s', log, Stopped);
        ResetClaims(s, s', log, Stopped);
      case Claim(_, epoch, id, n) =>
        IssueIssued(s, log, id, epoch, n);
        IssueEpochs(s, log, id, epoch, n);
        IssueClaims(s, log, id, epoch, n);
      case Update(id, next, _, _) =>
        if next.active {
          QuietKeeps(s, s', log);
        } else {
          DeactivateIssued(s, s', log, id);
          DeactivateEpochs(s, s', log, id);
          DeactivateClaims(s, s', log, id);
        }
      case Add(_, _) => QuietKeeps(s, s', log);
    }
  }

  lemma {:induction false} RunsKeepInv(run: seq<Command>)
    ensures Inv(After(run), History(run))
  {
    if run != [] {
      RunsKeepInv(run[..|run| - 1]);
      StepKeepsInv(After(run[..|run| - 1]), run[|run| - 1], History(run[..|run| - 1]));
    }
  }

  // ---------------------------------------------------------------------------------------
  // The fences
  // ---------------------------------------------------------------------------------------

  /** The number was issued to the viewer, in this epoch, after the last activation, replacement or
      stop and after the viewer last became inactive. */
  ghost predicate IssuedSinceReset(log: seq<Entry>, viewerId: string, epoch: int, sequence: int) {
    exists i: nat :: IssuedAt(log, i, viewerId) && log[i] == Issued(viewerId, epoch, sequence) && Live(log, i, viewerId)
  }

  lemma IssuedIff(s: Session, log: seq<Entry>, v: string, n: int)
    requires Inv(s, log) && s.runtime.Some?
    ensures n in IssuedTo(s, v) <==> IssuedSinceReset(log, v, s.runtime.value.epoch, n)
  {
    if n in IssuedTo(s, v) {
      var i: nat :| IssuedAt(log, i, v) && log[i].sequence == n && Live(log, i, v);
      assert log[i] == Issued(v, s.runtime.value.epoch, n);
    }
  }

  /** A viewer's result is accepted if and only if it matches the present runtime and its number
      was issued to that viewer in that same epoch and since the last reset. */
  lemma FenceSound(run: seq<Command>, result: Result)
    requires result.viewerId.Some?
    ensures Accepts(After(run), result) <==>
            && Current(After(run), result) && result.sequence.Some?
            && IssuedSinceReset(History(run), result.viewerId.value, result.epoch, result.sequence.value)
  {
    RunsKeepInv(run);
    if Current(After(run), result) && result.sequence.Some? {
      IssuedIff(After(run), History(run), result.viewerId.value, result.sequence.value);
    }
  }

  /** A granted claim is the successor of the last number issued to the viewer since its numbering
      started; a replacement that keeps the viewer does not start it anew. */
  lemma IssuedConsecutively(run: seq<Command>, claim: Command, i: nat)
    requires claim.Claim? && Succeeds(After(run), claim)
    requires IssuedAt(History(run), i, claim.viewerId) && Unbroken(History(run), i, claim.viewerId)
    ensures claim.sequence > History(run)[i].sequence
    ensures NoneIssued(History(run), i + 1, claim.viewerId) ==> claim.sequence == History(run)[i].sequence + 1
  {
    RunsKeepInv(run);
  }

  /** A number is issued twice in one epoch only if the viewer became inactive in between. */
  lemma ReissuedOnlyAfterDeactivation(run: seq<Command>, claim: Command, i: nat)
    requires claim.Claim? && Succeeds(After(run), claim)
    requires IssuedAt(History(run), i, claim.viewerId)
    requires History(run)[i].epoch == claim.epoch && History(run)[i].sequence >= claim.sequence
    ensures WasDeactivated(History(run), i, claim.viewerId)
  {
    RunsKeepInv(run);
    var log, v := History(run), claim.viewerId;
    if !WasDeactivated(log, i, v) {
      assert Live(log, i, v);
      LiveIsUnbroken(log, i, v);
      IssuedConsecutively(run, claim, i);
    }
  }

  lemma LiveIsUnbroken(log: seq<Entry>, i: nat, v: string)
    requires Live(log, i, v)
    ensures Unbroken(log, i, v)
  {
  }

  /** The epoch never goes back, so a result of an earlier epoch is refused for good; and a stopped
      runtime accepts nothing until it is replaced. */
  lemma {:induction false} PastEpochsRefused(run: seq<Command>, more: seq<Command>)
    requires After(run).runtime.Some?
    ensures var before, now := After(run).runtime.value, After(run + more).runtime;
            && now.Some? && now.value.epoch >= before.epoch
            && (now.value.epoch == before.epoch && !before.accepting ==> !now.value.accepting)
  {
    if more == [] {
      assert run + more == run;
    } else {
      assert (run + more)[..|run + more| - 1] == run + more[..|more| - 1];
      PastEpochsRefused(run, more[..|more| - 1]);
    }
  }

  lemma StoppedRefusesAll(run: seq<Command>, more: seq<Command>, result: Result)
    requires After(run).runtime.Some? && result.epoch <= After(run).runtime.value.epoch
    ensures !Accepts(After(run + [Stop] + more), result)
  {
    assert (run + [Stop])[..|run|] == run;
    PastEpochsRefused(run + [Stop], more);
  }

  const ALICE := Viewer("alice", 0, true, 1, 1, 1, 1)
  const STAGE := Runtime("session", "room", "namespace", "spec", 1, 1, [ALICE], 2, true, None)

  /** Deactivating and reactivating a viewer does let a number be issued again in one epoch, and a
      result that carries the number from before passes the fence again. */
  lemma ReactivationReissues()
    ensures var claim := Claim("room", 1, "alice", 1);
            var run := [Activate(STAGE, true), claim, Update("alice", ALICE.(active := false), true, true), Update("alice", ALICE, true, true)];
            var result := Result(1, Some("room"), None, Some("alice"), Some(1), None, None, None);
            && Accepts(After(run[..2]), result) && !Accepts(After(run), result)
            && Succeeds(After(run), claim) && Accepts(After(run + [claim]), result)
  {
    var claim, gone, back := Claim("room", 1, "alice", 1), Update("alice", ALICE.(active := false), true, true), Update("alice", ALICE, true, true);
    var r1 := [Activate(STAGE, true)];
    var r2, r3 := r1 + [claim], r1 + [claim] + [gone];
    var r4 := r3 + [back];
    var s1 := Apply(NO_SESSION, r1[0]);
    assert r1[..0] == [] && After(r1) == s1;
    assert [ALICE][..0] == [] && FindViewer([ALICE], "alice") == 0;
    assert Claims([]) == map[] && EmptySets([]) == map[];
    assert s1.claims == map[]["alice" := 0];
    assert s1.issued == map[]["alice" := {}];
    var s2 := Apply(s1, claim);
    assert r2[..1] == r1 && After(r2) == s2;
    assert IssuedTo(s2, "alice") == {1};
    var s3 := Apply(s2, gone);
    assert r3[..2] == r2 && After(r3) == s3;
    assert "alice" !in s3.claims && IssuedTo(s3, "alice") == {};
    assert s3.runtime.value.viewers == [ALICE.(active := false)];
    assert FindViewer([ALICE.(active := false)], "alice") == 0;
    var s4 := Apply(s3, back);
    assert s4.runtime.value.viewers == [ALICE];
    assert r4[..3] == r3 && After(r4) == s4;
    var s5 := Apply(s4, claim);
    assert (r4 + [claim])[..4] == r4 && After(r4 + [claim]) == s5;
    assert r4 == [Activate(STAGE, true), claim, gone, back] && r4[..2] == r2;
  }
}
