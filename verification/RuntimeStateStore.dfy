/** The store of committed runtimes: three dictionaries keyed by session, updated in place. */
module RuntimeStateStore {
  import opened Options
  import opened RuntimeState

  datatype Error = UnknownSession | UnknownViewer | AlreadyActive | EpochMustAdvance | RevisionMustAdvance
                 | IdChanged | ViewerExists | PersistFailed

  datatype Outcome = Done | Raised(error: Error)

  class RuntimeStateStore {
    var states: map<string, Runtime>
    var claimedSequences: map<string, map<string, nat>>
    var issuedSequences: map<string, map<string, set<int>>>

    constructor ()
      ensures forall id :: SessionOf(id) == NO_SESSION
    {
      states, claimedSequences, issuedSequences := map[], map[], map[];
    }

    ghost function SessionOf(id: string): Session
      reads this
    {
      Session(if id in states then Some(states[id]) else None,
              if id in claimedSequences then claimedSequences[id] else map[],
              if id in issuedSequences then issuedSequences[id] else map[])
    }

    /** `activate` and `activate_after`; without a durable commit, persisted is true. */
    method Activate(runtime: Runtime, persisted: bool) returns (outcome: Outcome)
      modifies this
      ensures SessionOf(runtime.sessionId) == Apply(old(SessionOf(runtime.sessionId)), Command.Activate(runtime, persisted))
      ensures forall other :: other != runtime.sessionId ==> SessionOf(other) == old(SessionOf(other))
      ensures outcome == if !MayActivate(old(SessionOf(runtime.sessionId)), runtime) then Raised(AlreadyActive)
                         else if persisted then Done else Raised(PersistFailed)
    {
      var existing := if runtime.sessionId in states then Some(states[runtime.sessionId]) else None;
      if existing.Some? && !SameRuntime(existing.value, runtime) {
        return Raised(AlreadyActive);
      }
      if !persisted {
        return Raised(PersistFailed);
      }
      states := states[runtime.sessionId := runtime];
      if existing.None? {
        claimedSequences := claimedSequences[runtime.sessionId := Claims(runtime.viewers)];
        issuedSequences := issuedSequences[runtime.sessionId := EmptySets(runtime.viewers)];
      }
      return Done;
    }

    /** `replace` and `replace_after` */
    method Replace(runtime: Runtime, persisted: bool) returns (outcome: Outcome)
      modifies this
      ensures SessionOf(runtime.sessionId) == Apply(old(SessionOf(runtime.sessionId)), Command.Replace(runtime, persisted))
      ensures forall other :: other != runtime.sessionId ==> SessionOf(other) == old(SessionOf(other))
      ensures outcome ==
              var before := old(SessionOf(runtime.sessionId)).runtime;
              if before.None? then Raised(UnknownSession)
              else if runtime.epoch <= before.value.epoch then Raised(EpochMustAdvance)
              else if runtime.populationRevision <= before.value.populationRevision then Raised(RevisionMustAdvance)
              else if persisted then Done else Raised(PersistFailed)
    {
      if runtime.sessionId !in states {
        return Raised(UnknownSession);
      }
      var current := states[runtime.sessionId];
      if runtime.epoch <= current.epoch {
        return Raised(EpochMustAdvance);
      }
      if runtime.populationRevision <= current.populationRevision {
        return Raised(RevisionMustAdvance);
      }
      if !persisted {
        return Raised(PersistFailed);
      }
      var previousClaims := if runtime.sessionId in claimedSequences then claimedSequences[runtime.sessionId] else map[];
      var claims := CarriedClaims(runtime.viewers, current.viewers, previousClaims);
      states := states[runtime.sessionId := runtime.(viewers := Renumbered(runtime.viewers, claims))];
      claimedSequences := claimedSequences[runtime.sessionId := claims];
      issuedSequences := issuedSequences[runtime.sessionId := EmptySets(runtime.viewers)];
      return Done;
    }

    method Stop(id: string)
      modifies this
      ensures SessionOf(id) == Apply(old(SessionOf(id)), Command.Stop)
      ensures forall other :: other != id ==> SessionOf(other) == old(SessionOf(other))
    {
      if id in states {
        states := states[id := states[id].(accepting := false)];
      }
      claimedSequences := claimedSequences - {id};
      issuedSequences := issuedSequences - {id};
    }

    method AcceptsResult(id: string, result: Result) returns (accepted: bool)
      ensures accepted == Accepts(SessionOf(id), result)
    {
      if id !in states {
        return false;
      }
      var state := states[id];
      if !state.accepting || !Agrees(result.roomId, state.roomId) || !Agrees(result.namespaceId, state.namespaceId)
         || state.epoch != result.epoch {
        return false;
      }
      if result.viewerId.None? {
        return true;
      }
      var index := FindViewer(state.viewers, result.viewerId.value);
      if index == |state.viewers| || !state.viewers[index].active {
        return false;
      }
      var viewer := state.viewers[index];
      if !Agrees(result.presenceRevision, viewer.presenceRevision)
         || !Agrees(result.moderationRevision, viewer.moderationRevision)
         || !Agrees(result.behaviorRevision, viewer.behaviorRevision) {
        return false;
      }
      if result.sequence.None? {
        return false;
      }
      var perViewer := if id in issuedSequences then issuedSequences[id] else map[];
      var issued := if viewer.id in perViewer then perViewer[viewer.id] else {};
      return result.sequence.value in issued;
    }

    method ClaimViewerSequence(id: string, roomId: string, epoch: int, viewerId: string, sequence: int) returns (granted: bool)
      modifies this
      ensures granted == MayClaim(old(SessionOf(id)), roomId, epoch, viewerId, sequence)
      ensures SessionOf(id) == Apply(old(SessionOf(id)), Claim(roomId, epoch, viewerId, sequence))
      ensures forall other :: other != id ==> SessionOf(other) == old(SessionOf(other))
    {
      if sequence < 1 || id !in states {
        return false;
      }
      var state := states[id];
      if !state.accepting || state.roomId != roomId || state.epoch != epoch {
        return false;
      }
      var index := FindViewer(state.viewers, viewerId);
      if index == |state.viewers| || !state.viewers[index].active {
        return false;
      }
      if id !in claimedSequences {
        claimedSequences := claimedSequences[id := map[]];
      }
      var claims := claimedSequences[id];
      var current := if viewerId in claims then claims[viewerId] else state.viewers[index].sequence;
      if sequence != current + 1 {
        return false;
      }
      claimedSequences := claimedSequences[id := claims[viewerId := sequence]];
      var issued := if id in issuedSequences then issuedSequences[id] else map[];
      var earlier := if viewerId in issued then issued[viewerId] else {};
      issuedSequences := issuedSequences[id := issued[viewerId := earlier + {sequence}]];
      return true;
    }

    /** `update_viewer`; next is what the update callback makes of the viewer. */
    method UpdateViewer(id: string, viewerId: string, next: Viewer, incrementPopulation: bool, persisted: bool) returns (outcome: Outcome)
      modifies this
      ensures SessionOf(id) == Apply(old(SessionOf(id)), Update(viewerId, next, incrementPopulation, persisted))
      ensures forall other :: other != id ==> SessionOf(other) == old(SessionOf(other))
      ensures outcome ==
              var before := old(SessionOf(id)).runtime;
              if before.None? then Raised(UnknownSession)
              else if forall v :: v in before.value.viewers ==> v.id != viewerId then Raised(UnknownViewer)
              else if next.id != viewerId then Raised(IdChanged)
              else if persisted then Done else Raised(PersistFailed)
    {
      if id !in states {
        return Raised(UnknownSession);
      }
      var state := states[id];
      var index := FindViewer(state.viewers, viewerId);
      KeptIsPresent(state.viewers, viewerId);
      if index == |state.viewers| {
        return Raised(UnknownViewer);
      }
      if next.id != viewerId {
        return Raised(IdChanged);
      }
      if !persisted {
        return Raised(PersistFailed);
      }
      var revision := if incrementPopulation then state.populationRevision + 1 else state.populationRevision;
      states := states[id := state.(viewers := state.viewers[index := next], populationRevision := revision)];
      if !next.active {
        if id in claimedSequences {
          claimedSequences := claimedSequences[id := claimedSequences[id] - {viewerId}];
        }
        if id in issuedSequences {
          issuedSequences := issuedSequences[id := issuedSequences[id] - {viewerId}];
        }
      }
      return Done;
    }

    method AddViewer(id: string, viewer: Viewer, persisted: bool) returns (outcome: Outcome)
      modifies this
      ensures SessionOf(id) == Apply(old(SessionOf(id)), Add(viewer, persisted))
      ensures forall other :: other != id ==> SessionOf(other) == old(SessionOf(other))
      ensures outcome ==
              var before := old(SessionOf(id)).runtime;
              if before.None? then Raised(UnknownSession)
              else if exists v :: v in before.value.viewers && v.id == viewer.id then Raised(ViewerExists)
              else if persisted then Done else Raised(PersistFailed)
    {
      if id !in states {
        return Raised(UnknownSession);
      }
      var state := states[id];
      KeptIsPresent(state.viewers, viewer.id);
      if HasViewer(state.viewers, viewer.id) {
        return Raised(ViewerExists);
      }
      if !persisted {
        return Raised(PersistFailed);
      }
      var ordinal := if state.nextOrdinal >= viewer.ordinal + 1 then state.nextOrdinal else viewer.ordinal + 1;
      states := states[id := state.(viewers := state.viewers + [viewer], nextOrdinal := ordinal,
                                    populationRevision := state.populationRevision + 1)];
      return Done;
    }
  }
}
