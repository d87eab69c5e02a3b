/** The fences of the committed runtime, spelled out: which results pass and which claims are granted. */
module RuntimeFences {
  import opened Options
  import opened RuntimeState
  import opened RuntimeReissues

  /** The pool's entry for this id is viewer: the first one that carries the id. */
  ghost predicate InPool(viewers: seq<Viewer>, id: string, viewer: Viewer) {
    exists i :: 0 <= i < |viewers| && viewers[i] == viewer && viewer.id == id && forall j :: 0 <= j < i ==> viewers[j].id != id
  }

  lemma PoolEntry(viewers: seq<Viewer>, id: string)
    ensures HasViewer(viewers, id) ==> InPool(viewers, id, viewers[FindViewer(viewers, id)])
    ensures forall viewer :: InPool(viewers, id, viewer) ==> HasViewer(viewers, id) && viewer == viewers[FindViewer(viewers, id)]
  {
    forall viewer | InPool(viewers, id, viewer)
      ensures HasViewer(viewers, id) && viewer == viewers[FindViewer(viewers, id)]
    {
      var i :| 0 <= i < |viewers| && viewers[i] == viewer && viewer.id == id && forall j :: 0 <= j < i ==> viewers[j].id != id;
      assert FindViewer(viewers, id) == i;
    }
  }

  // ---------------------------------------------------------------------------------------
  // Results
  // ---------------------------------------------------------------------------------------

  /** The runtime is open for the result's epoch and is in the room and namespace it states. */
  ghost predicate AtHome(s: Session, result: Result) {
    && s.runtime.Some? && s.runtime.value.accepting && s.runtime.value.epoch == result.epoch
    && (result.roomId.Some? ==> result.roomId.value == s.runtime.value.roomId)
    && (result.namespaceId.Some? ==> result.namespaceId.value == s.runtime.value.namespaceId)
  }

  /** The viewer is at every revision the result states. */
  ghost predicate AtRevisions(viewer: Viewer, result: Result) {
    && (result.presenceRevision.Some? ==> result.presenceRevision.value == viewer.presenceRevision)
    && (result.moderationRevision.Some? ==> result.moderationRevision.value == viewer.moderationRevision)
    && (result.behaviorRevision.Some? ==> result.behaviorRevision.value == viewer.behaviorRevision)
  }

  /** Over every run, a viewer's result is accepted if and only if the runtime accepts results, in the
      result's epoch, room and namespace; the viewer is in the pool and active, at exactly the
      revisions the result states; and the result's number was issued to the viewer in that epoch
      since its last reset. A result of no viewer needs the first of these only. */
  lemma AcceptedIff(run: seq<Command>, result: Result)
    ensures result.viewerId.None? ==> (Accepts(After(run), result) <==> AtHome(After(run), result))
    ensures result.viewerId.Some? ==>
      (Accepts(After(run), result) <==>
         && AtHome(After(run), result)
         && (exists viewer: Viewer ::
               InPool(After(run).runtime.value.viewers, result.viewerId.value, viewer) && viewer.active && AtRevisions(viewer, result))
         && result.sequence.Some?
         && IssuedSinceReset(History(run), result.viewerId.value, result.epoch, result.sequence.value))
  {
    var s := After(run);
    if result.viewerId.Some? && s.runtime.Some? {
      PoolEntry(s.runtime.value.viewers, result.viewerId.value);
      FenceSound(run, result);
    }
  }

  /** The result states a revision other than the viewer's. */
  ghost predicate Contradicts(result: Result, viewer: Viewer) {
    || (result.presenceRevision.Some? && result.presenceRevision.value != viewer.presenceRevision)
    || (result.moderationRevision.Some? && result.moderationRevision.value != viewer.moderationRevision)
    || (result.behaviorRevision.Some? && result.behaviorRevision.value != viewer.behaviorRevision)
  }

  /** The command does not write a record with the result's revisions to the result's viewer. */
  ghost predicate KeepsContradicting(c: Command, result: Result) {
    c.Update? && result.viewerId == Some(c.viewerId) ==> Contradicts(result, c.next)
  }

  ghost predicate Outdated(s: Session, result: Result) {
    && s.runtime.Some? && result.viewerId.Some? && result.epoch <= s.runtime.value.epoch
    && (Open(s, result.epoch) ==> Known(s, result.viewerId.value) && Contradicts(result, Record(s, result.viewerId.value)))
  }

  lemma StepStaysOutdated(s: Session, c: Command, result: Result)
    requires Outdated(s, result) && KeepsContradicting(c, result)
    ensures Outdated(Apply(s, c), result)
  {
    if Open(Apply(s, c), result.epoch) {
      if c.Replace? && Succeeds(s, c) {
        assert false;
      }
      StaysKnown(s, c, result.viewerId.value);
    }
  }

  lemma {:induction false} StaysOutdated(run: seq<Command>, more: seq<Command>, result: Result)
    requires Outdated(After(run), result) && forall k :: 0 <= k < |more| ==> KeepsContradicting(more[k], result)
    ensures Outdated(After(run + more), result)
  {
    if more == [] {
      assert run + more == run;
    } else {
      var m := |more| - 1;
      assert (run + more)[..|run + more| - 1] == run + more[..m];
      StaysOutdated(run, more[..m], result);
      StepStaysOutdated(After(run + more[..m]), more[m], result);
    }
  }

  /** Once an update leaves the viewer at another presence, moderation or behaviour revision than the
      one a result states, the result is refused for good, unless a later update writes the stated
      revision back. */
  lemma StaleRevisionRefused(run: seq<Command>, update: Command, more: seq<Command>, result: Result)
    requires update.Update? && Succeeds(After(run), update) && result.viewerId == Some(update.viewerId)
    requires result.epoch <= After(run).runtime.value.epoch && Contradicts(result, update.next)
    requires forall k :: 0 <= k < |more| ==> KeepsContradicting(more[k], result)
    ensures !Accepts(After(run + [update] + more), result)
  {
    var s := After(run);
    assert (run + [update])[..|run + [update]| - 1] == run;
    if Open(After(run + [update]), result.epoch) {
      StaysKnown(s, update, update.viewerId);
    }
    StaysOutdated(run + [update], more, result);
  }

  // ---------------------------------------------------------------------------------------
  // Claims
  // ---------------------------------------------------------------------------------------

  /** Over every run, a claim is granted if and only if the runtime accepts results in the claim's
      room and epoch, the viewer is in the pool and active, and the number is positive and follows the
      viewer's last claim, or without one the sequence of its record. */
  lemma GrantedIff(run: seq<Command>, claim: Command)
    requires claim.Claim?
    ensures Succeeds(After(run), claim) <==>
            var s := After(run);
            && claim.sequence > 0
            && s.runtime.Some? && s.runtime.value.accepting
            && s.runtime.value.roomId == claim.roomId && s.runtime.value.epoch == claim.epoch
            && exists viewer: Viewer ::
                 && InPool(s.runtime.value.viewers, claim.viewerId, viewer) && viewer.active
                 && claim.sequence - 1 == if claim.viewerId in s.claims then s.claims[claim.viewerId] else viewer.sequence
  {
    var s := After(run);
    if s.runtime.Some? {
      PoolEntry(s.runtime.value.viewers, claim.viewerId);
    }
  }

  // ---------------------------------------------------------------------------------------
  // The pool
  // ---------------------------------------------------------------------------------------

  /** The command takes effect and changes who is in the pool, or an update that counts as such. */
  ghost predicate ChangesPopulation(s: Session, c: Command) {
    Succeeds(s, c) && (c.Replace? || c.Add? || (c.Update? && c.incrementPopulation))
  }

  /** Every change of the population moves its revision forward, an addition or counted update by
      one, and nothing else moves it; the next ordinal rises only as far as an added viewer needs. */
  lemma PopulationAdvances(s: Session, c: Command)
    requires s.runtime.Some?
    ensures var before, s' := s.runtime.value, Apply(s, c);
            && s'.runtime.Some?
            && var now := s'.runtime.value;
               && (if ChangesPopulation(s, c) then now.populationRevision > before.populationRevision
                   else now.populationRevision == before.populationRevision)
               && (!c.Replace? ==> now.populationRevision <= before.populationRevision + 1)
               && (!c.Replace? && !c.Add? ==> now.nextOrdinal == before.nextOrdinal)
               && (c.Add? && Succeeds(s, c) ==>
                     && now.nextOrdinal >= before.nextOrdinal && now.nextOrdinal > c.viewer.ordinal
                     && (now.nextOrdinal == before.nextOrdinal || now.nextOrdinal == c.viewer.ordinal + 1))
  {
  }

  /** The population was changed by some command of the continuation. */
  ghost predicate PopulationChanged(run: seq<Command>, more: seq<Command>) {
    more != [] &&
    (PopulationChanged(run, more[..|more| - 1]) || ChangesPopulation(After(run + more[..|more| - 1]), more[|more| - 1]))
  }

  /** So over any continuation the population revision tells whether the population changed. */
  lemma {:induction false} PopulationOrder(run: seq<Command>, more: seq<Command>)
    requires After(run).runtime.Some?
    ensures After(run + more).runtime.Some?
    ensures After(run + more).runtime.value.populationRevision >= After(run).runtime.value.populationRevision
    ensures After(run + more).runtime.value.populationRevision > After(run).runtime.value.populationRevision <==> PopulationChanged(run, more)
  {
    if more == [] {
      assert run + more == run;
    } else {
      var m := |more| - 1;
      assert (run + more)[..|run + more| - 1] == run + more[..m];
      PopulationOrder(run, more[..m]);
      PopulationAdvances(After(run + more[..m]), more[m]);
    }
  }

  ghost predicate OneEach(viewers: seq<Viewer>) {
    forall i, j :: 0 <= i < j < |viewers| ==> viewers[i].id != viewers[j].id
  }

  /** If every pool that is activated or put in place lists each viewer once, so does every pool of
      the run. */
  lemma {:induction false} PoolListsOnce(run: seq<Command>)
    requires forall k :: 0 <= k < |run| && (run[k].Activate? || run[k].Replace?) ==> OneEach(run[k].runtime.viewers)
    ensures After(run).runtime.Some? ==> OneEach(After(run).runtime.value.viewers)
  {
    if run != [] {
      PoolListsOnce(run[..|run| - 1]);
      StepListsOnce(After(run[..|run| - 1]), run[|run| - 1]);
    }
  }

  lemma StepListsOnce(s: Session, c: Command)
    requires s.runtime.Some? ==> OneEach(s.runtime.value.viewers)
    requires c.Activate? || c.Replace? ==> OneEach(c.runtime.viewers)
    ensures Apply(s, c).runtime.Some? ==> OneEach(Apply(s, c).runtime.value.viewers)
  {
    if c.Add? && Succeeds(s, c) {
      KeptIsPresent(s.runtime.value.viewers, c.viewer.id);
      assert forall v :: v in s.runtime.value.viewers ==> v.id != c.viewer.id;
    }
  }

  /** When a session is activated, every viewer of the pool has the sequence of its record as its
      claim, and no number counts as issued. */
  lemma ActivationClaims(s: Session, runtime: Runtime, persisted: bool, i: nat)
    requires s.runtime.None? && Succeeds(s, Activate(runtime, persisted)) && OneEach(runtime.viewers) && i < |runtime.viewers|
    ensures var s', viewer := Apply(s, Activate(runtime, persisted)), runtime.viewers[i];
            && s'.runtime == Some(runtime) && IssuedTo(s', viewer.id) == {}
            && viewer.id in s'.claims && s'.claims[viewer.id] == viewer.sequence
  {
    ClaimsAre(runtime.viewers, i);
  }

  lemma {:induction false} ClaimsAre(viewers: seq<Viewer>, i: nat)
    requires OneEach(viewers) && i < |viewers|
    ensures viewers[i].id in Claims(viewers) && Claims(viewers)[viewers[i].id] == viewers[i].sequence
  {
    if i < |viewers| - 1 {
      ClaimsAre(viewers[..|viewers| - 1], i);
    }
  }
}
