/** When a viewer's number is issued a second time within one epoch, and when a result that carries
    it passes the fence again. */
module RuntimeReissues {
  import opened Options
  import opened RuntimeState

  /** The present runtime accepts results in this epoch. */
  predicate Open(s: Session, epoch: int) {
    s.runtime.Some? && s.runtime.value.accepting && s.runtime.value.epoch == epoch
  }

  function Record(s: Session, viewerId: string): Viewer
    requires s.runtime.Some? && HasViewer(s.runtime.value.viewers, viewerId)
  {
    s.runtime.value.viewers[FindViewer(s.runtime.value.viewers, viewerId)]
  }

  predicate Known(s: Session, viewerId: string) {
    s.runtime.Some? && HasViewer(s.runtime.value.viewers, viewerId)
  }

  // ---------------------------------------------------------------------------------------
  // An inactive viewer has no claim
  // ---------------------------------------------------------------------------------------

  /** Nothing was issued to the viewer since it became inactive at k. */
  ghost predicate SilentSince(log: seq<Entry>, k: nat, viewerId: string) {
    k < |log| && log[k] == Deactivated(viewerId) && NoneIssued(log, k, viewerId)
  }

  /** Within the epoch a number was issued in, the viewer stays known, has no claim while inactive,
      and none after that until the next number is issued. */
  ghost predicate AbsentInv(s: Session, log: seq<Entry>) {
    forall v: string, i: nat :: IssuedAt(log, i, v) && Open(s, log[i].epoch) ==>
      && Known(s, v) && (Record(s, v).active || v !in s.claims)
      && (forall k: nat :: i < k && SilentSince(log, k, v) ==> v !in s.claims)
  }

  lemma FoundBeyond(viewers: seq<Viewer>, more: seq<Viewer>, id: string)
    requires HasViewer(viewers, id)
    ensures FindViewer(viewers + more, id) == FindViewer(viewers, id)
  {
    var i, j := FindViewer(viewers, id), FindViewer(viewers + more, id);
    assert (viewers + more)[i].id == id;
  }

  lemma FoundAfterUpdate(viewers: seq<Viewer>, next: Viewer, id: string)
    requires HasViewer(viewers, next.id)
    ensures FindViewer(viewers[FindViewer(viewers, next.id) := next], id) == FindViewer(viewers, id)
  {
    var at := FindViewer(viewers, next.id);
    var updated := viewers[at := next];
    assert forall j :: 0 <= j < |viewers| ==> updated[j].id == viewers[j].id;
  }

  /** Unless the epoch moves on or closes, only an update of the viewer changes its record, and only
      that or a number issued to it changes its claim. */
  lemma StaysKnown(s: Session, c: Command, v: string)
    requires Known(s, v) && Open(Apply(s, c), s.runtime.value.epoch)
    ensures s.runtime.value.accepting && Known(Apply(s, c), v)
    ensures !(c.Update? && c.viewerId == v && Succeeds(s, c)) ==> Record(Apply(s, c), v) == Record(s, v)
    ensures c.Update? && c.viewerId == v && Succeeds(s, c) ==> Record(Apply(s, c), v) == c.next
    ensures !(c.Update? && c.viewerId == v) && !(c.Claim? && c.viewerId == v) ==>
              (v in Apply(s, c).claims <==> v in s.claims) && (v in s.claims ==> Apply(s, c).claims[v] == s.claims[v])
  {
    if Succeeds(s, c) {
      match c
      case Update(id, next, _, _) => FoundAfterUpdate(s.runtime.value.viewers, next, v);
      case Add(viewer, _) => FoundBeyond(s.runtime.value.viewers, [viewer], v);
      case _ =>
    }
  }

  lemma SilentBefore(log: seq<Entry>, more: seq<Entry>, k: nat, v: string)
    requires |more| <= 1 && SilentSince(log + more, k, v)
    ensures k < |log| ==> SilentSince(log, k, v)
    ensures k >= |log| ==> more == [Deactivated(v)]
    ensures forall epoch: int, n: int :: more != [Issued(v, epoch, n)]
  {
    forall j: nat | k <= j < |log|
      ensures !IssuedAt(log, j, v)
    {
      assert (log + more)[j] == log[j] && !IssuedAt(log + more, j, v);
    }
    if more != [] {
      assert (log + more)[|log|] == more[0] && !IssuedAt(log + more, |log|, v);
    }
  }

  /** What happens to one earlier entry's viewer in a step that keeps the epoch open. */
  lemma StepKeepsAbsentAt(s: Session, c: Command, log: seq<Entry>, v: string, i: nat)
    requires AbsentInv(s, log) && IssuedAt(log, i, v)
    requires s.runtime.Some? && s.runtime.value.epoch == log[i].epoch && Open(Apply(s, c), log[i].epoch)
    ensures Known(Apply(s, c), v) && (Record(Apply(s, c), v).active || v !in Apply(s, c).claims)
    ensures forall k: nat :: i < k && SilentSince(log + Recorded(s, c), k, v) ==> v !in Apply(s, c).claims
  {
    if c.Stop? || (c.Replace? && Succeeds(s, c)) {
      assert false;
    }
    assert s.runtime.value.accepting;
    StaysKnown(s, c, v);
    forall k: nat | i < k && SilentSince(log + Recorded(s, c), k, v)
      ensures v !in Apply(s, c).claims
    {
      SilentBefore(log, Recorded(s, c), k, v);
    }
  }

  lemma StepKeepsAbsent(s: Session, c: Command, log: seq<Entry>)
    requires AbsentInv(s, log) && EpochInv(s, log)
    ensures AbsentInv(Apply(s, c), log + Recorded(s, c))
  {
    var s', longer := Apply(s, c), log + Recorded(s, c);
    forall v: string, i: nat | IssuedAt(longer, i, v) && Open(s', longer[i].epoch)
      ensures Known(s', v) && (Record(s', v).active || v !in s'.claims)
      ensures forall k: nat :: i < k && SilentSince(longer, k, v) ==> v !in s'.claims
    {
      if i < |log| {
        assert longer[i] == log[i] && IssuedAt(log, i, v);
        StepKeepsAbsentAt(s, c, log, v, i);
      } else {
        assert longer[i] == Recorded(s, c)[0];
        StaysKnown(s, c, v);
      }
    }
  }

  lemma {:induction false} RunsKeepAbsent(run: seq<Command>)
    ensures AbsentInv(After(run), History(run))
  {
    if run != [] {
      var before := run[..|run| - 1];
      RunsKeepAbsent(before);
      RunsKeepInv(before);
      StepKeepsAbsent(After(before), run[|run| - 1], History(before));
    }
  }

  // ---------------------------------------------------------------------------------------
  // The next number
  // ---------------------------------------------------------------------------------------

  /** The first number issued to a viewer after it became inactive follows the sequence its record
      shows at that moment; so it repeats a number of the epoch, or goes behind it, if and only if
      the record's sequence is less than that number. */
  lemma FirstAfterDeactivation(run: seq<Command>, claim: Command, i: nat, k: nat)
    requires claim.Claim? && Succeeds(After(run), claim)
    requires IssuedAt(History(run), i, claim.viewerId) && History(run)[i].epoch == claim.epoch
    requires i < k && SilentSince(History(run), k, claim.viewerId)
    ensures claim.sequence == Record(After(run), claim.viewerId).sequence + 1
    ensures claim.sequence <= History(run)[i].sequence <==>
            Record(After(run), claim.viewerId).sequence < History(run)[i].sequence
  {
    RunsKeepAbsent(run);
  }

  // ---------------------------------------------------------------------------------------
  // Exactly when a number is issued again
  // ---------------------------------------------------------------------------------------

  /** The command does not write a record whose sequence is less than n to the viewer. */
  predicate NoLowRecord(c: Command, viewerId: string, n: int) {
    !(c.Update? && c.viewerId == viewerId && c.next.sequence < n)
  }

  predicate NoLowRecords(more: seq<Command>, viewerId: string, n: int) {
    forall k :: 0 <= k < |more| ==> NoLowRecord(more[k], viewerId, n)
  }

  /** The last command of the run is a claim that is granted number n in this epoch. */
  ghost predicate Grants(run: seq<Command>, viewerId: string, epoch: int, n: int) {
    && run != []
    && var claim := run[|run| - 1];
       claim.Claim? && claim.viewerId == viewerId && claim.epoch == epoch && claim.sequence == n
       && Succeeds(After(run[..|run| - 1]), claim)
  }

  /** The continuation writes no record with a lower sequence to the viewer and ends with number n
      granted. */
  ghost predicate Reissues(run: seq<Command>, more: seq<Command>, viewerId: string, epoch: int, n: int) {
    more != [] && NoLowRecords(more, viewerId, n) && Grants(run + more, viewerId, epoch, n)
  }

  /** The epoch is over or closed, or the next number of the viewer is beyond n and, if barred, n is
      not among the numbers that are accepted. */
  predicate Beyond(s: Session, viewerId: string, epoch: int, n: int, barred: bool) {
    && s.runtime.Some? && s.runtime.value.epoch >= epoch
    && (Open(s, epoch) ==> Known(s, viewerId) && CurrentClaim(s, viewerId) >= n && (barred ==> n !in IssuedTo(s, viewerId)))
  }

  lemma StepStaysBeyond(s: Session, c: Command, v: string, epoch: int, n: int, barred: bool)
    requires Beyond(s, v, epoch, n, barred) && NoLowRecord(c, v, n)
    ensures Beyond(Apply(s, c), v, epoch, n, barred)
  {
    var s' := Apply(s, c);
    if Open(s', epoch) {
      if c.Replace? && Succeeds(s, c) {
        assert false;
      }
      StaysKnown(s, c, v);
    }
  }

  lemma {:induction false} StaysBeyond(run: seq<Command>, more: seq<Command>, v: string, epoch: int, n: int, barred: bool)
    requires Beyond(After(run), v, epoch, n, barred) && NoLowRecords(more, v, n)
    ensures Beyond(After(run + more), v, epoch, n, barred)
  {
    if more == [] {
      assert run + more == run;
    } else {
      var m := |more| - 1;
      assert (run + more)[..|run + more| - 1] == run + more[..m];
      StaysBeyond(run, more[..m], v, epoch, n, barred);
      StepStaysBeyond(After(run + more[..m]), more[m], v, epoch, n, barred);
    }
  }

  /** From an open epoch, claims alone reach any number beyond the present claim. */
  lemma {:induction false} ClaimsReach(run: seq<Command>, v: string, epoch: int, n: nat) returns (more: seq<Command>)
    requires Open(After(run), epoch) && ViewerActive(After(run), v) && CurrentClaim(After(run), v) < n
    ensures Reissues(run, more, v, epoch, n) && forall k :: 0 <= k < |more| ==> more[k].Claim?
    ensures After(run + more).runtime == After(run).runtime && n in IssuedTo(After(run + more), v)
    decreases n
  {
    var room := After(run).runtime.value.roomId;
    var before: seq<Command> := [];
    if CurrentClaim(After(run), v) < n - 1 {
      before := ClaimsReach(run, v, epoch, n - 1);
      assert CurrentClaim(After(run + before), v) == n - 1 by {
        LastGrantIsClaim(run + before, v, epoch, n - 1);
      }
    } else {
      assert run + before == run;
    }
    var claim := Claim(room, epoch, v, n);
    more := before + [claim];
    assert forall k :: 0 <= k < |more| ==> more[k].Claim?;
    assert (run + more)[..|run + more| - 1] == run + before && (run + more)[|run + more| - 1] == claim;
  }

  lemma LastGrantIsClaim(run: seq<Command>, v: string, epoch: int, n: int)
    requires Grants(run, v, epoch, n)
    ensures v in After(run).claims && After(run).claims[v] == n
  {
  }

  /** A number issued to an active viewer in the present epoch is issued again in that epoch, in some
      continuation that writes no lower record to the viewer, if and only if the viewer's claim, or
      without one its record's sequence, is less than the number. */
  lemma ReissuedIff(run: seq<Command>, v: string, i: nat)
    requires IssuedAt(History(run), i, v) && Open(After(run), History(run)[i].epoch) && ViewerActive(After(run), v)
    ensures var n, epoch := History(run)[i].sequence, History(run)[i].epoch;
            (exists more: seq<Command> :: Reissues(run, more, v, epoch, n)) <==>
            CurrentClaim(After(run), v) < n
  {
    var n, epoch := History(run)[i].sequence, History(run)[i].epoch;
    if CurrentClaim(After(run), v) < n {
      var more := ClaimsReach(run, v, epoch, n);
      assert Reissues(run, more, v, epoch, n);
    } else {
      forall more: seq<Command>
        ensures !Reissues(run, more, v, epoch, n)
      {
        NotGranted(run, more, v, epoch, n);
      }
    }
  }

  lemma NotGranted(run: seq<Command>, more: seq<Command>, v: string, epoch: int, n: int)
    requires Beyond(After(run), v, epoch, n, false)
    ensures !Reissues(run, more, v, epoch, n)
  {
    if more != [] && NoLowRecords(more, v, n) {
      var m := |more| - 1;
      assert (run + more)[..|run + more| - 1] == run + more[..m];
      StaysBeyond(run, more[..m], v, epoch, n, false);
    }
  }

  /** The same seen before the viewer is written, by an update that leaves it active: what decides is
      the claim or else the sequence the update writes, and an inactive viewer has no claim. */
  lemma ReissuedAfterUpdateIff(run: seq<Command>, c: Command, i: nat)
    requires c.Update? && c.next.active && Succeeds(After(run), c)
    requires IssuedAt(History(run), i, c.viewerId) && Open(After(run), History(run)[i].epoch)
    ensures var v, n, epoch, claims := c.viewerId, History(run)[i].sequence, History(run)[i].epoch, After(run).claims;
            (exists more: seq<Command> :: Reissues(run + [c], more, v, epoch, n)) <==>
            (if v in claims then claims[v] < n else c.next.sequence < n)
    ensures !ViewerActive(After(run), c.viewerId) ==> c.viewerId !in After(run).claims
  {
    var now := run + [c];
    assert now[..|now| - 1] == run && now[|now| - 1] == c;
    assert History(now) == History(run);
    StaysKnown(After(run), c, c.viewerId);
    RunsKeepAbsent(run);
    ReissuedIff(now, c.viewerId, i);
  }

  // ---------------------------------------------------------------------------------------
  // Exactly when an old result passes the fence again
  // ---------------------------------------------------------------------------------------

  /** The result carries what was issued at entry i and no revisions. */
  ghost predicate CarriesOnly(result: Result, e: Entry) {
    && e.Issued? && result.viewerId == Some(e.viewerId) && result.sequence == Some(e.sequence) && result.epoch == e.epoch
    && result.presenceRevision.None? && result.moderationRevision.None? && result.behaviorRevision.None?
  }

  /** A result from before the viewer's last reset is accepted if and only if its number has been
      issued again since then in the same epoch. */
  lemma OldResultPassesIffReissued(run: seq<Command>, result: Result, i: nat)
    requires i < |History(run)| && CarriesOnly(result, History(run)[i])
    requires !Live(History(run), i, History(run)[i].viewerId) && Current(After(run), result)
    ensures Accepts(After(run), result) <==>
            exists j: nat :: i < j < |History(run)| && History(run)[j] == History(run)[i] && Live(History(run), j, History(run)[i].viewerId)
  {
    var log, v := History(run), History(run)[i].viewerId;
    FenceSound(run, result);
    if Accepts(After(run), result) {
      var j: nat :| IssuedAt(log, j, v) && log[j] == log[i] && Live(log, j, v);
      assert j > i;
    }
    if j: nat :| i < j < |log| && log[j] == log[i] && Live(log, j, v) {
      assert IssuedAt(log, j, v);
    }
  }

  /** Such a result, refused only for its number, is accepted again in some continuation that writes
      no lower record to the viewer if and only if the viewer's claim, or without one its record's
      sequence, is less than the number. */
  lemma OldResultPassesAgainIff(run: seq<Command>, result: Result, i: nat)
    requires i < |History(run)| && CarriesOnly(result, History(run)[i])
    requires Current(After(run), result) && !Accepts(After(run), result)
    ensures var v, n := History(run)[i].viewerId, History(run)[i].sequence;
            (exists more: seq<Command> :: NoLowRecords(more, v, n) && Accepts(After(run + more), result)) <==>
            CurrentClaim(After(run), v) < n
  {
    var v, n, epoch := History(run)[i].viewerId, History(run)[i].sequence, History(run)[i].epoch;
    if CurrentClaim(After(run), v) < n {
      var more := ClaimsReach(run, v, epoch, n);
      assert NoLowRecords(more, v, n) && Accepts(After(run + more), result);
    } else {
      forall more: seq<Command> | NoLowRecords(more, v, n)
        ensures !Accepts(After(run + more), result)
      {
        StaysBeyond(run, more, v, epoch, n, true);
      }
    }
  }
}
