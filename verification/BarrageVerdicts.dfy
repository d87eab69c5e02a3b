/** Which batches and candidates the barrage pipeline lets through, spelled out. */
module BarrageVerdicts {
  import opened Options
  import opened BarrageHistory
  import opened BarragePipeline

  // ---------------------------------------------------------------------------------------
  // Checks in order
  // ---------------------------------------------------------------------------------------

  /** The outcome is the first of the checks that fails, or nothing if none does. */
  ghost predicate FirstFailure(outcome: Option<Reason>, checks: seq<Reason>, failing: set<Reason>) {
    match outcome
    case None => forall k :: 0 <= k < |checks| ==> checks[k] !in failing
    case Some(reason) => exists k :: 0 <= k < |checks| && checks[k] == reason && reason in failing && forall j :: 0 <= j < k ==> checks[j] !in failing
  }

  const BATCH_CHECKS := [SessionMismatch, ObservationMismatch, RequestMismatch, ObservationInFuture, Expired]

  /** Why a batch must not go out: it belongs elsewhere, or the moment is before its observation or
      not before its expiry. */
  ghost function BatchFailures(scope: Scope, request: Request, result: Result, nowMs: int, p: Policy): set<Reason> {
    (if request.observationSession == scope.sessionId then {} else {SessionMismatch})
    + (if request.observationId == scope.observationId then {} else {ObservationMismatch})
    + (if scope.requestId == request.requestId && scope.requestId == result.requestId then {} else {RequestMismatch})
    + (if request.createdAtMs <= nowMs then {} else {ObservationInFuture})
    + (if nowMs - request.createdAtMs < p.ttlMs then {} else {Expired})
  }

  /** A batch is rejected for its first failure, and only for one. */
  lemma BatchFirstFailure(scope: Scope, request: Request, result: Result, nowMs: int, p: Policy)
    ensures FirstFailure(BatchRejection(scope, request, result, nowMs, p), BATCH_CHECKS, BatchFailures(scope, request, result, nowMs, p))
  {
    var outcome, failing := BatchRejection(scope, request, result, nowMs, p), BatchFailures(scope, request, result, nowMs, p);
    assert BATCH_CHECKS[0] == SessionMismatch
        && BATCH_CHECKS[1] == ObservationMismatch
        && BATCH_CHECKS[2] == RequestMismatch
        && BATCH_CHECKS[3] == ObservationInFuture
        && BATCH_CHECKS[4] == Expired;
  }

  const CONTENT_CHECKS := [AudienceNotInRequest, InvalidText, EmptyText, TextTooLong, BlockedWord]

  ghost predicate OccursAt(word: string, text: string, i: nat) {
    i + |word| <= |text| && text[i..i + |word|] == word
  }

  /** The word stands somewhere in the text. */
  ghost predicate Occurs(word: string, text: string) {
    exists i: nat :: OccursAt(word, text, i)
  }

  lemma Shifted(s: string, i: nat, n: nat)
    requires i + 1 + n <= |s|
    ensures s[1..][i..i + n] == s[i + 1..i + 1 + n]
  {
  }

  lemma {:induction false} ContainsIff(text: string, word: string)
    ensures Contains(text, word) <==> Occurs(word, text)
  {
    if |word| <= |text| && text[..|word|] == word {
      assert OccursAt(word, text, 0);
    }
    if text != [] {
      ContainsIff(text[1..], word);
      if i: nat :| OccursAt(word, text[1..], i) {
        Shifted(text, i, |word|);
        assert OccursAt(word, text, i + 1);
      }
      if i: nat :| i > 0 && OccursAt(word, text, i) {
        Shifted(text, i - 1, |word|);
        assert OccursAt(word, text[1..], i - 1);
      }
    }
    assert OccursAt(word, text, 0) ==> text[..|word|] == word;
  }

  ghost function ContentFailures(c: Candidate, allowed: set<string>, p: Policy): set<Reason> {
    (if exists id :: id in allowed && c.audienceId == Some(id) then {} else {AudienceNotInRequest})
    + (match c.text
       case None => {InvalidText}
       case Some(stripped) =>
         (if |stripped.text| > 0 then {} else {EmptyText})
         + (if |stripped.text| <= p.maxTextLength then {} else {TextTooLong})
         + (if exists w :: w in p.blockedWords && Occurs(w, stripped.folded) then {BlockedWord} else {}))
  }

  lemma ContentFirstFailure(c: Candidate, allowed: set<string>, p: Policy)
    ensures FirstFailure(ContentRejection(c, allowed, p), CONTENT_CHECKS, ContentFailures(c, allowed, p))
  {
    var outcome, failing := ContentRejection(c, allowed, p), ContentFailures(c, allowed, p);
    if c.text.Some? {
      forall w | w in p.blockedWords
        ensures Contains(c.text.value.folded, w) <==> Occurs(w, c.text.value.folded)
      {
        ContainsIff(c.text.value.folded, w);
      }
    }
    assert CONTENT_CHECKS[0] == AudienceNotInRequest
        && CONTENT_CHECKS[1] == InvalidText
        && CONTENT_CHECKS[2] == EmptyText
        && CONTENT_CHECKS[3] == TextTooLong
        && CONTENT_CHECKS[4] == BlockedWord;
  }

  // ---------------------------------------------------------------------------------------
  // History
  // ---------------------------------------------------------------------------------------

  /** The positions of the acceptances after a moment. */
  ghost function Recent(log: Log, afterMs: int): set<int> {
    set i | 0 <= i < |log| && log[i].atMs > afterMs
  }

  lemma {:induction false} WindowCounts(log: Log, afterMs: int)
    ensures InWindow(log, afterMs) == |Recent(log, afterMs)|
  {
    if log == [] {
      assert Recent(log, afterMs) == {};
    } else {
      var n := |log| - 1;
      WindowCounts(log[..n], afterMs);
      assert Recent(log, afterMs) == Recent(log[..n], afterMs) + if log[n].atMs > afterMs then {n} else {};
    }
  }

  /** The text was accepted within the duplicate window, among the last K acceptances. */
  ghost predicate HeardRecently(log: Log, text: string, nowMs: int, p: Policy) {
    exists i :: 0 <= i < |log| && |log| - i <= p.maxDuplicateEntries && log[i].text == text && nowMs - log[i].atMs < p.duplicateWindowMs
  }

  /** A candidate is rejected for its first failing content check; if none fails, as a duplicate if its
      text was heard recently; and then for density if the density window already holds the allowed
      number of acceptances. Otherwise its text is accepted as it is. */
  lemma VerdictIs(log: Log, c: Candidate, allowed: set<string>, nowMs: int, p: Policy)
    ensures match Judge(log, c, allowed, nowMs, p)
            case Accepted(text) =>
              && ContentFailures(c, allowed, p) == {} && c.text.Some? && text == c.text.value.text
              && !HeardRecently(log, text, nowMs, p) && |Recent(log, nowMs - p.densityWindowMs)| < p.maxOutputs
            case Rejected(reason) =>
              if ContentFailures(c, allowed, p) != {} then FirstFailure(Some(reason), CONTENT_CHECKS, ContentFailures(c, allowed, p))
              else
                && c.text.Some?
                && if HeardRecently(log, c.text.value.text, nowMs, p) then reason == Duplicate
                   else reason == DensityLimitExceeded && |Recent(log, nowMs - p.densityWindowMs)| >= p.maxOutputs
  {
    ContentFirstFailure(c, allowed, p);
    WindowCounts(log, nowMs - p.densityWindowMs);
    NoneFail(c, allowed, p);
    if c.text.Some? {
      DuplicateIff(log, c.text.value.text, nowMs, p);
    }
  }

  lemma NoneFail(c: Candidate, allowed: set<string>, p: Policy)
    ensures ContentFailures(c, allowed, p) == {} <==> forall k :: 0 <= k < |CONTENT_CHECKS| ==> CONTENT_CHECKS[k] !in ContentFailures(c, allowed, p)
  {
    var failing := ContentFailures(c, allowed, p);
    forall reason | reason in failing
      ensures exists k :: 0 <= k < |CONTENT_CHECKS| && CONTENT_CHECKS[k] == reason
    {
      assert reason in CONTENT_CHECKS;
    }
  }

  lemma DuplicateIff(log: Log, text: string, nowMs: int, p: Policy)
    ensures IsDuplicate(log, text, nowMs, p) <==> HeardRecently(log, text, nowMs, p)
  {
  }

  /** Every event that goes out is timely and clean: it is for an audience the request allows, with a
      text that is neither empty, too long, nor, case folded, home to a blocked word. */
  lemma EventsAreClean(h: Histories, scope: Scope, request: Request, result: Result, nowMs: int, p: Policy, firstId: nat, n: nat)
    requires BatchRejection(scope, request, result, nowMs, p).None?
    requires var verdicts := Verdicts(h, scope.sessionId, result.candidates, request.allowed, nowMs, p);
             n < |EventsOf(verdicts, result.candidates, firstId, nowMs, request.createdAtMs + p.ttlMs)|
    ensures var cs := result.candidates;
            var verdicts := Verdicts(h, scope.sessionId, cs, request.allowed, nowMs, p);
            var e := EventsOf(verdicts, cs, firstId, nowMs, request.createdAtMs + p.ttlMs)[n];
            && request.createdAtMs <= e.createdAtMs == nowMs < e.expiresAtMs
            && e.audienceId in request.allowed && 0 < |e.text| <= p.maxTextLength
            && exists k :: 0 <= k < |cs| && FromCandidate(e, cs[k], p)
  {
    BatchFirstFailure(scope, request, result, nowMs, p);
    assert BATCH_CHECKS[3] == ObservationInFuture && BATCH_CHECKS[4] == Expired;
    EventFrom(h, scope.sessionId, result.candidates, request.allowed, nowMs, p, firstId, request.createdAtMs + p.ttlMs, n);
  }

  ghost predicate FromCandidate(e: Event, c: Candidate, p: Policy) {
    && c.audienceId == Some(e.audienceId) && c.text.Some? && c.text.value.text == e.text
    && forall w :: w in p.blockedWords ==> !Occurs(w, c.text.value.folded)
  }

  lemma {:induction false} EventFrom(h: Histories, session: string, cs: seq<Candidate>, allowed: set<string>, nowMs: int, p: Policy, firstId: nat,
                                     expiresAtMs: int, n: nat)
    requires n < |EventsOf(Verdicts(h, session, cs, allowed, nowMs, p), cs, firstId, nowMs, expiresAtMs)|
    ensures var e := EventsOf(Verdicts(h, session, cs, allowed, nowMs, p), cs, firstId, nowMs, expiresAtMs)[n];
            && e.createdAtMs == nowMs && e.expiresAtMs == expiresAtMs
            && e.audienceId in allowed && 0 < |e.text| <= p.maxTextLength
            && exists k :: 0 <= k < |cs| && FromCandidate(e, cs[k], p)
  {
    if cs != [] {
      var m := |cs| - 1;
      var verdicts := Verdicts(h, session, cs, allowed, nowMs, p);
      assert verdicts[..m] == Verdicts(h, session, cs[..m], allowed, nowMs, p);
      if n < |EventsOf(verdicts[..m], cs[..m], firstId, nowMs, expiresAtMs)| {
        EventFrom(h, session, cs[..m], allowed, nowMs, p, firstId, expiresAtMs, n);
        var e := EventsOf(verdicts[..m], cs[..m], firstId, nowMs, expiresAtMs)[n];
        var k :| 0 <= k < m && FromCandidate(e, cs[..m][k], p);
        assert FromCandidate(e, cs[k], p);
      } else {
        VerdictIs(LogOf(Judged(h, session, cs[..m], allowed, nowMs, p), session), cs[m], allowed, nowMs, p);
        CleanCandidate(cs[m], allowed, p);
        assert FromCandidate(EventsOf(verdicts, cs, firstId, nowMs, expiresAtMs)[n], cs[m], p);
      }
    }
  }

  lemma CleanCandidate(c: Candidate, allowed: set<string>, p: Policy)
    requires ContentFailures(c, allowed, p) == {}
    ensures c.audienceId.Some? && c.audienceId.value in allowed
    ensures c.text.Some? && 0 < |c.text.value.text| <= p.maxTextLength
    ensures forall w :: w in p.blockedWords ==> !Occurs(w, c.text.value.folded)
  {
    var failing := ContentFailures(c, allowed, p);
    assert AudienceNotInRequest !in failing && InvalidText !in failing && EmptyText !in failing;
    assert TextTooLong !in failing && BlockedWord !in failing;
  }
}
