/** The barrage pipeline keeps pruned windows; it decides as if it kept every acceptance. */
module BarragePipeline {
  import opened Options
  import opened OrderedDict
  import opened BarrageHistory
  import Sequences

  datatype SessionState = SessionState(recentTexts: Dict<string, int>, outputTimes: seq<int>)

  datatype Scope = Scope(sessionId: string, observationId: string, requestId: string)

  datatype Request = Request(
    observationSession: string, observationId: string, requestId: string, createdAtMs: int, allowed: set<string>)

  datatype Result = Result(requestId: string, candidates: seq<Candidate>)

  datatype Event = Event(id: nat, audienceId: string, text: string, createdAtMs: int, expiresAtMs: int)

  datatype Rejection = Rejection(index: nat, audienceId: Option<string>, reason: Reason)

  // ---------------------------------------------------------------------------------------
  // Windows represent the log
  // ---------------------------------------------------------------------------------------

  ghost function Entry(a: Acceptance): (string, int) { (a.text, a.atMs) }

  /** texts is the end of the log: what it dropped was beyond the last K or had left the duplicate
      window by the last clock reading. */
  ghost predicate KeepsTexts(texts: Dict<string, int>, log: Log, clock: int, p: Policy) {
    && |texts| <= |log|
    && (forall i :: 0 <= i < |texts| ==> texts[i] == Entry(log[|log| - |texts| + i]))
    && (forall i :: 0 <= i < |log| - |texts| ==> i < |log| - p.maxDuplicateEntries || log[i].atMs <= clock - p.duplicateWindowMs)
  }

  /** times is the end of the log: what it dropped had left the density window. */
  ghost predicate KeepsTimes(times: seq<int>, log: Log, clock: int, p: Policy) {
    && |times| <= |log|
    && (forall i :: 0 <= i < |times| ==> times[i] == log[|log| - |times| + i].atMs)
    && (forall i :: 0 <= i < |log| - |times| ==> log[i].atMs <= clock - p.densityWindowMs)
  }

  ghost predicate Represents(state: SessionState, log: Log, clock: int, p: Policy) {
    && |state.recentTexts| <= p.maxDuplicateEntries
    && KeepsTexts(state.recentTexts, log, clock, p)
    && KeepsTimes(state.outputTimes, log, clock, p)
  }

  /** Nothing that has left its window is kept. */
  ghost predicate Pruned(state: SessionState, nowMs: int, p: Policy) {
    && (forall i :: 0 <= i < |state.recentTexts| ==> state.recentTexts[i].1 > nowMs - p.duplicateWindowMs)
    && (forall i :: 0 <= i < |state.outputTimes| ==> state.outputTimes[i] > nowMs - p.densityWindowMs)
  }

  /** After pruning, looking up a text and counting outputs answer for the whole log. */
  lemma PrunedDecides(state: SessionState, log: Log, nowMs: int, text: string, p: Policy)
    requires Chronological(log) && Represents(state, log, nowMs, p) && Pruned(state, nowMs, p)
    ensures Has(state.recentTexts, text) <==> IsDuplicate(log, text, nowMs, p)
    ensures |state.outputTimes| == InWindow(log, nowMs - p.densityWindowMs)
  {
    var from := |log| - |state.recentTexts|;
    if Has(state.recentTexts, text) {
      var i := Find(state.recentTexts, text);
      assert log[from + i].text == text;
    }
    if IsDuplicate(log, text, nowMs, p) {
      var i :| 0 <= i < |log| && |log| - p.maxDuplicateEntries <= i
               && log[i].text == text && log[i].atMs > nowMs - p.duplicateWindowMs;
      assert state.recentTexts[i - from].0 == text;
    }
    CountIsWindow(state.outputTimes, log, nowMs, p);
  }

  lemma CountIsWindow(times: seq<int>, log: Log, nowMs: int, p: Policy)
    requires Chronological(log) && KeepsTimes(times, log, nowMs, p)
    requires forall i :: 0 <= i < |times| ==> times[i] > nowMs - p.densityWindowMs
    ensures |times| == InWindow(log, nowMs - p.densityWindowMs)
  {
    WindowIsSuffix(log, nowMs - p.densityWindowMs);
    var kept, w := |log| - |times|, |log| - InWindow(log, nowMs - p.densityWindowMs);
    if kept < |log| {
      KeptIffRecent(times, log, nowMs, p, kept);
    }
    if w < |log| {
      KeptIffRecent(times, log, nowMs, p, w);
    }
  }

  lemma KeptIffRecent(times: seq<int>, log: Log, nowMs: int, p: Policy, i: nat)
    requires KeepsTimes(times, log, nowMs, p) && i < |log|
    requires forall j :: 0 <= j < |times| ==> times[j] > nowMs - p.densityWindowMs
    ensures i >= |log| - |times| <==> log[i].atMs > nowMs - p.densityWindowMs
  {
    if i >= |log| - |times| {
      assert times[i - (|log| - |times|)] == log[i].atMs;
    }
  }

  /** Head-pruning equals filtering: the kept texts are the last K acceptances inside the window,
      the kept times all acceptances inside theirs. */
  lemma PrunedIsFiltered(state: SessionState, log: Log, nowMs: int, p: Policy, i: nat)
    requires Chronological(log) && Represents(state, log, nowMs, p) && Pruned(state, nowMs, p)
    requires i < |log|
    ensures i >= |log| - |state.recentTexts| <==> i >= |log| - p.maxDuplicateEntries && log[i].atMs > nowMs - p.duplicateWindowMs
    ensures i >= |log| - |state.recentTexts| ==> state.recentTexts[i - (|log| - |state.recentTexts|)] == Entry(log[i])
    ensures i >= |log| - |state.outputTimes| <==> log[i].atMs > nowMs - p.densityWindowMs
    ensures i >= |log| - |state.outputTimes| ==> state.outputTimes[i - (|log| - |state.outputTimes|)] == log[i].atMs
  {
    if i >= |log| - |state.recentTexts| {
      assert state.recentTexts[i - (|log| - |state.recentTexts|)] == Entry(log[i]);
    }
    if i >= |log| - |state.outputTimes| {
      assert state.outputTimes[i - (|log| - |state.outputTimes|)] == log[i].atMs;
    }
  }

  lemma RemoveIsWithout(d: Dict<string, SessionState>, k: string)
    ensures Keys(Remove(d, k)) == Without(Keys(d), k)
  {
    assert Find(d, k) == Sequences.IndexOf(Keys(d), k);
  }

  // ---------------------------------------------------------------------------------------
  // Results of a batch
  // ---------------------------------------------------------------------------------------

  ghost function EventsOf(verdicts: seq<Verdict>, cs: seq<Candidate>, firstId: nat, nowMs: int, expiresAtMs: int): seq<Event>
    requires |verdicts| == |cs|
  {
    if cs == [] then []
    else
      var n := |cs| - 1;
      var front := EventsOf(verdicts[..n], cs[..n], firstId, nowMs, expiresAtMs);
      if verdicts[n].Accepted? && cs[n].audienceId.Some?
      then front + [Event(firstId + |front|, cs[n].audienceId.value, verdicts[n].text, nowMs, expiresAtMs)]
      else front
  }

  ghost function RejectionsOf(verdicts: seq<Verdict>, cs: seq<Candidate>): seq<Rejection>
    requires |verdicts| == |cs|
  {
    if cs == [] then []
    else
      var n := |cs| - 1;
      var front := RejectionsOf(verdicts[..n], cs[..n]);
      if verdicts[n].Rejected? then front + [Rejection(n, cs[n].audienceId, verdicts[n].reason)] else front
  }

  function BatchRejection(scope: Scope, request: Request, result: Result, nowMs: int, p: Policy): Option<Reason> {
    if request.observationSession != scope.sessionId then Some(SessionMismatch)
    else if request.observationId != scope.observationId then Some(ObservationMismatch)
    else if request.requestId != scope.requestId || result.requestId != scope.requestId then Some(RequestMismatch)
    else if request.createdAtMs > nowMs then Some(ObservationInFuture)
    else if nowMs >= request.createdAtMs + p.ttlMs then Some(Expired)
    else None
  }

  ghost function AcceptedIn(verdicts: seq<Verdict>): nat {
    if verdicts == [] then 0 else AcceptedIn(verdicts[..|verdicts| - 1]) + if verdicts[|verdicts| - 1].Accepted? then 1 else 0
  }

  lemma {:induction false} ResultSizes(verdicts: seq<Verdict>, cs: seq<Candidate>, firstId: nat, nowMs: int, expiresAtMs: int)
    requires |verdicts| == |cs|
    requires forall i :: 0 <= i < |cs| && verdicts[i].Accepted? ==> cs[i].audienceId.Some?
    ensures |EventsOf(verdicts, cs, firstId, nowMs, expiresAtMs)| == AcceptedIn(verdicts)
    ensures |RejectionsOf(verdicts, cs)| == |cs| - AcceptedIn(verdicts)
  {
    if cs != [] {
      ResultSizes(verdicts[..|cs| - 1], cs[..|cs| - 1], firstId, nowMs, expiresAtMs);
    }
  }

  /** What becomes of candidate n: as the next event after those of the candidates before it, it
      carries its own audience and text; otherwise it is the next rejection and carries its reason. */
  ghost predicate OutcomeAt(verdicts: seq<Verdict>, cs: seq<Candidate>, firstId: nat, nowMs: int, expiresAtMs: int, n: nat,
                            events: seq<Event>, rejections: seq<Rejection>)
    requires |verdicts| == |cs| && n < |cs|
  {
    var k := AcceptedIn(verdicts[..n]);
    if verdicts[n].Accepted? then
      k < |events| && cs[n].audienceId.Some?
      && events[k] == Event(firstId + k, cs[n].audienceId.value, verdicts[n].text, nowMs, expiresAtMs)
    else
      0 <= n - k < |rejections| && rejections[n - k] == Rejection(n, cs[n].audienceId, verdicts[n].reason)
  }

  lemma {:induction false} CandidateOutcome(verdicts: seq<Verdict>, cs: seq<Candidate>, firstId: nat, nowMs: int, expiresAtMs: int, n: nat)
    requires |verdicts| == |cs| && n < |cs|
    requires forall i :: 0 <= i < |cs| && verdicts[i].Accepted? ==> cs[i].audienceId.Some?
    ensures OutcomeAt(verdicts, cs, firstId, nowMs, expiresAtMs, n,
                      EventsOf(verdicts, cs, firstId, nowMs, expiresAtMs), RejectionsOf(verdicts, cs))
    decreases |cs|
  {
    var m := |cs| - 1;
    if n < m {
      CandidateOutcome(verdicts[..m], cs[..m], firstId, nowMs, expiresAtMs, n);
      assert verdicts[..m][..n] == verdicts[..n];
    } else {
      ResultSizes(verdicts[..m], cs[..m], firstId, nowMs, expiresAtMs);
    }
  }

  /** Every candidate gives exactly one event or one rejection, its own, and nothing else is given. */
  lemma EveryCandidateOnce(verdicts: seq<Verdict>, cs: seq<Candidate>, firstId: nat, nowMs: int, expiresAtMs: int)
    requires |verdicts| == |cs|
    requires forall i :: 0 <= i < |cs| && verdicts[i].Accepted? ==> cs[i].audienceId.Some?
    ensures var events, rejections := EventsOf(verdicts, cs, firstId, nowMs, expiresAtMs), RejectionsOf(verdicts, cs);
            && |events| == AcceptedIn(verdicts) && |events| + |rejections| == |cs|
            && forall n: nat :: n < |cs| ==> OutcomeAt(verdicts, cs, firstId, nowMs, expiresAtMs, n, events, rejections)
  {
    ResultSizes(verdicts, cs, firstId, nowMs, expiresAtMs);
    forall n: nat | n < |cs|
      ensures OutcomeAt(verdicts, cs, firstId, nowMs, expiresAtMs, n,
                        EventsOf(verdicts, cs, firstId, nowMs, expiresAtMs), RejectionsOf(verdicts, cs))
    {
      CandidateOutcome(verdicts, cs, firstId, nowMs, expiresAtMs, n);
    }
  }

  // ---------------------------------------------------------------------------------------
  // Whole runs
  // ---------------------------------------------------------------------------------------

  datatype Call =
    | Process(scope: Scope, request: Request, result: Result, nowMs: int)
    | Clear(session: string)

  const NO_HISTORIES := Histories([], map[])

  /** The histories after a call; a rejected batch leaves them as they are. */
  ghost function AfterCall(h: Histories, call: Call, p: Policy): Histories {
    match call
    case Process(scope, request, result, nowMs) =>
      if BatchRejection(scope, request, result, nowMs, p).Some? then h
      else Judged(h, scope.sessionId, result.candidates, request.allowed, nowMs, p)
    case Clear(session) => Forget(h, session)
  }

  ghost function AfterCalls(calls: seq<Call>, p: Policy): Histories {
    if calls == [] then NO_HISTORIES else AfterCall(AfterCalls(calls[..|calls| - 1], p), calls[|calls| - 1], p)
  }

  /** The clock never goes back from one batch to a later one. */
  ghost predicate ClockForward(calls: seq<Call>) {
    forall i, j :: 0 <= i < j < |calls| && calls[i].Process? && calls[j].Process? ==> calls[i].nowMs <= calls[j].nowMs
  }

  ghost predicate NotAfter(calls: seq<Call>, nowMs: int) {
    forall i :: 0 <= i < |calls| && calls[i].Process? ==> calls[i].nowMs <= nowMs
  }

  lemma GoodLater(h: Histories, earlierMs: int, nowMs: int, p: Policy)
    requires GoodHistories(h, earlierMs, p) && earlierMs <= nowMs
    ensures GoodHistories(h, nowMs, p)
  {
  }

  lemma {:induction false} RunsKeepGood(calls: seq<Call>, nowMs: int, p: Policy)
    requires ValidPolicy(p) && ClockForward(calls) && NotAfter(calls, nowMs)
    ensures GoodHistories(AfterCalls(calls, p), nowMs, p)
  {
    if calls != [] {
      var front, last := calls[..|calls| - 1], calls[|calls| - 1];
      match last
      case Process(scope, request, result, atMs) =>
        RunsKeepGood(front, atMs, p);
        JudgedKeepsGood(AfterCalls(front, p), scope.sessionId, result.candidates, request.allowed, atMs, p);
        GoodLater(AfterCalls(calls, p), atMs, nowMs, p);
      case Clear(session) =>
        RunsKeepGood(front, nowMs, p);
        ForgetKeepsGood(AfterCalls(front, p), session, nowMs, p);
    }
  }

  lemma {:induction false} SomeClock(calls: seq<Call>) returns (nowMs: int)
    ensures NotAfter(calls, nowMs)
  {
    if calls == [] {
      nowMs := 0;
    } else {
      nowMs := SomeClock(calls[..|calls| - 1]);
      var last := calls[|calls| - 1];
      if last.Process? && last.nowMs > nowMs {
        nowMs := last.nowMs;
      }
    }
  }

  /** After any sequence of batches and cleared sessions with a clock that never goes back, at most
      maxOutputs of the acceptances a tracked session has fall into any interval as long as the density
      window, and equal texts are a duplicate window or more than K acceptances apart. */
  lemma RunsAreBounded(calls: seq<Call>, p: Policy, session: string, endMs: int)
    requires ValidPolicy(p) && ClockForward(calls)
    ensures var log := LogOf(AfterCalls(calls, p), session);
            InWindow(log, endMs - p.densityWindowMs) - InWindow(log, endMs) <= p.maxOutputs && Unrepeated(log, p)
    ensures |AfterCalls(calls, p).order| <= p.maxSessions
  {
    var nowMs := SomeClock(calls);
    RunsKeepGood(calls, nowMs, p);
    DensityBound(LogOf(AfterCalls(calls, p), session), p, endMs);
  }

  // ---------------------------------------------------------------------------------------
  // The pipeline
  // ---------------------------------------------------------------------------------------

  class BarragePipeline {
    const policy: Policy
    var sessionStates: Dict<string, SessionState>
    var nextId: nat
    ghost var histories: Histories
    ghost var clock: int

    ghost predicate Valid()
      reads this`sessionStates, this`histories, this`clock
    {
      Consistent(sessionStates, histories, clock, policy)
    }

    constructor (policy: Policy)
      requires ValidPolicy(policy)
      ensures Valid() && this.policy == policy && histories == NO_HISTORIES
    {
      this.policy := policy;
      sessionStates, nextId := [], 0;
      histories, clock := NO_HISTORIES, 0;
    }

    /** Pop the heads that have left their windows: the two loops of `_prune_state`. */
    method PruneState(state: SessionState, nowMs: int, ghost log: Log) returns (pruned: SessionState)
      requires Chronological(log) && Represents(state, log, clock, policy) && clock <= nowMs
      ensures Represents(pruned, log, nowMs, policy) && Pruned(pruned, nowMs, policy)
    {
      var recentTexts := PruneTexts(state.recentTexts, nowMs, log);
      var outputTimes := PruneTimes(state.outputTimes, nowMs, log);
      pruned := SessionState(recentTexts, outputTimes);
    }

    method PruneTexts(texts: Dict<string, int>, nowMs: int, ghost log: Log) returns (recentTexts: Dict<string, int>)
      requires Chronological(log) && KeepsTexts(texts, log, clock, policy) && clock <= nowMs
      ensures KeepsTexts(recentTexts, log, nowMs, policy) && |recentTexts| <= |texts|
      ensures forall i :: 0 <= i < |recentTexts| ==> recentTexts[i].1 > nowMs - policy.duplicateWindowMs
    {
      recentTexts := texts;
      var duplicateCutoff := nowMs - policy.duplicateWindowMs;
      while recentTexts != [] && recentTexts[0].1 <= duplicateCutoff
        invariant KeepsTexts(recentTexts, log, nowMs, policy) && |recentTexts| <= |texts|
      {
        assert recentTexts[0] == Entry(log[|log| - |recentTexts|]);
        recentTexts := recentTexts[1..];
      }
      assert forall i :: 0 <= i < |recentTexts| ==> recentTexts[0].1 <= recentTexts[i].1;
    }

    method PruneTimes(times: seq<int>, nowMs: int, ghost log: Log) returns (outputTimes: seq<int>)
      requires Chronological(log) && KeepsTimes(times, log, clock, policy) && clock <= nowMs
      ensures KeepsTimes(outputTimes, log, nowMs, policy)
      ensures forall i :: 0 <= i < |outputTimes| ==> outputTimes[i] > nowMs - policy.densityWindowMs
    {
      outputTimes := times;
      var densityCutoff := nowMs - policy.densityWindowMs;
      while outputTimes != [] && outputTimes[0] <= densityCutoff
        invariant KeepsTimes(outputTimes, log, nowMs, policy)
      {
        assert outputTimes[0] == log[|log| - |outputTimes|].atMs;
        outputTimes := outputTimes[1..];
      }
      assert forall i :: 0 <= i < |outputTimes| ==> outputTimes[0] <= outputTimes[i];
    }

    /** Record an acceptance: the text goes to the end and the oldest texts beyond the cap go. */
    method RecordAcceptance(state: SessionState, text: string, nowMs: int, ghost log: Log) returns (recorded: SessionState)
      requires ValidPolicy(policy) && Represents(state, log, nowMs, policy) && !Has(state.recentTexts, text)
      ensures Represents(recorded, log + [Acceptance(text, nowMs)], nowMs, policy)
    {
      var recentTexts := Put(state.recentTexts, text, nowMs);
      ghost var longer := log + [Acceptance(text, nowMs)];
      while |recentTexts| > policy.maxDuplicateEntries
        invariant KeepsTexts(recentTexts, longer, nowMs, policy)
      {
        recentTexts := recentTexts[1..];
      }
      recorded := SessionState(recentTexts, state.outputTimes + [nowMs]);
    }

    /** `_state_for_acceptance`: the session's windows (new ones for a new session) and the other
        sessions', of which the oldest goes when a new session would exceed the cap. */
    method StateForAcceptance(session: string) returns (state: SessionState, others: Dict<string, SessionState>)
      requires Valid()
      ensures state == if Has(sessionStates, session) then Get(sessionStates, session) else SessionState([], [])
      ensures others == OthersAfter(sessionStates, session, policy)
    {
      state, others := SessionState([], []), sessionStates;
      if Has(sessionStates, session) {
        state := Get(sessionStates, session);
        others := Remove(sessionStates, session);
      } else if |others| >= policy.maxSessions {
        others := others[1..];
      }
    }

    /** Accept a text for a session whose windows have just been pruned. */
    method StoreAccepted(session: string, text: string, nowMs: int)
      requires Valid() && clock == nowMs
      requires !IsDuplicate(LogOf(histories, session), text, nowMs, policy) && !IsDense(LogOf(histories, session), nowMs, policy)
      requires Has(sessionStates, session) ==> !Has(Get(sessionStates, session).recentTexts, text)
      modifies this`sessionStates, this`histories
      ensures Valid() && histories == Extend(old(histories), session, Acceptance(text, nowMs), policy)
    {
      ghost var log := LogOf(histories, session);
      ExtendKeepsGood(histories, session, text, nowMs, policy);
      CurrentState(sessionStates, histories, session, clock, policy);
      var state, others := StateForAcceptance(session);
      var recorded := RecordAcceptance(state, text, nowMs, log);
      StoredRepresents(sessionStates, histories, session, recorded, Acceptance(text, nowMs), clock, policy);
      histories := Extend(histories, session, Acceptance(text, nowMs), policy);
      sessionStates := others + [(session, recorded)];
    }

    /** Judge one candidate from the windows and record it when it is accepted. */
    method ProcessCandidate(session: string, candidate: Candidate, allowed: set<string>, nowMs: int) returns (verdict: Verdict)
      requires Valid() && clock <= nowMs
      modifies this`sessionStates, this`histories, this`clock
      ensures Valid() && clock == nowMs
      ensures verdict == Judge(LogOf(old(histories), session), candidate, allowed, nowMs, policy)
      ensures histories == Followed(old(histories), session, verdict, nowMs, policy)
    {
      Advance(nowMs);
      var content := ContentRejection(candidate, allowed, policy);
      if content.Some? {
        return Rejected(content.value);
      }
      var text := candidate.text.value.text;
      var past := CheckHistory(session, text, nowMs);
      if past.Some? {
        return Rejected(past.value);
      }
      StoreAccepted(session, text, nowMs);
      return Accepted(text);
    }

    /** Prune the session's windows and look the text up in them. */
    method CheckHistory(session: string, text: string, nowMs: int) returns (reason: Option<Reason>)
      requires Valid() && clock == nowMs
      modifies this`sessionStates
      ensures Valid()
      ensures reason == PastReason(LogOf(histories, session), text, nowMs, policy)
      ensures Has(sessionStates, session) && reason.None? ==> !Has(Get(sessionStates, session).recentTexts, text)
    {
      CurrentState(sessionStates, histories, session, clock, policy);
      if !Has(sessionStates, session) {
        NothingPast(text, nowMs, policy);
        return if policy.maxOutputs == 0 then Some(DensityLimitExceeded) else None;
      }
      var pruned := PruneState(Get(sessionStates, session), nowMs, histories.logs[session]);
      reason := Lookup(pruned, text, nowMs, histories.logs[session]);
      ReplaceState(session, pruned);
    }

    /** Look a text up in pruned windows. */
    method Lookup(pruned: SessionState, text: string, nowMs: int, ghost log: Log) returns (reason: Option<Reason>)
      requires Chronological(log) && Represents(pruned, log, nowMs, policy) && Pruned(pruned, nowMs, policy)
      ensures reason == PastReason(log, text, nowMs, policy)
      ensures reason.None? ==> !Has(pruned.recentTexts, text)
    {
      PrunedDecides(pruned, log, nowMs, text, policy);
      if Has(pruned.recentTexts, text) {
        return Some(Duplicate);
      }
      if |pruned.outputTimes| >= policy.maxOutputs {
        return Some(DensityLimitExceeded);
      }
      return None;
    }

    /** The clock moves on; windows stay valid. */
    ghost method Advance(nowMs: int)
      requires Valid() && clock <= nowMs
      modifies this`clock
      ensures Valid() && clock == nowMs
    {
      clock := nowMs;
    }

    /** Pruning happens in place. */
    method ReplaceState(session: string, pruned: SessionState)
      requires Valid() && Has(sessionStates, session) && session in histories.logs
      requires Represents(pruned, histories.logs[session], clock, policy)
      modifies this`sessionStates
      ensures Valid() && Has(sessionStates, session) && Get(sessionStates, session) == pruned
    {
      ReplacedRepresents(sessionStates, histories, session, pruned, clock, policy);
      sessionStates := Put(sessionStates, session, pruned);
    }

    /** `process` */
    method Process(scope: Scope, request: Request, result: Result, nowMs: int)
      returns (events: seq<Event>, rejections: seq<Rejection>, batchRejection: Option<Reason>)
      requires Valid() && clock <= nowMs
      modifies this
      ensures Valid() && old(clock) <= clock <= nowMs
      ensures batchRejection == BatchRejection(scope, request, result, nowMs, policy)
      ensures histories == AfterCall(old(histories), Call.Process(scope, request, result, nowMs), policy)
      ensures batchRejection.Some? ==>
        && events == []
        && |rejections| == |result.candidates|
        && (forall i :: 0 <= i < |rejections| ==> rejections[i] == Rejection(i, result.candidates[i].audienceId, batchRejection.value))
      ensures batchRejection.None? ==>
        var verdicts := Verdicts(old(histories), scope.sessionId, result.candidates, request.allowed, nowMs, policy);
        && events == EventsOf(verdicts, result.candidates, old(nextId), nowMs, request.createdAtMs + policy.ttlMs)
        && rejections == RejectionsOf(verdicts, result.candidates)
    {
      events, rejections := [], [];
      batchRejection := BatchRejection(scope, request, result, nowMs, policy);
      var cs := result.candidates;
      if batchRejection.Some? {
        rejections := seq(|cs|, i requires 0 <= i < |cs| => Rejection(i, cs[i].audienceId, batchRejection.value));
        return;
      }
      events, rejections := ProcessCandidates(scope.sessionId, cs, request, nowMs);
    }

    /** The loop of `process` over the candidates. */
    method ProcessCandidates(session: string, cs: seq<Candidate>, request: Request, nowMs: int)
      returns (events: seq<Event>, rejections: seq<Rejection>)
      requires Valid() && clock <= nowMs
      modifies this
      ensures Valid() && old(clock) <= clock <= nowMs
      ensures BatchSoFar(old(histories), session, cs, request, nowMs, old(nextId), policy, histories, events, rejections)
    {
      events, rejections := [], [];
      for index := 0 to |cs|
        invariant Valid() && old(clock) <= clock <= nowMs && nextId == old(nextId) + |events|
        invariant BatchSoFar(old(histories), session, cs[..index], request, nowMs, old(nextId), policy, histories, events, rejections)
      {
        events, rejections := ProcessNext(session, cs, index, request, nowMs, events, rejections, old(histories), old(nextId));
      }
      assert cs[..|cs|] == cs;
    }

    /** One round of the loop. */
    method ProcessNext(session: string, cs: seq<Candidate>, index: nat, request: Request, nowMs: int, events: seq<Event>, rejections: seq<Rejection>,
                       ghost start: Histories, ghost firstId: nat)
      returns (moreEvents: seq<Event>, moreRejections: seq<Rejection>)
      requires Valid() && clock <= nowMs && nextId == firstId + |events| && index < |cs|
      requires BatchSoFar(start, session, cs[..index], request, nowMs, firstId, policy, histories, events, rejections)
      modifies this
      ensures Valid() && clock == nowMs && nextId == firstId + |moreEvents|
      ensures BatchSoFar(start, session, cs[..index + 1], request, nowMs, firstId, policy, histories, moreEvents, moreRejections)
    {
      ghost var before, id := histories, nextId;
      var verdict := ProcessCandidate(session, cs[index], request.allowed, nowMs);
      moreEvents, moreRejections := Tally(index, cs[index], verdict, request, nowMs, events, rejections);
      BatchGrown(start, session, cs, index, request, nowMs, firstId, policy, before, events, rejections, verdict, id,
                 histories, moreEvents, moreRejections);
    }

    method Tally(index: nat, candidate: Candidate, verdict: Verdict, request: Request, nowMs: int, events: seq<Event>, rejections: seq<Rejection>)
      returns (moreEvents: seq<Event>, moreRejections: seq<Rejection>)
      modifies this`nextId
      ensures nextId == old(nextId) + |moreEvents| - |events|
      ensures moreEvents == TalliedEvents(events, old(nextId), candidate, verdict, nowMs, request.createdAtMs + policy.ttlMs)
      ensures moreRejections == TalliedRejections(rejections, index, candidate, verdict)
    {
      moreEvents, moreRejections := events, rejections;
      if verdict.Accepted? && candidate.audienceId.Some? {
        moreEvents := events + [Event(nextId, candidate.audienceId.value, verdict.text, nowMs, request.createdAtMs + policy.ttlMs)];
        nextId := nextId + 1;
      }
      if verdict.Rejected? {
        moreRejections := rejections + [Rejection(index, candidate.audienceId, verdict.reason)];
      }
    }

    /** `clear_session` */
    method ClearSession(session: string)
      requires Valid()
      modifies this`sessionStates, this`histories
      ensures Valid()
      ensures histories == AfterCall(old(histories), Call.Clear(session), policy)
    {
      ClearedRepresents(sessionStates, histories, session, clock, policy);
      ForgetKeepsGood(histories, session, clock, policy);
      sessionStates, histories := Remove(sessionStates, session), Forget(histories, session);
    }
  }

  /** What a batch has done after the candidates cs. */
  ghost predicate BatchSoFar(start: Histories, session: string, cs: seq<Candidate>, request: Request, nowMs: int, firstId: nat, p: Policy,
                             now: Histories, events: seq<Event>, rejections: seq<Rejection>)
  {
    var verdicts := Verdicts(start, session, cs, request.allowed, nowMs, p);
    && now == Judged(start, session, cs, request.allowed, nowMs, p)
    && events == EventsOf(verdicts, cs, firstId, nowMs, request.createdAtMs + p.ttlMs)
    && rejections == RejectionsOf(verdicts, cs)
  }

  /** The windows represent good histories. */
  ghost predicate Consistent(d: Dict<string, SessionState>, h: Histories, clock: int, p: Policy) {
    ValidPolicy(p) && AllRepresent(d, h, clock, p) && GoodHistories(h, clock, p)
  }

  /** The histories after one more verdict. */
  ghost function Followed(now: Histories, session: string, verdict: Verdict, nowMs: int, p: Policy): Histories {
    if verdict.Accepted? then Extend(now, session, Acceptance(verdict.text, nowMs), p) else now
  }

  ghost function TalliedEvents(events: seq<Event>, id: nat, c: Candidate, verdict: Verdict, nowMs: int, expiresAtMs: int): seq<Event> {
    if verdict.Accepted? && c.audienceId.Some? then events + [Event(id, c.audienceId.value, verdict.text, nowMs, expiresAtMs)] else events
  }

  ghost function TalliedRejections(rejections: seq<Rejection>, index: nat, c: Candidate, verdict: Verdict): seq<Rejection> {
    if verdict.Accepted? then rejections else rejections + [Rejection(index, c.audienceId, verdict.reason)]
  }

  /** One more candidate adds one event or one rejection. */
  lemma BatchGrows(start: Histories, session: string, cs: seq<Candidate>, index: nat, request: Request, nowMs: int, firstId: nat, p: Policy,
                   now: Histories, events: seq<Event>, rejections: seq<Rejection>)
    requires index < |cs|
    requires BatchSoFar(start, session, cs[..index], request, nowMs, firstId, p, now, events, rejections)
    ensures var verdict := Judge(LogOf(now, session), cs[index], request.allowed, nowMs, p);
            && (verdict.Accepted? ==> cs[index].audienceId.Some?)
            && BatchSoFar(start, session, cs[..index + 1], request, nowMs, firstId, p, Followed(now, session, verdict, nowMs, p),
                          TalliedEvents(events, firstId + |events|, cs[index], verdict, nowMs, request.createdAtMs + p.ttlMs),
                          TalliedRejections(rejections, index, cs[index], verdict))
  {
    assert cs[..index + 1][..index] == cs[..index];
    if Judge(LogOf(now, session), cs[index], request.allowed, nowMs, p).Accepted? {
      AcceptedIsAllowed(LogOf(now, session), cs[index], request.allowed, nowMs, p);
    }
    var verdicts := Verdicts(start, session, cs[..index + 1], request.allowed, nowMs, p);
    assert verdicts[..index] == Verdicts(start, session, cs[..index], request.allowed, nowMs, p);
  }

  lemma BatchGrown(start: Histories, session: string, cs: seq<Candidate>, index: nat, request: Request, nowMs: int, firstId: nat, p: Policy,
                   now: Histories, events: seq<Event>, rejections: seq<Rejection>, verdict: Verdict, id: nat,
                   now': Histories, events': seq<Event>, rejections': seq<Rejection>)
    requires index < |cs| && id == firstId + |events|
    requires BatchSoFar(start, session, cs[..index], request, nowMs, firstId, p, now, events, rejections)
    requires verdict == Judge(LogOf(now, session), cs[index], request.allowed, nowMs, p)
    requires now' == Followed(now, session, verdict, nowMs, p)
    requires events' == TalliedEvents(events, id, cs[index], verdict, nowMs, request.createdAtMs + p.ttlMs)
    requires rejections' == TalliedRejections(rejections, index, cs[index], verdict)
    ensures BatchSoFar(start, session, cs[..index + 1], request, nowMs, firstId, p, now', events', rejections')
  {
    BatchGrows(start, session, cs, index, request, nowMs, firstId, p, now, events, rejections);
  }

  lemma NothingPast(text: string, nowMs: int, p: Policy)
    ensures PastReason([], text, nowMs, p) == if p.maxOutputs == 0 then Some(DensityLimitExceeded) else None
  {
  }

  lemma AcceptedIsAllowed(log: Log, c: Candidate, allowed: set<string>, nowMs: int, p: Policy)
    requires Judge(log, c, allowed, nowMs, p).Accepted?
    ensures c.audienceId.Some? && c.audienceId.value in allowed
    ensures c.text.Some? && 1 <= |c.text.value.text| <= p.maxTextLength
  {
  }

  lemma ReplacedRepresents(d: Dict<string, SessionState>, h: Histories, session: string, pruned: SessionState, clock: int, p: Policy)
    requires AllRepresent(d, h, clock, p) && Has(d, session) && session in h.logs
    requires Represents(pruned, h.logs[session], clock, p)
    ensures AllRepresent(Put(d, session, pruned), h, clock, p)
    ensures Has(Put(d, session, pruned), session) && Get(Put(d, session, pruned), session) == pruned
  {
    var r, k := Put(d, session, pruned), Find(d, session);
    assert Keys(r) == Keys(d);
    assert Distinct(r) by {
      PutMap(d, session, pruned);
    }
    FindAt(r, k);
    forall e | e in r
      ensures e.0 in h.logs && Represents(e.1, h.logs[e.0], clock, p)
    {
      var i :| 0 <= i < |r| && r[i] == e;
      assert i != k ==> d[i] in d;
    }
  }

  lemma ClearedRepresents(d: Dict<string, SessionState>, h: Histories, session: string, clock: int, p: Policy)
    requires AllRepresent(d, h, clock, p) && GoodHistories(h, clock, p)
    ensures AllRepresent(Remove(d, session), Forget(h, session), clock, p)
  {
    RemoveIsWithout(d, session);
    RemoveEntries(d, session);
  }

  /** The other sessions' entries once a session is stored as the most recent one. */
  ghost function OthersAfter(d: Dict<string, SessionState>, session: string, p: Policy): Dict<string, SessionState> {
    if Has(d, session) then Remove(d, session)
    else if |d| >= p.maxSessions && d != [] then d[1..]
    else d
  }

  /** Every session's windows represent its log, in the order of last acceptance. */
  ghost predicate AllRepresent(d: Dict<string, SessionState>, h: Histories, clock: int, p: Policy) {
    && Distinct(d)
    && Keys(d) == h.order
    && (forall e :: e in d ==> e.0 in h.logs && Represents(e.1, h.logs[e.0], clock, p))
  }

  lemma CurrentState(d: Dict<string, SessionState>, h: Histories, session: string, clock: int, p: Policy)
    requires AllRepresent(d, h, clock, p) && GoodHistories(h, clock, p)
    ensures Has(d, session) <==> session in h.logs
    ensures Represents(if Has(d, session) then Get(d, session) else SessionState([], []), LogOf(h, session), clock, p)
  {
    KnownIffTracked(d, h, session);
    if Has(d, session) {
      assert d[Find(d, session)] in d;
    }
  }

  /** The entries kept beside the stored session, and the order they give. */
  lemma OthersKept(d: Dict<string, SessionState>, session: string, p: Policy)
    requires ValidPolicy(p) && Distinct(d)
    ensures Distinct(OthersAfter(d, session, p))
    ensures forall e :: e in OthersAfter(d, session, p) ==> e in d && e.0 != session
    ensures !Has(d, session) && |d| >= p.maxSessions ==> forall e :: e in OthersAfter(d, session, p) ==> e.0 != d[0].0
  {
    RemoveEntries(d, session);
    if !Has(d, session) {
      forall i | 0 <= i < |d|
        ensures d[i].0 != session
      {
        FindAt(d, i);
      }
      var others := OthersAfter(d, session, p);
      forall e | e in others
        ensures e in d && e.0 != session
      {
        var i :| 0 <= i < |others| && others[i] == e;
        assert others[i] == d[if |others| < |d| then i + 1 else i];
      }
    }
  }

  lemma OthersOrder(d: Dict<string, SessionState>, h: Histories, session: string, entry: Acceptance, p: Policy)
    requires ValidPolicy(p) && Distinct(d) && Keys(d) == h.order
    requires Has(d, session) <==> session in h.logs
    ensures Keys(OthersAfter(d, session, p)) + [session] == Extend(h, session, entry, p).order
  {
    RemoveIsWithout(d, session);
    if !Has(d, session) && |d| >= p.maxSessions && d != [] {
      assert Keys(d[1..]) == Keys(d)[1..];
    }
  }

  lemma OthersLogs(d: Dict<string, SessionState>, h: Histories, session: string, entry: Acceptance, p: Policy)
    requires ValidPolicy(p) && Distinct(d) && Keys(d) == h.order
    requires Has(d, session) <==> session in h.logs
    ensures forall e :: e in OthersAfter(d, session, p) && e.0 in h.logs ==>
      e.0 in Extend(h, session, entry, p).logs && Extend(h, session, entry, p).logs[e.0] == h.logs[e.0]
  {
    OthersKept(d, session, p);
    if d != [] {
      assert h.order[0] == d[0].0;
    }
  }

  lemma StoredRepresents(d: Dict<string, SessionState>, h: Histories, session: string, recorded: SessionState, entry: Acceptance, clock: int, p: Policy)
    requires ValidPolicy(p) && AllRepresent(d, h, clock, p) && GoodHistories(h, clock, p)
    requires Represents(recorded, LogOf(h, session) + [entry], clock, p)
    ensures AllRepresent(OthersAfter(d, session, p) + [(session, recorded)], Extend(h, session, entry, p), clock, p)
  {
    KnownIffTracked(d, h, session);
    OthersKept(d, session, p);
    OthersOrder(d, h, session, entry, p);
    StoredLast(OthersAfter(d, session, p), session, recorded);
    forall e | e in OthersAfter(d, session, p)
      ensures e.0 in Extend(h, session, entry, p).logs && Represents(e.1, Extend(h, session, entry, p).logs[e.0], clock, p)
    {
      OthersLogs(d, h, session, entry, p);
    }
    assert [] + [entry] == [entry];
  }

  lemma StoredLast(others: Dict<string, SessionState>, session: string, recorded: SessionState)
    requires Distinct(others) && forall e :: e in others ==> e.0 != session
    ensures Distinct(others + [(session, recorded)])
    ensures Keys(others + [(session, recorded)]) == Keys(others) + [session]
    ensures forall e :: e in others + [(session, recorded)] <==> e in others || e == (session, recorded)
  {
    assert forall i :: 0 <= i < |others| ==> others[i] in others;
  }

  lemma KnownIffTracked(d: Dict<string, SessionState>, h: Histories, session: string)
    requires Keys(d) == h.order && forall s :: s in h.order <==> s in h.logs
    ensures Has(d, session) <==> session in h.logs
  {
    if Has(d, session) {
      assert Keys(d)[Find(d, session)] == session;
    }
    if session in h.order {
      var i :| 0 <= i < |h.order| && h.order[i] == session;
      assert d[i].0 == session;
    }
  }
}
