/** The unbounded view of barrage acceptance: one log per tracked session, never pruned. */
module BarrageHistory {
  import opened Options
  import Sequences

  datatype Reason =
    | SessionMismatch | ObservationMismatch | RequestMismatch | ObservationInFuture | Expired
    | AudienceNotInRequest | InvalidText | EmptyText | TextTooLong | BlockedWord
    | Duplicate | DensityLimitExceeded

  /** A candidate text with the Unicode work done: white space stripped, and case folded. */
  datatype Stripped = Stripped(text: string, folded: string)

  /** A model's candidate; None stands for a value that is not a string. */
  datatype Candidate = Candidate(audienceId: Option<string>, text: Option<Stripped>)

  datatype Policy = Policy(
    maxTextLength: nat,
    ttlMs: int,
    blockedWords: set<string>,
    duplicateWindowMs: nat,
    maxDuplicateEntries: nat,
    densityWindowMs: nat,
    maxOutputs: nat,
    maxSessions: nat)

  ghost predicate ValidPolicy(p: Policy) {
    p.maxTextLength >= 1 && p.ttlMs >= 1 && p.maxDuplicateEntries >= 1 && p.densityWindowMs >= 1 && p.maxSessions >= 1
  }

  datatype Acceptance = Acceptance(text: string, atMs: int)

  type Log = seq<Acceptance>

  /** The verdict on one candidate. */
  datatype Verdict = Accepted(text: string) | Rejected(reason: Reason)

  predicate Contains(text: string, word: string) {
    (|word| <= |text| && text[..|word|] == word) || (text != "" && Contains(text[1..], word))
  }

  /** The checks that do not look at history. */
  function ContentRejection(c: Candidate, allowed: set<string>, p: Policy): Option<Reason> {
    if c.audienceId.None? || c.audienceId.value !in allowed then Some(AudienceNotInRequest)
    else if c.text.None? then Some(InvalidText)
    else if c.text.value.text == "" then Some(EmptyText)
    else if |c.text.value.text| > p.maxTextLength then Some(TextTooLong)
    else if exists w :: w in p.blockedWords && Contains(c.text.value.folded, w) then Some(BlockedWord)
    else None
  }

  /** The text is among the last K acceptances and its acceptance is inside the duplicate window. */
  ghost predicate IsDuplicate(log: Log, text: string, nowMs: int, p: Policy) {
    exists i :: 0 <= i < |log| && |log| - p.maxDuplicateEntries <= i
                && log[i].text == text && log[i].atMs > nowMs - p.duplicateWindowMs
  }

  /** The acceptances inside the density window that ends now. */
  ghost function InWindow(log: Log, afterMs: int): nat {
    if log == [] then 0 else InWindow(log[..|log| - 1], afterMs) + if log[|log| - 1].atMs > afterMs then 1 else 0
  }

  ghost predicate IsDense(log: Log, nowMs: int, p: Policy) {
    InWindow(log, nowMs - p.densityWindowMs) >= p.maxOutputs
  }

  /** Why the history of the session rules the text out, if it does. */
  ghost function PastReason(log: Log, text: string, nowMs: int, p: Policy): Option<Reason> {
    if IsDuplicate(log, text, nowMs, p) then Some(Duplicate)
    else if IsDense(log, nowMs, p) then Some(DensityLimitExceeded)
    else None
  }

  /** The verdict by the full history of the session. */
  ghost function Judge(log: Log, c: Candidate, allowed: set<string>, nowMs: int, p: Policy): Verdict {
    var content := ContentRejection(c, allowed, p);
    if content.Some? then Rejected(content.value)
    else
      var past := PastReason(log, c.text.value.text, nowMs, p);
      if past.Some? then Rejected(past.value) else Accepted(c.text.value.text)
  }

  /** The histories of the tracked sessions, least recently accepting first. */
  datatype Histories = Histories(order: seq<string>, logs: map<string, Log>)

  ghost function LogOf(h: Histories, session: string): Log {
    if session in h.logs then h.logs[session] else []
  }

  ghost function Without(order: seq<string>, session: string): seq<string> {
    var i := Sequences.IndexOf(order, session);
    if i < |order| then order[..i] + order[i + 1..] else order
  }

  /** An acceptance makes its session the most recent one; a new session may push out the oldest,
      whose history is forgotten. */
  ghost function Extend(h: Histories, session: string, entry: Acceptance, p: Policy): Histories {
    if session in h.logs then
      Histories(Without(h.order, session) + [session], h.logs[session := h.logs[session] + [entry]])
    else if |h.order| >= p.maxSessions && h.order != [] then
      Histories(h.order[1..] + [session], (h.logs - {h.order[0]})[session := [entry]])
    else
      Histories(h.order + [session], h.logs[session := [entry]])
  }

  /** A stopped session's history is forgotten. */
  ghost function Forget(h: Histories, session: string): Histories {
    Histories(Without(h.order, session), h.logs - {session})
  }

  lemma ForgetKeepsGood(h: Histories, session: string, nowMs: int, p: Policy)
    requires GoodHistories(h, nowMs, p)
    ensures GoodHistories(Forget(h, session), nowMs, p)
  {
    WithoutMembers(h.order, session);
  }

  ghost function Verdicts(h: Histories, session: string, cs: seq<Candidate>, allowed: set<string>, nowMs: int, p: Policy): (r: seq<Verdict>)
    ensures |r| == |cs|
  {
    if cs == [] then []
    else
      var front := cs[..|cs| - 1];
      var before := Judged(h, session, front, allowed, nowMs, p);
      Verdicts(h, session, front, allowed, nowMs, p) + [Judge(LogOf(before, session), cs[|cs| - 1], allowed, nowMs, p)]
  }

  /** The histories after a batch. */
  ghost function Judged(h: Histories, session: string, cs: seq<Candidate>, allowed: set<string>, nowMs: int, p: Policy): Histories {
    if cs == [] then h
    else
      var before := Judged(h, session, cs[..|cs| - 1], allowed, nowMs, p);
      var v := Judge(LogOf(before, session), cs[|cs| - 1], allowed, nowMs, p);
      if v.Accepted? then Extend(before, session, Acceptance(v.text, nowMs), p) else before
  }

  // ---------------------------------------------------------------------------------------
  // What acceptance guarantees
  // ---------------------------------------------------------------------------------------

  ghost predicate Chronological(log: Log) {
    forall i, j :: 0 <= i < j < |log| ==> log[i].atMs <= log[j].atMs
  }

  /** Any maxOutputs + 1 consecutive acceptances span at least the density window. */
  ghost predicate Spaced(log: Log, p: Policy) {
    forall i :: 0 <= i && i + p.maxOutputs < |log| ==> log[i + p.maxOutputs].atMs - log[i].atMs >= p.densityWindowMs
  }

  /** Equal texts are a duplicate window or more than K acceptances apart. */
  ghost predicate Unrepeated(log: Log, p: Policy) {
    forall i, j :: 0 <= i < j < |log| && log[i].text == log[j].text
      ==> log[j].atMs - log[i].atMs >= p.duplicateWindowMs || j - i > p.maxDuplicateEntries
  }

  ghost predicate GoodLog(log: Log, nowMs: int, p: Policy) {
    Chronological(log) && (forall a :: a in log ==> a.atMs <= nowMs) && Spaced(log, p) && Unrepeated(log, p)
  }

  /** In a chronological log the entries after a moment are a suffix. */
  lemma {:induction false} WindowIsSuffix(log: Log, afterMs: int)
    requires Chronological(log)
    ensures InWindow(log, afterMs) <= |log|
    ensures forall i :: 0 <= i < |log| ==> (log[i].atMs > afterMs <==> i >= |log| - InWindow(log, afterMs))
  {
    if log != [] {
      var front := log[..|log| - 1];
      WindowIsSuffix(front, afterMs);
      if log[|log| - 1].atMs <= afterMs {
        NoneAfter(front, afterMs);
      }
    }
  }

  lemma {:induction false} NoneAfter(log: Log, afterMs: int)
    requires forall i :: 0 <= i < |log| ==> log[i].atMs <= afterMs
    ensures InWindow(log, afterMs) == 0
  {
    if log != [] {
      NoneAfter(log[..|log| - 1], afterMs);
    }
  }

  lemma AcceptKeepsSpaced(log: Log, text: string, nowMs: int, p: Policy)
    requires Chronological(log) && Spaced(log, p) && !IsDense(log, nowMs, p)
    ensures Spaced(log + [Acceptance(text, nowMs)], p)
  {
    var longer := log + [Acceptance(text, nowMs)];
    WindowIsSuffix(log, nowMs - p.densityWindowMs);
    forall i | 0 <= i && i + p.maxOutputs < |longer|
      ensures longer[i + p.maxOutputs].atMs - longer[i].atMs >= p.densityWindowMs
    {
      if i + p.maxOutputs < |log| {
        SpacedAt(log, p, i);
      } else if p.maxOutputs > 0 {
        assert log[i].atMs <= nowMs - p.densityWindowMs;
      }
    }
  }

  lemma AcceptKeepsUnrepeated(log: Log, text: string, nowMs: int, p: Policy)
    requires Unrepeated(log, p) && !IsDuplicate(log, text, nowMs, p)
    ensures Unrepeated(log + [Acceptance(text, nowMs)], p)
  {
    var longer := log + [Acceptance(text, nowMs)];
    forall i, j | 0 <= i < j < |longer| && longer[i].text == longer[j].text
      ensures longer[j].atMs - longer[i].atMs >= p.duplicateWindowMs || j - i > p.maxDuplicateEntries
    {
      assert longer[i] == log[i];
      if j < |log| {
        assert longer[j] == log[j];
      }
    }
  }

  /** An accepted text keeps the log good, whatever the time of the next batch. */
  lemma AcceptKeepsGood(log: Log, text: string, nowMs: int, p: Policy)
    requires GoodLog(log, nowMs, p)
    requires !IsDuplicate(log, text, nowMs, p) && !IsDense(log, nowMs, p)
    ensures GoodLog(log + [Acceptance(text, nowMs)], nowMs, p)
  {
    AcceptKeepsSpaced(log, text, nowMs, p);
    AcceptKeepsUnrepeated(log, text, nowMs, p);
    var longer := log + [Acceptance(text, nowMs)];
    assert forall i :: 0 <= i < |log| ==> longer[i] == log[i] && log[i] in log;
  }

  /** At most maxOutputs acceptances of a spaced log fall into any interval as long as the density window. */
  lemma DensityBound(log: Log, p: Policy, endMs: int)
    requires Chronological(log) && Spaced(log, p)
    ensures InWindow(log, endMs - p.densityWindowMs) - InWindow(log, endMs) <= p.maxOutputs
  {
    WindowIsSuffix(log, endMs - p.densityWindowMs);
    WindowIsSuffix(log, endMs);
    var first := |log| - InWindow(log, endMs - p.densityWindowMs);
    var last := |log| - InWindow(log, endMs);
    if last - first > p.maxOutputs {
      SpacedAt(log, p, first);
    }
  }

  lemma SpacedAt(log: Log, p: Policy, i: nat)
    requires Spaced(log, p) && i + p.maxOutputs < |log|
    ensures log[i + p.maxOutputs].atMs - log[i].atMs >= p.densityWindowMs
  {
  }

  ghost predicate GoodHistories(h: Histories, nowMs: int, p: Policy) {
    && (forall s :: s in h.logs ==> GoodLog(h.logs[s], nowMs, p))
    && (forall s :: s in h.order <==> s in h.logs)
    && (forall i, j :: 0 <= i < j < |h.order| ==> h.order[i] != h.order[j])
    && |h.order| <= p.maxSessions
  }

  lemma WithoutMembers(order: seq<string>, session: string)
    requires forall i, j :: 0 <= i < j < |order| ==> order[i] != order[j]
    ensures var w := Without(order, session);
            && (forall s :: s in w <==> s in order && s != session)
            && (forall i, j :: 0 <= i < j < |w| ==> w[i] != w[j])
            && |w| == if session in order then |order| - 1 else |order|
  {
    var k, w := Sequences.IndexOf(order, session), Without(order, session);
    if k < |order| {
      assert forall j :: 0 <= j < |w| ==> w[j] == order[if j < k then j else j + 1];
      forall s | s in order && s != session
        ensures s in w
      {
        var i :| 0 <= i < |order| && order[i] == s;
        assert w[if i < k then i else i - 1] == s;
      }
    }
  }

  lemma ExtendKeepsGood(h: Histories, session: string, text: string, nowMs: int, p: Policy)
    requires ValidPolicy(p) && GoodHistories(h, nowMs, p)
    requires !IsDuplicate(LogOf(h, session), text, nowMs, p) && !IsDense(LogOf(h, session), nowMs, p)
    ensures GoodHistories(Extend(h, session, Acceptance(text, nowMs), p), nowMs, p)
  {
    var entry := Acceptance(text, nowMs);
    AcceptKeepsGood(LogOf(h, session), text, nowMs, p);
    assert [] + [entry] == [entry];
    ExtendedOrder(h, session, entry, nowMs, p);
  }

  /** The order still lists every tracked session once. */
  lemma ExtendedOrder(h: Histories, session: string, entry: Acceptance, nowMs: int, p: Policy)
    requires ValidPolicy(p) && GoodHistories(h, nowMs, p)
    ensures var e := Extend(h, session, entry, p);
            && (forall s :: s in e.order <==> s in e.logs)
            && (forall i, j :: 0 <= i < j < |e.order| ==> e.order[i] != e.order[j])
            && |e.order| <= p.maxSessions
  {
    WithoutMembers(h.order, session);
    if session !in h.logs && |h.order| >= p.maxSessions && h.order != [] {
      assert h.order == [h.order[0]] + h.order[1..];
    }
  }

  /** A batch keeps every tracked history good. */
  lemma {:induction false} JudgedKeepsGood(h: Histories, session: string, cs: seq<Candidate>, allowed: set<string>, nowMs: int, p: Policy)
    requires ValidPolicy(p) && GoodHistories(h, nowMs, p)
    ensures GoodHistories(Judged(h, session, cs, allowed, nowMs, p), nowMs, p)
  {
    if cs != [] {
      var front := cs[..|cs| - 1];
      JudgedKeepsGood(h, session, front, allowed, nowMs, p);
      var before := Judged(h, session, front, allowed, nowMs, p);
      var v := Judge(LogOf(before, session), cs[|cs| - 1], allowed, nowMs, p);
      if v.Accepted? {
        ExtendKeepsGood(before, session, v.text, nowMs, p);
      }
    }
  }
}
