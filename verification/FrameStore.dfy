/** The bounded store of ephemeral frames: eviction of the least recently used unretained frame. */
module FrameStore {
  import opened Options
  import opened OrderedDict

  datatype Limits = Limits(maxFrames: nat, maxFrameBytes: nat, maxTotalBytes: nat)

  datatype Frame = Frame(sessionId: string, frameId: string, inputId: string, capturedAtMs: int, mimeType: string, body: seq<int>)

  datatype FrameInput = FrameInput(sessionId: string, inputId: string, capturedAtMs: int, mimeType: string, body: seq<int>)

  datatype FrameRef = FrameRef(frameId: string, createdAtMs: int, mimeType: string, dataRef: string)

  datatype Stored = Stored(resolved: Frame, retained: nat)

  type Frames = Dict<string, Stored>

  datatype StoreResult = Accepted(frame: FrameRef) | TooLarge | NotActive | DuplicateInput

  function DataRef(frameId: string): string { "advx-frame:" + frameId }

  function Resolved(input: FrameInput, frameId: string): Frame {
    Frame(input.sessionId, frameId, input.inputId, input.capturedAtMs, input.mimeType, input.body)
  }

  predicate Matches(resolved: Frame, session: string, frame: FrameRef) {
    && resolved.sessionId == session
    && resolved.frameId == frame.frameId
    && resolved.mimeType == frame.mimeType
    && resolved.capturedAtMs == frame.createdAtMs
  }

  // ---------------------------------------------------------------------------------------
  // Accounting
  // ---------------------------------------------------------------------------------------

  function TotalBytes(d: Frames): nat {
    if d == [] then 0 else |d[0].1.resolved.body| + TotalBytes(d[1..])
  }

  lemma {:induction false} TotalBytesConcat(a: Frames, b: Frames)
    ensures TotalBytes(a + b) == TotalBytes(a) + TotalBytes(b)
  {
    if a == [] {
      assert a + b == b;
    } else {
      assert (a + b)[1..] == a[1..] + b;
      TotalBytesConcat(a[1..], b);
    }
  }

  lemma TotalBytesWithout(d: Frames, i: nat)
    requires i < |d|
    ensures TotalBytes(d[..i] + d[i + 1..]) == TotalBytes(d) - |d[i].1.resolved.body|
  {
    assert d == d[..i] + ([d[i]] + d[i + 1..]);
    TotalBytesConcat(d[..i], [d[i]] + d[i + 1..]);
    TotalBytesConcat(d[..i], d[i + 1..]);
    assert ([d[i]] + d[i + 1..])[1..] == d[i + 1..];
  }

  predicate WithinLimits(d: Frames, limits: Limits) {
    |d| <= limits.maxFrames && TotalBytes(d) <= limits.maxTotalBytes
  }

  predicate AllRetained(d: Frames) {
    forall i :: 0 <= i < |d| ==> d[i].1.retained > 0
  }

  // ---------------------------------------------------------------------------------------
  // Eviction
  // ---------------------------------------------------------------------------------------

  /** The position of the least recently used unretained frame, or |d|. */
  function FirstUnretained(d: Frames): (i: nat)
    ensures i <= |d|
    ensures i < |d| ==> d[i].1.retained == 0
    ensures forall j :: 0 <= j < i ==> d[j].1.retained > 0
  {
    if d == [] || d[0].1.retained == 0 then 0 else 1 + FirstUnretained(d[1..])
  }

  /** The store without its k least recently used unretained frames. */
  ghost function DropUnretained(d: Frames, k: nat): Frames {
    if d == [] || k == 0 then d
    else if d[0].1.retained == 0 then DropUnretained(d[1..], k - 1)
    else [d[0]] + DropUnretained(d[1..], k)
  }

  /** kept is what eviction must leave of d: the fewest least recently used unretained frames are
      gone so that both limits hold, or all unretained frames if none of that suffices. */
  ghost predicate IsEvicted(d: Frames, kept: Frames, limits: Limits) {
    exists k :: IsEvictedBy(d, kept, limits, k)
  }

  ghost predicate IsEvictedBy(d: Frames, kept: Frames, limits: Limits, k: nat) {
    && kept == DropUnretained(d, k)
    && (WithinLimits(kept, limits) || AllRetained(kept))
    && (forall j: nat :: j < k ==> !WithinLimits(DropUnretained(d, j), limits) && !AllRetained(DropUnretained(d, j)))
  }

  /** d without its least recently used unretained frame. */
  ghost function WithoutFirst(d: Frames): Frames {
    var i := FirstUnretained(d);
    if i < |d| then d[..i] + d[i + 1..] else d
  }

  lemma DropMiddle<T>(s: seq<T>, i: nat)
    requires 0 < i < |s|
    ensures s[..i] + s[i + 1..] == [s[0]] + (s[1..][..i - 1] + s[1..][i..])
  {
  }

  lemma WithoutFirstCons(d: Frames)
    requires d != []
    ensures d[0].1.retained == 0 ==> WithoutFirst(d) == d[1..]
    ensures d[0].1.retained > 0 ==> WithoutFirst(d) == [d[0]] + WithoutFirst(d[1..])
  {
    var i := FirstUnretained(d);
    if 0 < i < |d| {
      DropMiddle(d, i);
    }
  }

  lemma DropBehindRetained(d: Frames, k: nat)
    requires d != [] && d[0].1.retained > 0
    requires DropUnretained(d[1..], k + 1) == WithoutFirst(DropUnretained(d[1..], k))
    ensures DropUnretained(d, k + 1) == WithoutFirst(DropUnretained(d, k))
  {
    var rest := DropUnretained(d[1..], k);
    assert DropUnretained(d, k) == [d[0]] + rest;
    WithoutFirstCons([d[0]] + rest);
    assert ([d[0]] + rest)[1..] == rest;
  }

  /** Dropping one more frame drops the first unretained one of what was left. */
  lemma {:induction false} DropOneMore(d: Frames, k: nat)
    ensures DropUnretained(d, k + 1) == WithoutFirst(DropUnretained(d, k))
  {
    if d != [] {
      WithoutFirstCons(d);
      if d[0].1.retained > 0 {
        DropOneMore(d[1..], k);
        DropBehindRetained(d, k);
      } else if k == 0 {
        assert DropUnretained(d[1..], 0) == d[1..];
      } else {
        DropOneMore(d[1..], k - 1);
      }
    }
  }

  /** k frames were evicted from d, each because a limit was still exceeded, leaving left. */
  ghost predicate Evicting(d: Frames, left: Frames, limits: Limits, k: nat) {
    && left == DropUnretained(d, k)
    && (forall j: nat :: j < k ==> !WithinLimits(DropUnretained(d, j), limits) && !AllRetained(DropUnretained(d, j)))
  }

  lemma EvictDone(d: Frames, left: Frames, limits: Limits, k: nat)
    requires Evicting(d, left, limits, k) && (WithinLimits(left, limits) || AllRetained(left))
    ensures IsEvicted(d, left, limits)
  {
    assert IsEvictedBy(d, left, limits, k);
  }

  lemma EvictNext(d: Frames, left: Frames, limits: Limits, k: nat)
    requires Evicting(d, left, limits, k) && !WithinLimits(left, limits)
    requires FirstUnretained(left) < |left|
    ensures Evicting(d, left[..FirstUnretained(left)] + left[FirstUnretained(left) + 1..], limits, k + 1)
  {
    DropOneMore(d, k);
    assert left[FirstUnretained(left)].1.retained == 0;
    forall j: nat | j < k + 1
      ensures !WithinLimits(DropUnretained(d, j), limits) && !AllRetained(DropUnretained(d, j))
    {
      assert j == k || j < k;
    }
  }

  /** Eviction only removes unretained frames and keeps the order of the others. */
  lemma {:induction false} DropKeepsRetained(d: Frames, k: nat)
    ensures forall e :: e in DropUnretained(d, k) ==> e in d
    ensures forall e :: e in d && e.1.retained > 0 ==> e in DropUnretained(d, k)
    ensures Distinct(d) ==> Distinct(DropUnretained(d, k))
    ensures |DropUnretained(d, k)| <= |d|
  {
    if d != [] && k != 0 {
      assert d == [d[0]] + d[1..];
      DropKeepsRetained(d[1..], if d[0].1.retained == 0 then k - 1 else k);
      if Distinct(d) && d[0].1.retained > 0 {
        var rest := DropUnretained(d[1..], k);
        forall j | 0 <= j < |rest|
          ensures rest[j].0 != d[0].0
        {
          assert rest[j] in d[1..];
          var i :| 1 <= i < |d| && d[i] == rest[j];
        }
      }
    }
  }

  /** The result of eviction is unique. */
  lemma EvictedUnique(d: Frames, a: Frames, b: Frames, limits: Limits)
    requires IsEvicted(d, a, limits) && IsEvicted(d, b, limits)
    ensures a == b
  {
    var j :| IsEvictedBy(d, a, limits, j);
    var k :| IsEvictedBy(d, b, limits, k);
  }

  // ---------------------------------------------------------------------------------------
  // Retention
  // ---------------------------------------------------------------------------------------

  ghost predicate Available(d: Frames, session: string, frame: FrameRef) {
    Has(d, frame.dataRef) && Matches(Get(d, frame.dataRef).resolved, session, frame)
  }

  /** Count one more retain and make the frame the most recently used. */
  function Retain(d: Frames, dataRef: string): Frames
    requires Has(d, dataRef)
  {
    var s := Get(d, dataRef);
    Remove(d, dataRef) + [(dataRef, s.(retained := s.retained + 1))]
  }

  /** Count one retain less, not below zero; the order stays. */
  function Release(d: Frames, session: string, frame: FrameRef): Frames {
    if Has(d, frame.dataRef) && Matches(Get(d, frame.dataRef).resolved, session, frame) then
      var s := Get(d, frame.dataRef);
      Put(d, frame.dataRef, s.(retained := if s.retained > 0 then s.retained - 1 else 0))
    else d
  }

  /** The retain count of a data ref; 0 when the frame is gone. */
  function Count(d: Frames, dataRef: string): nat {
    if Has(d, dataRef) then Get(d, dataRef).retained else 0
  }

  /** How often a data ref occurs. */
  ghost function Occurrences(frames: seq<FrameRef>, dataRef: string): nat {
    if frames == [] then 0
    else Occurrences(frames[..|frames| - 1], dataRef) + if frames[|frames| - 1].dataRef == dataRef then 1 else 0
  }

  ghost function RetainAll(d: Frames, frames: seq<FrameRef>): Frames {
    if frames == [] then d
    else
      var front := RetainAll(d, frames[..|frames| - 1]);
      var r := frames[|frames| - 1].dataRef;
      if Has(front, r) then Retain(front, r) else front
  }

  ghost function ReleaseAll(d: Frames, session: string, frames: seq<FrameRef>): Frames {
    if frames == [] then d else Release(ReleaseAll(d, session, frames[..|frames| - 1]), session, frames[|frames| - 1])
  }

  /** d' holds the frames of d, with other retention counts and perhaps in another order. */
  ghost predicate SameFrames(d: Frames, d': Frames) {
    && Distinct(d')
    && TotalBytes(d') == TotalBytes(d) && |d'| == |d|
    && (forall r :: Has(d', r) <==> Has(d, r))
    && (forall r :: Has(d, r) ==> Get(d', r).resolved == Get(d, r).resolved)
  }

  lemma RetainKeepsBytes(d: Frames, r: string)
    requires Distinct(d) && Has(d, r)
    ensures TotalBytes(Retain(d, r)) == TotalBytes(d) && |Retain(d, r)| == |d|
  {
    var s := Get(d, r);
    TotalBytesWithout(d, Find(d, r));
    TotalBytesConcat(Remove(d, r), [(r, s.(retained := s.retained + 1))]);
  }

  lemma RetainOne(d: Frames, r: string)
    requires Distinct(d) && Has(d, r)
    ensures SameFrames(d, Retain(d, r))
    ensures forall x :: Count(Retain(d, r), x) == Count(d, x) + if x == r then 1 else 0
  {
    var d' := Retain(d, r);
    RetainEntries(d, r);
    RetainKeepsBytes(d, r);
    forall x | x != r
      ensures Has(d', x) <==> Has(d, x)
      ensures Has(d, x) ==> Get(d', x) == Get(d, x)
    {
      KeptEntry(d, d', r, x);
    }
  }

  lemma RetainEntries(d: Frames, r: string)
    requires Distinct(d) && Has(d, r)
    ensures var d' := Retain(d, r);
            && Distinct(d') && Has(d', r) && Get(d', r) == Get(d, r).(retained := Get(d, r).retained + 1)
            && forall e: (string, Stored) :: e.0 != r ==> (e in d' <==> e in d)
  {
    var d' := Retain(d, r);
    RemoveEntries(d, r);
    forall j | 0 <= j < |Remove(d, r)|
      ensures Remove(d, r)[j].0 != r
    {
      assert Remove(d, r)[j] in Remove(d, r);
    }
    FindAt(d', |d'| - 1);
  }

  lemma KeptEntry(d: Frames, d': Frames, r: string, x: string)
    requires Distinct(d) && Distinct(d') && x != r
    requires forall e: (string, Stored) :: e.0 != r ==> (e in d' <==> e in d)
    ensures Has(d', x) <==> Has(d, x)
    ensures Has(d, x) ==> Get(d', x) == Get(d, x)
  {
    if Has(d, x) {
      EntryGet(d, x, Get(d, x));
      EntryGet(d', x, Get(d, x));
    }
    if Has(d', x) {
      EntryGet(d', x, Get(d', x));
      EntryGet(d, x, Get(d', x));
    }
  }

  lemma PutSame(d: Frames, r: string, s': Stored)
    requires Distinct(d) && Has(d, r) && s'.resolved == Get(d, r).resolved
    ensures SameFrames(d, Put(d, r, s'))
    ensures forall x :: Count(Put(d, r, s'), x) == if x == r then s'.retained else Count(d, x)
  {
    var d', i := Put(d, r, s'), Find(d, r);
    PutDistinct(d, r, s');
    PutBytes(d, i, s');
    forall x
      ensures Has(d', x) <==> Has(d, x)
      ensures Has(d, x) ==> Get(d', x) == if x == r then s' else Get(d, x)
    {
      PutGet(d, r, s', x);
    }
  }

  lemma PutBytes(d: Frames, i: nat, s': Stored)
    requires i < |d| && s'.resolved == d[i].1.resolved
    ensures TotalBytes(d[i := (d[i].0, s')]) == TotalBytes(d)
  {
    var d' := d[i := (d[i].0, s')];
    TotalBytesWithout(d, i);
    TotalBytesWithout(d', i);
    assert d'[..i] + d'[i + 1..] == d[..i] + d[i + 1..];
  }

  lemma ReleaseOne(d: Frames, session: string, frame: FrameRef)
    requires Distinct(d)
    ensures SameFrames(d, Release(d, session, frame))
    ensures forall x ::
      Count(Release(d, session, frame), x) ==
      if x == frame.dataRef && Available(d, session, frame) && Count(d, x) > 0 then Count(d, x) - 1 else Count(d, x)
  {
    if Available(d, session, frame) {
      var s := Get(d, frame.dataRef);
      PutSame(d, frame.dataRef, s.(retained := if s.retained > 0 then s.retained - 1 else 0));
    }
  }

  /** Retaining a wave adds one count per occurrence and changes nothing else about the frames. */
  lemma {:induction false} RetainAllCounts(d: Frames, frames: seq<FrameRef>)
    requires Distinct(d) && forall f :: f in frames ==> Has(d, f.dataRef)
    ensures SameFrames(d, RetainAll(d, frames))
    ensures forall r :: Count(RetainAll(d, frames), r) == Count(d, r) + Occurrences(frames, r)
  {
    if frames != [] {
      var n := |frames| - 1;
      assert frames[n] in frames;
      RetainAllCounts(d, frames[..n]);
      RetainOne(RetainAll(d, frames[..n]), frames[n].dataRef);
    }
  }

  /** Releasing takes away at most one count per occurrence. */
  lemma {:induction false} ReleaseAllCounts(d: Frames, session: string, frames: seq<FrameRef>)
    requires Distinct(d)
    ensures SameFrames(d, ReleaseAll(d, session, frames))
    ensures forall r :: Count(d, r) - Occurrences(frames, r) <= Count(ReleaseAll(d, session, frames), r) <= Count(d, r)
  {
    if frames != [] {
      var n := |frames| - 1;
      ReleaseAllCounts(d, session, frames[..n]);
      ReleaseOne(ReleaseAll(d, session, frames[..n]), session, frames[n]);
    }
  }

  lemma {:induction false} ReleaseAllExact(d: Frames, session: string, frames: seq<FrameRef>)
    requires Distinct(d) && forall f :: f in frames ==> Available(d, session, f)
    requires forall r :: Count(d, r) >= Occurrences(frames, r)
    ensures forall r :: Count(ReleaseAll(d, session, frames), r) == Count(d, r) - Occurrences(frames, r)
  {
    if frames != [] {
      var n := |frames| - 1;
      var before := ReleaseAll(d, session, frames[..n]);
      assert frames[n] in frames;
      ReleaseAllExact(d, session, frames[..n]);
      ReleaseAllCounts(d, session, frames[..n]);
      assert Available(before, session, frames[n]);
      ReleaseOne(before, session, frames[n]);
    }
  }

  /** Releasing what was just retained restores every count. */
  lemma RetainThenRelease(d: Frames, session: string, frames: seq<FrameRef>)
    requires Distinct(d) && forall f :: f in frames ==> Available(d, session, f)
    ensures SameFrames(d, ReleaseAll(RetainAll(d, frames), session, frames))
    ensures forall r :: Count(ReleaseAll(RetainAll(d, frames), session, frames), r) == Count(d, r)
  {
    RetainAllCounts(d, frames);
    var held := RetainAll(d, frames);
    forall f | f in frames
      ensures Available(held, session, f)
    {
      assert Has(held, f.dataRef);
    }
    ReleaseAllExact(held, session, frames);
    ReleaseAllCounts(held, session, frames);
  }

  // ---------------------------------------------------------------------------------------
  // The store
  // ---------------------------------------------------------------------------------------

  /** The byte total and the input ids agree with the stored frames; input ids are distinct. */
  ghost predicate Accounted(d: Frames, inputIds: set<string>, totalBytes: int) {
    && Distinct(d)
    && totalBytes == TotalBytes(d)
    && (forall e :: e in d ==> e.0 == DataRef(e.1.resolved.frameId) && e.1.resolved.inputId in inputIds)
    && (forall e, f :: e in d && f in d && e.1.resolved.inputId == f.1.resolved.inputId ==> e == f)
    && (forall x :: x in inputIds ==> exists e :: e in d && e.1.resolved.inputId == x)
  }

  lemma EvictOne(d: Frames, inputIds: set<string>, totalBytes: int, i: nat)
    requires Accounted(d, inputIds, totalBytes) && i < |d|
    ensures Accounted(d[..i] + d[i + 1..], inputIds - {d[i].1.resolved.inputId}, totalBytes - |d[i].1.resolved.body|)
  {
    var rest := d[..i] + d[i + 1..];
    TotalBytesWithout(d, i);
    FindAt(d, i);
    assert rest == Remove(d, d[i].0);
    RemoveEntries(d, d[i].0);
    assert d[i] in d;
    forall e | e in d && e != d[i]
      ensures e.0 != d[i].0
    {
      var j :| 0 <= j < |d| && d[j] == e;
    }
  }

  lemma AddOne(d: Frames, inputIds: set<string>, totalBytes: int, dataRef: string, stored: Stored)
    requires Accounted(d, inputIds, totalBytes) && !Has(d, dataRef)
    requires dataRef == DataRef(stored.resolved.frameId) && stored.resolved.inputId !in inputIds
    ensures Accounted(d + [(dataRef, stored)], inputIds + {stored.resolved.inputId}, totalBytes + |stored.resolved.body|)
    ensures Count(d + [(dataRef, stored)], dataRef) == stored.retained
    ensures forall r :: r != dataRef ==> Count(d + [(dataRef, stored)], r) == Count(d, r)
  {
    var longer := d + [(dataRef, stored)];
    Appended(d, dataRef, stored);
    TotalBytesConcat(d, [(dataRef, stored)]);
    assert longer[|d|] == (dataRef, stored);
  }

  lemma SameFramesAccounted(d: Frames, d': Frames, inputIds: set<string>, totalBytes: int)
    requires Accounted(d, inputIds, totalBytes) && SameFrames(d, d')
    ensures Accounted(d', inputIds, totalBytes)
    ensures forall e :: e in d' ==> exists f :: f in d && f.0 == e.0 && f.1.resolved == e.1.resolved
  {
    forall e | e in d'
      ensures Has(d, e.0) && (e.0, Get(d, e.0)) in d && Get(d, e.0).resolved == e.1.resolved && Has(d', e.0) && Get(d', e.0) == e.1
    {
      EntryGet(d', e.0, e.1);
      EntryGet(d, e.0, Get(d, e.0));
    }
    forall x | x in inputIds
      ensures exists e :: e in d' && e.1.resolved.inputId == x
    {
      var e :| e in d && e.1.resolved.inputId == x;
      EntryGet(d, e.0, e.1);
      EntryGet(d', e.0, Get(d', e.0));
    }
  }

  /** A store in which no count went down is within its limits or fully retained if it was before. */
  lemma StillBounded(d: Frames, d': Frames, limits: Limits)
    requires Distinct(d) && SameFrames(d, d') && (WithinLimits(d, limits) || AllRetained(d))
    requires forall r :: Count(d', r) >= Count(d, r)
    ensures WithinLimits(d', limits) || AllRetained(d')
  {
    if AllRetained(d) {
      forall i | 0 <= i < |d'|
        ensures d'[i].1.retained > 0
      {
        FindAt(d', i);
        assert Has(d, d'[i].0);
        assert d[Find(d, d'[i].0)].1.retained > 0;
        assert Count(d', d'[i].0) == d'[i].1.retained;
      }
    }
  }

  /** Eviction removes unretained frames only, so no retain count changes. */
  lemma EvictedCounts(d: Frames, d': Frames, limits: Limits)
    requires Distinct(d) && IsEvicted(d, d', limits)
    ensures WithinLimits(d', limits) || AllRetained(d')
    ensures forall e :: e in d' ==> e in d
    ensures forall e :: e in d && e.1.retained > 0 ==> e in d'
    ensures forall r :: Count(d', r) == Count(d, r)
  {
    var k :| IsEvictedBy(d, d', limits, k);
    DropKeepsRetained(d, k);
    forall r
      ensures Count(d', r) == Count(d, r)
    {
      if Has(d', r) {
        EntryGet(d', r, Get(d', r));
        EntryGet(d, r, Get(d', r));
      }
      if Has(d, r) {
        EntryGet(d, r, Get(d, r));
        EntryGet(d', r, Get(d, r));
      }
    }
  }

  lemma Moved(d: Frames, r: string)
    requires Distinct(d) && Has(d, r)
    ensures SameFrames(d, MoveToEnd(d, r))
    ensures forall x :: Count(MoveToEnd(d, r), x) == Count(d, x)
  {
    RetainOne(d, r);
    var retained, s := Retain(d, r), Get(d, r);
    var moved := MoveToEnd(d, r);
    assert Get(retained, r).resolved == s.resolved;
    assert moved == Put(retained, r, s) by {
      assert retained[|retained| - 1].0 == r;
      FindAt(retained, |retained| - 1);
    }
    PutSame(retained, r, s);
  }

  lemma {:induction false} OccurrencesOutside(frames: seq<FrameRef>, r: string)
    ensures Occurrences(frames, r) > 0 <==> exists f :: f in frames && f.dataRef == r
  {
    if frames != [] {
      OccurrencesOutside(frames[..|frames| - 1], r);
      assert frames == frames[..|frames| - 1] + [frames[|frames| - 1]];
    }
  }

  ghost function HeldIn(held: map<string, int>, dataRef: string): int {
    if dataRef in held then held[dataRef] else 0
  }

  /** What holds of the store except for its limits. */
  ghost predicate Kept(active: Option<string>, d: Frames, held: map<string, int>) {
    && (active.None? ==> d == [])
    && (forall e :: e in d ==> active == Some(e.1.resolved.sessionId))
    && (forall r :: Count(d, r) >= HeldIn(held, r))
  }

  ghost predicate Bounded(d: Frames, limits: Limits) {
    WithinLimits(d, limits) || AllRetained(d)
  }

  lemma EvictedKept(active: Option<string>, d: Frames, d': Frames, held: map<string, int>, limits: Limits)
    requires Distinct(d) && IsEvicted(d, d', limits) && Kept(active, d, held)
    ensures Kept(active, d', held) && Bounded(d', limits)
  {
    EvictedCounts(d, d', limits);
    if d == [] {
      assert d' == [] by {
        var k :| IsEvictedBy(d, d', limits, k);
      }
    }
  }

  lemma SameFramesKept(active: Option<string>, d: Frames, d': Frames, inputIds: set<string>, totalBytes: int,
                       held: map<string, int>, held': map<string, int>)
    requires Accounted(d, inputIds, totalBytes) && SameFrames(d, d') && Kept(active, d, held)
    requires forall r :: Count(d', r) - Count(d, r) >= HeldIn(held', r) - HeldIn(held, r)
    ensures Accounted(d', inputIds, totalBytes) && Kept(active, d', held')
  {
    SameFramesAccounted(d, d', inputIds, totalBytes);
    forall r
      ensures Count(d', r) >= HeldIn(held', r)
    {
      assert Count(d, r) >= HeldIn(held, r);
    }
  }

  /** The books after a wave was retained (sign 1) or released (sign -1). */
  ghost function Booked(held: map<string, int>, wave: seq<FrameRef>, sign: int): map<string, int> {
    map r | r in held.Keys + (set f | f in wave :: f.dataRef) :: HeldIn(held, r) + sign * Occurrences(wave, r)
  }

  lemma BookedHeld(held: map<string, int>, wave: seq<FrameRef>, sign: int)
    ensures forall r :: HeldIn(Booked(held, wave, sign), r) == HeldIn(held, r) + sign * Occurrences(wave, r)
  {
    forall r
      ensures HeldIn(Booked(held, wave, sign), r) == HeldIn(held, r) + sign * Occurrences(wave, r)
    {
      OccurrencesOutside(wave, r);
    }
  }

  lemma RetainedKept(active: Option<string>, d: Frames, inputIds: set<string>, totalBytes: int, held: map<string, int>,
                     wave: seq<FrameRef>, limits: Limits)
    requires Accounted(d, inputIds, totalBytes) && Kept(active, d, held) && Bounded(d, limits)
    requires forall f :: f in wave ==> Has(d, f.dataRef)
    ensures Accounted(RetainAll(d, wave), inputIds, totalBytes)
    ensures Kept(active, RetainAll(d, wave), Booked(held, wave, 1)) && Bounded(RetainAll(d, wave), limits)
  {
    RetainAllCounts(d, wave);
    BookedHeld(held, wave, 1);
    SameFramesKept(active, d, RetainAll(d, wave), inputIds, totalBytes, held, Booked(held, wave, 1));
    StillBounded(d, RetainAll(d, wave), limits);
  }

  lemma ReleasedKept(active: Option<string>, d: Frames, inputIds: set<string>, totalBytes: int, held: map<string, int>,
                     session: string, wave: seq<FrameRef>)
    requires Accounted(d, inputIds, totalBytes) && Kept(active, d, held)
    ensures Accounted(ReleaseAll(d, session, wave), inputIds, totalBytes)
    ensures Kept(active, ReleaseAll(d, session, wave), Booked(held, wave, -1))
  {
    ReleaseAllCounts(d, session, wave);
    BookedHeld(held, wave, -1);
    SameFramesKept(active, d, ReleaseAll(d, session, wave), inputIds, totalBytes, held, Booked(held, wave, -1));
  }

  lemma MovedKept(active: Option<string>, d: Frames, inputIds: set<string>, totalBytes: int, held: map<string, int>,
                  r: string, limits: Limits)
    requires Accounted(d, inputIds, totalBytes) && Kept(active, d, held) && Bounded(d, limits) && Has(d, r)
    ensures Accounted(MoveToEnd(d, r), inputIds, totalBytes)
    ensures Kept(active, MoveToEnd(d, r), held) && Bounded(MoveToEnd(d, r), limits)
  {
    Moved(d, r);
    SameFramesKept(active, d, MoveToEnd(d, r), inputIds, totalBytes, held, held);
    StillBounded(d, MoveToEnd(d, r), limits);
  }

  lemma AddedKept(active: Option<string>, d: Frames, inputIds: set<string>, totalBytes: int, held: map<string, int>,
                  dataRef: string, stored: Stored)
    requires Accounted(d, inputIds, totalBytes) && Kept(active, d, held) && !Has(d, dataRef)
    requires dataRef == DataRef(stored.resolved.frameId) && stored.resolved.inputId !in inputIds
    requires active == Some(stored.resolved.sessionId)
    ensures Accounted(d + [(dataRef, stored)], inputIds + {stored.resolved.inputId}, totalBytes + |stored.resolved.body|)
    ensures Kept(active, d + [(dataRef, stored)], held)
  {
    AddOne(d, inputIds, totalBytes, dataRef, stored);
    assert Count(d, dataRef) == 0;
    forall r
      ensures Count(d + [(dataRef, stored)], r) >= HeldIn(held, r)
    {
      assert Count(d, r) >= HeldIn(held, r);
    }
  }

  class InMemoryFrameStore {
    const limits: Limits
    var activeSession: Option<string>
    var frames: Frames
    var inputIds: set<string>
    var totalBytes: int
    /** Retains less releases per data ref since the session started. */
    ghost var held: map<string, int>

    ghost predicate Valid()
      reads this
    {
      && Accounted(frames, inputIds, totalBytes)
      && Kept(activeSession, frames, held)
      && Bounded(frames, limits)
    }

    /** A frame held by matched retains is still stored. */
    lemma HeldIsStored(dataRef: string)
      requires Valid() && HeldIn(held, dataRef) > 0
      ensures Has(frames, dataRef) && Get(frames, dataRef).retained >= HeldIn(held, dataRef)
    {
      assert Count(frames, dataRef) >= HeldIn(held, dataRef);
    }

    constructor (limits: Limits)
      ensures Valid() && this.limits == limits && activeSession == None
    {
      this.limits := limits;
      activeSession, frames, inputIds, totalBytes, held := None, [], {}, 0, map[];
    }

    /** Evict least recently used unretained frames until both limits hold or none is left. */
    method EvictToLimits()
      requires Accounted(frames, inputIds, totalBytes)
      modifies this`frames, this`inputIds, this`totalBytes
      ensures Accounted(frames, inputIds, totalBytes)
      ensures IsEvicted(old(frames), frames, limits)
    {
      ghost var k := 0;
      while |frames| > limits.maxFrames || totalBytes > limits.maxTotalBytes
        invariant Accounted(frames, inputIds, totalBytes)
        invariant Evicting(old(frames), frames, limits, k)
        decreases |frames|
      {
        var victim := FirstUnretained(frames);
        if victim == |frames| {
          break;
        }
        EvictNext(old(frames), frames, limits, k);
        k := k + 1;
        Pop(victim);
      }
      EvictDone(old(frames), frames, limits, k);
    }

    method Pop(victim: nat)
      requires Accounted(frames, inputIds, totalBytes) && victim < |frames|
      modifies this`frames, this`inputIds, this`totalBytes
      ensures Accounted(frames, inputIds, totalBytes)
      ensures frames == old(frames)[..victim] + old(frames)[victim + 1..]
    {
      EvictOne(frames, inputIds, totalBytes, victim);
      var stored := frames[victim].1;
      frames, inputIds, totalBytes :=
        frames[..victim] + frames[victim + 1..], inputIds - {stored.resolved.inputId}, totalBytes - |stored.resolved.body|;
    }

    method StartSession(session: string) returns (started: bool)
      requires Valid()
      modifies this
      ensures Valid()
      ensures started <==> old(activeSession) == None || old(activeSession) == Some(session)
      ensures if started then activeSession == Some(session) && frames == [] && held == map[]
              else activeSession == old(activeSession) && frames == old(frames) && held == old(held)
    {
      if activeSession.Some? && activeSession.value != session {
        return false;
      }
      Clear();
      activeSession := Some(session);
      return true;
    }

    method ClearSession(session: string)
      requires Valid()
      modifies this
      ensures Valid()
      ensures if old(activeSession) == Some(session) then activeSession == None && frames == []
              else activeSession == old(activeSession) && frames == old(frames) && held == old(held)
    {
      if activeSession != Some(session) {
        return;
      }
      Clear();
      activeSession := None;
    }

    method Clear()
      modifies this`frames, this`inputIds, this`totalBytes, this`held
      ensures Accounted(frames, inputIds, totalBytes) && frames == [] && held == map[]
    {
      frames, inputIds, totalBytes, held := [], {}, 0, map[];
    }

    /** `store`; newId comes from the id generator and has not been used for a stored frame. */
    method Store(input: FrameInput, newId: string) returns (result: StoreResult)
      requires Valid() && !Has(frames, DataRef(newId))
      modifies this`frames, this`inputIds, this`totalBytes
      ensures Valid()
      ensures result.TooLarge? <==> |input.body| > limits.maxFrameBytes || |input.body| > limits.maxTotalBytes
      ensures result.NotActive? <==> !result.TooLarge? && activeSession != Some(input.sessionId)
      ensures result.DuplicateInput? <==> !result.TooLarge? && !result.NotActive? && input.inputId in old(inputIds)
      ensures result.Accepted? ==>
        && result.frame == FrameRef(newId, input.capturedAtMs, input.mimeType, DataRef(newId))
        && IsEvicted(old(frames) + [(DataRef(newId), Stored(Resolved(input, newId), 0))], frames, limits)
      ensures !result.Accepted? ==> frames == old(frames) && inputIds == old(inputIds)
    {
      var frameLimit := if limits.maxFrameBytes < limits.maxTotalBytes then limits.maxFrameBytes else limits.maxTotalBytes;
      if |input.body| > frameLimit {
        return TooLarge;
      }
      if activeSession != Some(input.sessionId) {
        return NotActive;
      }
      if input.inputId in inputIds {
        return DuplicateInput;
      }
      Add(input, newId);
      return Accepted(FrameRef(newId, input.capturedAtMs, input.mimeType, DataRef(newId)));
    }

    method Add(input: FrameInput, newId: string)
      requires Valid() && !Has(frames, DataRef(newId))
      requires activeSession == Some(input.sessionId) && input.inputId !in inputIds
      modifies this`frames, this`inputIds, this`totalBytes
      ensures Valid()
      ensures IsEvicted(old(frames) + [(DataRef(newId), Stored(Resolved(input, newId), 0))], frames, limits)
    {
      Append(DataRef(newId), Stored(Resolved(input, newId), 0));
      ghost var full := frames;
      EvictToLimits();
      EvictedKept(activeSession, full, frames, held, limits);
    }

    method Append(dataRef: string, stored: Stored)
      requires Accounted(frames, inputIds, totalBytes) && Kept(activeSession, frames, held) && !Has(frames, dataRef)
      requires dataRef == DataRef(stored.resolved.frameId) && stored.resolved.inputId !in inputIds
      requires activeSession == Some(stored.resolved.sessionId)
      modifies this`frames, this`inputIds, this`totalBytes
      ensures frames == old(frames) + [(dataRef, stored)]
      ensures Accounted(frames, inputIds, totalBytes) && Kept(activeSession, frames, held)
    {
      AddedKept(activeSession, frames, inputIds, totalBytes, held, dataRef, stored);
      frames, inputIds, totalBytes :=
        frames + [(dataRef, stored)], inputIds + {stored.resolved.inputId}, totalBytes + |stored.resolved.body|;
    }

    /** `resolve`: a matching frame is returned and becomes the most recently used. */
    method Resolve(session: string, frame: FrameRef) returns (active: bool, resolved: Option<Frame>)
      requires Valid()
      modifies this`frames
      ensures Valid()
      ensures active <==> activeSession == Some(session)
      ensures resolved == if active && Available(old(frames), session, frame) then Some(Get(old(frames), frame.dataRef).resolved) else None
      ensures frames == if resolved.Some? then MoveToEnd(old(frames), frame.dataRef) else old(frames)
    {
      active, resolved := activeSession == Some(session), None;
      if active && Has(frames, frame.dataRef) && Matches(Get(frames, frame.dataRef).resolved, session, frame) {
        MovedKept(activeSession, frames, inputIds, totalBytes, held, frame.dataRef, limits);
        resolved := Some(Get(frames, frame.dataRef).resolved);
        frames := MoveToEnd(frames, frame.dataRef);
      }
    }

    /** `retain`: all of the wave's frames are retained, or none. */
    method RetainWave(session: string, wave: seq<FrameRef>) returns (active: bool, retained: bool)
      requires Valid()
      modifies this`frames, this`held
      ensures Valid()
      ensures active <==> activeSession == Some(session)
      ensures retained <==> active && forall f :: f in wave ==> Available(old(frames), session, f)
      ensures frames == if retained then RetainAll(old(frames), wave) else old(frames)
      ensures forall r :: HeldIn(held, r) == HeldIn(old(held), r) + if retained then Occurrences(wave, r) else 0
    {
      active, retained := activeSession == Some(session), false;
      if !active {
        return;
      }
      retained := AllAvailable(session, wave);
      if retained {
        RetainedKept(activeSession, frames, inputIds, totalBytes, held, wave, limits);
        BookedHeld(held, wave, 1);
        CountRetains(wave);
        held := Booked(held, wave, 1);
      }
    }

    method AllAvailable(session: string, wave: seq<FrameRef>) returns (all: bool)
      ensures all <==> forall f :: f in wave ==> Available(frames, session, f)
    {
      for i := 0 to |wave|
        invariant forall f :: f in wave[..i] ==> Available(frames, session, f)
      {
        if !Has(frames, wave[i].dataRef) || !Matches(Get(frames, wave[i].dataRef).resolved, session, wave[i]) {
          assert wave[i] in wave;
          return false;
        }
        assert wave[..i + 1] == wave[..i] + [wave[i]];
      }
      assert wave[..|wave|] == wave;
      return true;
    }

    method CountRetains(wave: seq<FrameRef>)
      requires Distinct(frames) && forall f :: f in wave ==> Has(frames, f.dataRef)
      modifies this`frames
      ensures frames == RetainAll(old(frames), wave)
    {
      for i := 0 to |wave|
        invariant frames == RetainAll(old(frames), wave[..i])
        invariant forall f :: f in wave ==> Has(frames, f.dataRef)
        invariant Distinct(frames)
      {
        assert wave[i] in wave;
        assert wave[..i + 1][..i] == wave[..i];
        RetainOne(frames, wave[i].dataRef);
        frames := Retain(frames, wave[i].dataRef);
      }
      assert wave[..|wave|] == wave;
    }

    /** `release`: each matching frame loses one retain; then the limits are enforced. */
    method ReleaseWave(session: string, wave: seq<FrameRef>)
      requires Valid()
      modifies this`frames, this`inputIds, this`totalBytes, this`held
      ensures Valid()
      ensures activeSession != Some(session) ==> frames == old(frames) && held == old(held)
      ensures activeSession == Some(session) ==> IsEvicted(ReleaseAll(old(frames), session, wave), frames, limits)
      ensures activeSession == Some(session) ==> forall r :: HeldIn(held, r) == HeldIn(old(held), r) - Occurrences(wave, r)
    {
      if activeSession != Some(session) {
        return;
      }
      ReleasedKept(activeSession, frames, inputIds, totalBytes, held, session, wave);
      BookedHeld(held, wave, -1);
      CountReleases(session, wave);
      held := Booked(held, wave, -1);
      ghost var released := frames;
      EvictToLimits();
      EvictedKept(activeSession, released, frames, held, limits);
    }

    method CountReleases(session: string, wave: seq<FrameRef>)
      modifies this`frames
      ensures frames == ReleaseAll(old(frames), session, wave)
    {
      for i := 0 to |wave|
        invariant frames == ReleaseAll(old(frames), session, wave[..i])
      {
        assert wave[..i + 1][..i] == wave[..i];
        frames := Release(frames, session, wave[i]);
      }
      assert wave[..|wave|] == wave;
    }
  }
}
