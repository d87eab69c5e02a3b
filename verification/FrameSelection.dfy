/** The choice of historical frames for an observation wave. */
module FrameSelection {
  import opened Lexicographic
  import opened Options
  import opened OrderedDict
  import opened VisualSignature

  const MAX_FRAME_WINDOW_MS := 30_000
  const FRAME_BUNDLE_SELECTION_LIMIT := 5
  const DEFAULT_FRAME_SIMILARITY_THRESHOLD := 0.95

  datatype Item = Item(frameId: string, capturedAtMs: int, contentHash: string, dataRef: string)

  datatype Strategy = LatestN | EvenlySpaced | ChangePeaks

  datatype Settings = Settings(frameBundleSize: nat, frameWindowMs: nat, strategy: Strategy, similarityThreshold: real, anchorIntervalMs: nat)

  type Signatures = Option<map<string, seq<Byte>>>

  function Min(a: int, b: int): int {
    if a <= b then a else b
  }

  /** The sort key `(captured_at_ms, frame_id)`. */
  function FrameKey(f: Item): seq<int> {
    [f.capturedAtMs] + Codes(f.frameId)
  }

  function IdOf(f: Item): string {
    f.frameId
  }

  lemma KeyOrder(a: Item, b: Item)
    ensures Less(FrameKey(a), FrameKey(b)) <==>
            a.capturedAtMs < b.capturedAtMs || (a.capturedAtMs == b.capturedAtMs && Less(Codes(a.frameId), Codes(b.frameId)))
    ensures FrameKey(a) == FrameKey(b) ==> a.frameId == b.frameId && a.capturedAtMs == b.capturedAtMs
  {
    assert FrameKey(a)[1..] == Codes(a.frameId) && FrameKey(b)[1..] == Codes(b.frameId);
    if FrameKey(a) == FrameKey(b) {
      CodesInjective(a.frameId, b.frameId);
    }
  }

  // ---------------------------------------------------------------------------------------
  // Candidates
  // ---------------------------------------------------------------------------------------

  function WindowStart(settings: Settings, nowMs: int): int {
    nowMs - Min(settings.frameWindowMs, MAX_FRAME_WINDOW_MS)
  }

  predicate InWindow(f: Item, settings: Settings, nowMs: int) {
    WindowStart(settings, nowMs) <= f.capturedAtMs <= nowMs
  }

  function Windowed(s: seq<Item>, settings: Settings, nowMs: int): seq<Item> {
    if s == [] then []
    else
      Windowed(s[..|s| - 1], settings, nowMs) +
      if InWindow(s[|s| - 1], settings, nowMs) then [s[|s| - 1]] else []
  }

  function ById(frames: seq<Item>, settings: Settings, nowMs: int): Dict<string, Item> {
    Index(Windowed(Sort(frames, FrameKey), settings, nowMs), IdOf)
  }

  function Candidates(frames: seq<Item>, settings: Settings, nowMs: int): seq<Item> {
    Sort(Values(ById(frames, settings, nowMs)), FrameKey)
  }

  lemma {:induction false} WindowedIs(s: seq<Item>, settings: Settings, nowMs: int)
    ensures forall f :: f in Windowed(s, settings, nowMs) <==> f in s && InWindow(f, settings, nowMs)
    ensures Ordered(s, FrameKey) ==> Ordered(Windowed(s, settings, nowMs), FrameKey)
  {
    if s != [] {
      var n := |s| - 1;
      WindowedIs(s[..n], settings, nowMs);
      assert s == s[..n] + [s[n]];
      var front := Windowed(s[..n], settings, nowMs);
      if Ordered(s, FrameKey) && InWindow(s[n], settings, nowMs) {
        forall i | 0 <= i < |front|
          ensures !Less(FrameKey(s[n]), FrameKey(front[i]))
        {
          assert front[i] in s[..n];
          var k :| 0 <= k < n && s[k] == front[i];
        }
      }
    }
  }

  lemma SortedIs(frames: seq<Item>)
    ensures forall f :: f in Sort(frames, FrameKey) <==> f in frames
  {
    SortSorts(frames, FrameKey);
    forall f
      ensures f in Sort(frames, FrameKey) <==> f in frames
    {
      assert f in Elements(Sort(frames, FrameKey)) <==> f in Elements(frames);
    }
  }

  lemma ValuesIn(d: Dict<string, Item>, f: Item)
    requires Distinct(d) && forall i :: 0 <= i < |d| ==> d[i].0 == d[i].1.frameId
    ensures f in Values(d) <==> f.frameId in ToMap(d) && ToMap(d)[f.frameId] == f
  {
    EntryIff(d, f.frameId, f);
    if f in Values(d) {
      var i :| 0 <= i < |d| && Values(d)[i] == f;
      assert d[i] == (f.frameId, f);
    }
    if (f.frameId, f) in d {
      var i :| 0 <= i < |d| && d[i] == (f.frameId, f);
      assert Values(d)[i] == f;
    }
  }

  /** The candidates, strictly ascending by time and id, are frames of the window, one for every id
      that occurs there. */
  lemma CandidatesAscend(frames: seq<Item>, settings: Settings, nowMs: int)
    ensures Ascending(Candidates(frames, settings, nowMs), FrameKey)
    ensures forall c :: c in Candidates(frames, settings, nowMs) <==>
                        c.frameId in ToMap(ById(frames, settings, nowMs)) && ToMap(ById(frames, settings, nowMs))[c.frameId] == c
  {
    var d := ById(frames, settings, nowMs);
    IndexDistinct(Windowed(Sort(frames, FrameKey), settings, nowMs), IdOf);
    assert DistinctKeys(Values(d), FrameKey) by {
      forall i, j | 0 <= i < j < |d|
        ensures FrameKey(Values(d)[i]) != FrameKey(Values(d)[j])
      {
        KeyOrder(d[i].1, d[j].1);
      }
    }
    SortSorts(Values(d), FrameKey);
    SortedIs(Values(d));
    forall c: Item
      ensures c in Values(d) <==> c.frameId in ToMap(d) && ToMap(d)[c.frameId] == c
    {
      ValuesIn(d, c);
    }
  }

  /** The frame is not from the future and within both the window asked for and the greatest one. */
  ghost predicate Recent(f: Item, settings: Settings, nowMs: int) {
    var ageMs := nowMs - f.capturedAtMs;
    0 <= ageMs && ageMs <= settings.frameWindowMs && ageMs <= MAX_FRAME_WINDOW_MS
  }

  lemma CandidateIsFrame(frames: seq<Item>, settings: Settings, nowMs: int, c: Item)
    requires c in Candidates(frames, settings, nowMs)
    ensures c in frames && InWindow(c, settings, nowMs)
  {
    var w := Windowed(Sort(frames, FrameKey), settings, nowMs);
    CandidatesAscend(frames, settings, nowMs);
    IndexIsLast(w, IdOf, c.frameId);
    var i :| 0 <= i < |w| && IsLast(w, IdOf, i, c.frameId) && w[i] == c;
    WindowedIs(Sort(frames, FrameKey), settings, nowMs);
    SortedIs(frames);
    assert c in w;
  }

  /** In a sequence ordered by time, the last element with an id is at least as recent as any other. */
  lemma LastIsNewest(w: seq<Item>, i: nat, f: Item)
    requires Ordered(w, FrameKey) && f in w && IsLast(w, IdOf, i, f.frameId)
    ensures w[i].frameId == f.frameId && w[i].capturedAtMs >= f.capturedAtMs
  {
    var j :| 0 <= j < |w| && w[j] == f;
    assert IdOf(w[j]) == f.frameId;
    assert j <= i;
    KeyOrder(w[i], f);
  }

  lemma WindowedFrame(frames: seq<Item>, settings: Settings, nowMs: int, f: Item)
    requires f in frames && InWindow(f, settings, nowMs)
    ensures var w := Windowed(Sort(frames, FrameKey), settings, nowMs); f in w && Ordered(w, FrameKey)
  {
    SortedIs(frames);
    SortOrders(frames, FrameKey);
    WindowedIs(Sort(frames, FrameKey), settings, nowMs);
  }

  /** Every frame of the window is represented by the newest one with its id. */
  lemma NewestIsCandidate(frames: seq<Item>, settings: Settings, nowMs: int, f: Item)
    requires f in frames && Recent(f, settings, nowMs)
    ensures exists c :: c in Candidates(frames, settings, nowMs) && c.frameId == f.frameId && c.capturedAtMs >= f.capturedAtMs
  {
    var w := Windowed(Sort(frames, FrameKey), settings, nowMs);
    WindowedFrame(frames, settings, nowMs, f);
    IndexCovers(w, IdOf);
    var c := ToMap(Index(w, IdOf))[IdOf(f)];
    IndexIsLast(w, IdOf, f.frameId);
    var i :| 0 <= i < |w| && IsLast(w, IdOf, i, f.frameId) && w[i] == c;
    LastIsNewest(w, i, f);
    CandidatesAscend(frames, settings, nowMs);
    assert c in Candidates(frames, settings, nowMs);
  }

  // ---------------------------------------------------------------------------------------
  // Groups of similar frames
  // ---------------------------------------------------------------------------------------

  function SignatureOf(signatures: Signatures, f: Item): seq<Byte> {
    if signatures.Some? && f.frameId in signatures.value then signatures.value[f.frameId] else []
  }

  predicate MatchesBySignature(anchor: Item, frame: Item, threshold: real, signatures: Signatures) {
    && IsVisualSignature(SignatureOf(signatures, anchor)) && IsVisualSignature(SignatureOf(signatures, frame))
    && 1.0 - ChangeScore(SignatureOf(signatures, anchor), SignatureOf(signatures, frame)) >= threshold
  }

  /** `_is_similar_to_group_anchor` */
  predicate SimilarToAnchor(anchor: Item, frame: Item, threshold: real, signatures: Signatures) {
    anchor.contentHash == frame.contentHash || MatchesBySignature(anchor, frame, threshold, signatures)
  }

  predicate Joins(anchor: Item, frame: Item, settings: Settings, threshold: real, signatures: Signatures) {
    && frame.capturedAtMs - anchor.capturedAtMs <= settings.anchorIntervalMs
    && SimilarToAnchor(anchor, frame, threshold, signatures)
  }

  /** The groups after the next frame joined the last one or opened its own. */
  function WithFrame(groups: seq<seq<Item>>, frame: Item, settings: Settings, threshold: real, signatures: Signatures): (r: seq<seq<Item>>)
    requires groups != [] && forall i :: 0 <= i < |groups| ==> groups[i] != []
    ensures r != [] && forall i :: 0 <= i < |r| ==> r[i] != []
  {
    var n := |groups| - 1;
    if Joins(groups[n][0], frame, settings, threshold, signatures) then groups[..n] + [groups[n] + [frame]] else groups + [[frame]]
  }

  function Groups(candidates: seq<Item>, settings: Settings, threshold: real, signatures: Signatures): (groups: seq<seq<Item>>)
    requires candidates != []
    ensures groups != [] && forall i :: 0 <= i < |groups| ==> groups[i] != []
  {
    if |candidates| == 1 then [candidates]
    else
      var n := |candidates| - 1;
      WithFrame(Groups(candidates[..n], settings, threshold, signatures), candidates[n], settings, threshold, signatures)
  }

  function Newest(groups: seq<seq<Item>>): (r: seq<Item>)
    requires forall i :: 0 <= i < |groups| ==> groups[i] != []
    ensures |r| == |groups|
    ensures forall i :: 0 <= i < |groups| ==> r[i] == groups[i][|groups[i]| - 1]
  {
    seq(|groups|, i requires 0 <= i < |groups| => groups[i][|groups[i]| - 1])
  }

  /** The last n elements; all of s when there are fewer. */
  function LastN<T>(s: seq<T>, n: nat): (r: seq<T>)
    ensures |r| == Min(n, |s|) && r == s[|s| - |r|..]
  {
    if n >= |s| then s else s[|s| - n..]
  }

  function Threshold(settings: Settings): real {
    if settings.similarityThreshold >= DEFAULT_FRAME_SIMILARITY_THRESHOLD then settings.similarityThreshold
    else DEFAULT_FRAME_SIMILARITY_THRESHOLD
  }

  function SelectionCount(settings: Settings, candidates: nat): nat {
    Min(Min(FRAME_BUNDLE_SELECTION_LIMIT, settings.frameBundleSize), candidates)
  }

  /** `select_frame_bundle` */
  function Selected(frames: seq<Item>, settings: Settings, nowMs: int, signatures: Signatures): seq<Item> {
    var candidates := Candidates(frames, settings, nowMs);
    var count := SelectionCount(settings, |candidates|);
    if count == 0 then []
    else if settings.strategy.ChangePeaks? then LastN(Newest(Groups(candidates, settings, Threshold(settings), signatures)), count)
    else LastN(candidates, count)
  }

  function Flatten<T>(groups: seq<seq<T>>): seq<T> {
    if groups == [] then [] else Flatten(groups[..|groups| - 1]) + groups[|groups| - 1]
  }

  lemma {:induction false} FlattenConcat<T>(a: seq<seq<T>>, b: seq<seq<T>>)
    ensures Flatten(a + b) == Flatten(a) + Flatten(b)
  {
    if b == [] {
      assert a + b == a;
    } else {
      var front, last := b[..|b| - 1], b[|b| - 1];
      FlattenConcat(a, front);
      assert (a + b)[..|a + b| - 1] == a + front && (a + b)[|a + b| - 1] == last;
      assert Flatten(a) + Flatten(front) + last == Flatten(a) + (Flatten(front) + last);
    }
  }

  /** Every member of a group joined its first member. */
  ghost predicate Anchored(g: seq<Item>, settings: Settings, threshold: real, signatures: Signatures) {
    g != [] && forall i :: 0 < i < |g| ==> Joins(g[0], g[i], settings, threshold, signatures)
  }

  lemma FlattenMore<T>(groups: seq<seq<T>>, g: seq<T>, x: T)
    ensures Flatten(groups + [[x]]) == Flatten(groups) + [x]
    ensures Flatten(groups + [g + [x]]) == Flatten(groups + [g]) + [x]
  {
    assert (groups + [[x]])[..|groups|] == groups;
    assert (groups + [g + [x]])[..|groups|] == groups;
    assert (groups + [g])[..|groups|] == groups;
    assert Flatten(groups) + (g + [x]) == Flatten(groups) + g + [x];
  }

  lemma FlattenOne<T>(g: seq<T>)
    ensures Flatten([g]) == g
  {
    assert [g][..0] == [];
    assert Flatten([g][..0]) + g == g;
  }

  lemma AnchoredMore(g: seq<Item>, frame: Item, settings: Settings, threshold: real, signatures: Signatures)
    requires Anchored(g, settings, threshold, signatures) && Joins(g[0], frame, settings, threshold, signatures)
    ensures Anchored(g + [frame], settings, threshold, signatures)
  {
  }

  /** The groups cut the candidates into stretches around their anchors, and a group opens only where
      its anchor does not join the anchor before it. */
  ghost predicate Partition(groups: seq<seq<Item>>, candidates: seq<Item>, settings: Settings, threshold: real, signatures: Signatures) {
    && Flatten(groups) == candidates
    && (forall i :: 0 <= i < |groups| ==> Anchored(groups[i], settings, threshold, signatures))
    && (forall i :: 0 < i < |groups| ==> Opens(groups[i - 1], groups[i], settings, threshold, signatures))
  }

  ghost predicate Opens(before: seq<Item>, g: seq<Item>, settings: Settings, threshold: real, signatures: Signatures) {
    before != [] && g != [] && !Joins(before[0], g[0], settings, threshold, signatures)
  }

  lemma JoinedPartition(front: seq<seq<Item>>, g: seq<Item>, candidates: seq<Item>, frame: Item, settings: Settings, threshold: real,
                        signatures: Signatures)
    requires Partition(front + [g], candidates, settings, threshold, signatures)
    requires g != [] && Joins(g[0], frame, settings, threshold, signatures)
    ensures Partition(front + [g + [frame]], candidates + [frame], settings, threshold, signatures)
  {
    var groups, longer := front + [g], front + [g + [frame]];
    FlattenMore(front, g, frame);
    assert Anchored(groups[|front|], settings, threshold, signatures);
    AnchoredMore(g, frame, settings, threshold, signatures);
    forall i | 0 <= i < |longer|
      ensures Anchored(longer[i], settings, threshold, signatures)
      ensures i > 0 ==> Opens(longer[i - 1], longer[i], settings, threshold, signatures)
    {
      assert Anchored(groups[i], settings, threshold, signatures);
      assert i > 0 ==> Opens(groups[i - 1], groups[i], settings, threshold, signatures);
    }
  }

  lemma OpenedPartition(groups: seq<seq<Item>>, candidates: seq<Item>, frame: Item, settings: Settings, threshold: real, signatures: Signatures)
    requires Partition(groups, candidates, settings, threshold, signatures)
    requires groups != [] && groups[|groups| - 1] != [] && !Joins(groups[|groups| - 1][0], frame, settings, threshold, signatures)
    ensures Partition(groups + [[frame]], candidates + [frame], settings, threshold, signatures)
  {
    var longer := groups + [[frame]];
    FlattenMore(groups, [], frame);
    forall i | 0 <= i < |longer|
      ensures Anchored(longer[i], settings, threshold, signatures)
      ensures i > 0 ==> Opens(longer[i - 1], longer[i], settings, threshold, signatures)
    {
      if i < |groups| {
        assert Anchored(groups[i], settings, threshold, signatures);
        assert i > 0 ==> Opens(groups[i - 1], groups[i], settings, threshold, signatures);
      }
    }
  }

  lemma PartitionMore(groups: seq<seq<Item>>, candidates: seq<Item>, frame: Item, settings: Settings, threshold: real, signatures: Signatures)
    requires groups != [] && Partition(groups, candidates, settings, threshold, signatures)
    ensures Partition(WithFrame(groups, frame, settings, threshold, signatures), candidates + [frame], settings, threshold, signatures)
  {
    var n := |groups| - 1;
    assert Anchored(groups[n], settings, threshold, signatures);
    if Joins(groups[n][0], frame, settings, threshold, signatures) {
      assert groups == groups[..n] + [groups[n]];
      JoinedPartition(groups[..n], groups[n], candidates, frame, settings, threshold, signatures);
    } else {
      OpenedPartition(groups, candidates, frame, settings, threshold, signatures);
    }
  }

  lemma {:induction false} GroupsPartition(candidates: seq<Item>, settings: Settings, threshold: real, signatures: Signatures)
    requires candidates != []
    ensures Partition(Groups(candidates, settings, threshold, signatures), candidates, settings, threshold, signatures)
  {
    if |candidates| == 1 {
      FlattenOne(candidates);
    } else {
      var n := |candidates| - 1;
      assert candidates == candidates[..n] + [candidates[n]];
      GroupsPartition(candidates[..n], settings, threshold, signatures);
      PartitionMore(Groups(candidates[..n], settings, threshold, signatures), candidates[..n], candidates[n], settings, threshold, signatures);
    }
  }

  /** The last groups cut the end of the candidates. */
  lemma PartitionLast(groups: seq<seq<Item>>, n: nat, candidates: seq<Item>, settings: Settings, threshold: real, signatures: Signatures)
    requires Partition(groups, candidates, settings, threshold, signatures)
    ensures var kept := LastN(groups, n);
            && |Flatten(kept)| <= |candidates|
            && Partition(kept, candidates[|candidates| - |Flatten(kept)|..], settings, threshold, signatures)
  {
    var kept := LastN(groups, n);
    FlattenLast(groups, n);
    assert forall i :: 0 <= i < |kept| ==> kept[i] == groups[|groups| - |kept| + i];
    forall i | 0 < i < |kept|
      ensures Opens(kept[i - 1], kept[i], settings, threshold, signatures)
    {
      var k := |groups| - |kept| + i;
      assert Opens(groups[k - 1], groups[k], settings, threshold, signatures);
    }
  }

  /** The groups of all candidates but the last. */
  ghost function Shortened(groups: seq<seq<Item>>): seq<seq<Item>>
    requires groups != [] && groups[|groups| - 1] != []
  {
    var n := |groups| - 1;
    if |groups[n]| == 1 then groups[..n] else groups[..n] + [groups[n][..|groups[n]| - 1]]
  }

  lemma ShortenedFlat(groups: seq<seq<Item>>)
    requires groups != [] && groups[|groups| - 1] != []
    ensures var all, g := Flatten(groups), groups[|groups| - 1];
            all != [] && Flatten(Shortened(groups)) == all[..|all| - 1] && all[|all| - 1] == g[|g| - 1]
  {
    var n := |groups| - 1;
    var g := groups[n];
    if |g| > 1 {
      var shorter := groups[..n] + [g[..|g| - 1]];
      assert shorter[..n] == groups[..n];
    }
  }

  /** A cut without its last group, or with a shorter one, is still cut at anchors. */
  lemma ShortenedCut(groups: seq<seq<Item>>, shorter: seq<seq<Item>>, candidates: seq<Item>, settings: Settings, threshold: real,
                     signatures: Signatures)
    requires Partition(groups, candidates, settings, threshold, signatures) && |shorter| <= |groups|
    requires forall i :: 0 <= i < |shorter| ==> shorter[i] != [] && shorter[i] <= groups[i]
    ensures Partition(shorter, Flatten(shorter), settings, threshold, signatures)
  {
    forall i | 0 <= i < |shorter|
      ensures Anchored(shorter[i], settings, threshold, signatures)
      ensures i > 0 ==> Opens(shorter[i - 1], shorter[i], settings, threshold, signatures)
    {
      assert Anchored(groups[i], settings, threshold, signatures);
      assert i > 0 ==> Opens(groups[i - 1], groups[i], settings, threshold, signatures);
    }
  }

  lemma ShortenedPartition(groups: seq<seq<Item>>, candidates: seq<Item>, settings: Settings, threshold: real, signatures: Signatures)
    requires Partition(groups, candidates, settings, threshold, signatures) && candidates != []
    ensures groups != [] && groups[|groups| - 1] != []
    ensures Partition(Shortened(groups), candidates[..|candidates| - 1], settings, threshold, signatures)
  {
    assert forall i :: 0 <= i < |groups| ==> Anchored(groups[i], settings, threshold, signatures);
    ShortenedFlat(groups);
    ShortenedCut(groups, Shortened(groups), candidates, settings, threshold, signatures);
  }

  /** The last candidate opened a group of its own, or joined the last group. */
  lemma Lengthened(groups: seq<seq<Item>>, candidates: seq<Item>, settings: Settings, threshold: real, signatures: Signatures)
    requires Partition(groups, candidates, settings, threshold, signatures)
    requires candidates != [] && groups != [] && groups[|groups| - 1] != []
    ensures var shorter, x := Shortened(groups), candidates[|candidates| - 1];
            if shorter == [] then groups == [[x]]
            else shorter[|shorter| - 1] != [] && groups == WithFrame(shorter, x, settings, threshold, signatures)
  {
    var n := |groups| - 1;
    var g := groups[n];
    ShortenedFlat(groups);
    assert Anchored(g, settings, threshold, signatures);
    if |g| == 1 {
      assert g == [g[0]] && groups == groups[..n] + [g];
      assert n > 0 ==> Opens(groups[n - 1], g, settings, threshold, signatures);
    } else {
      assert g == g[..|g| - 1] + [g[|g| - 1]];
      assert groups == groups[..n] + [g];
    }
  }

  /** There is only one such cut: the grouping is determined by what it promises. */
  lemma {:induction false} PartitionUnique(a: seq<seq<Item>>, b: seq<seq<Item>>, candidates: seq<Item>, settings: Settings, threshold: real,
                                           signatures: Signatures)
    requires Partition(a, candidates, settings, threshold, signatures) && Partition(b, candidates, settings, threshold, signatures)
    ensures a == b
    decreases |candidates|
  {
    if candidates == [] {
      NoGroups(a, settings, threshold, signatures);
      NoGroups(b, settings, threshold, signatures);
    } else {
      ShortenedPartition(a, candidates, settings, threshold, signatures);
      ShortenedPartition(b, candidates, settings, threshold, signatures);
      PartitionUnique(Shortened(a), Shortened(b), candidates[..|candidates| - 1], settings, threshold, signatures);
      Lengthened(a, candidates, settings, threshold, signatures);
      Lengthened(b, candidates, settings, threshold, signatures);
    }
  }

  lemma NoGroups(groups: seq<seq<Item>>, settings: Settings, threshold: real, signatures: Signatures)
    requires Partition(groups, [], settings, threshold, signatures)
    ensures groups == []
  {
    if groups != [] {
      assert Anchored(groups[|groups| - 1], settings, threshold, signatures);
      ShortenedFlat(groups);
    }
  }

  /** r stands for the i-th member of g: it is at least as recent, no further away than the anchor
      interval, and, if both matched the anchor of g by signature or are the anchor, within twice the
      tolerance. */
  ghost predicate StandsFor(r: Item, g: seq<Item>, i: nat, settings: Settings, threshold: real, signatures: Signatures)
    requires i < |g|
  {
    && g[i].capturedAtMs <= r.capturedAtMs <= g[i].capturedAtMs + settings.anchorIntervalMs
    && ((i > 0 ==> MatchesBySignature(g[0], g[i], threshold, signatures)) && i < |g| - 1
        && MatchesBySignature(g[0], g[|g| - 1], threshold, signatures) ==>
         && IsVisualSignature(SignatureOf(signatures, g[i])) && IsVisualSignature(SignatureOf(signatures, r))
         && ChangeScore(SignatureOf(signatures, g[i]), SignatureOf(signatures, r)) <= 2.0 * (1.0 - threshold))
  }

  /** In an ascending sequence of candidates, the last member of a group stands for all others. */
  lemma RepresentsGroup(g: seq<Item>, i: nat, settings: Settings, threshold: real, signatures: Signatures)
    requires Anchored(g, settings, threshold, signatures) && Ascending(g, FrameKey) && i < |g|
    ensures StandsFor(g[|g| - 1], g, i, settings, threshold, signatures)
  {
    var r := g[|g| - 1];
    if i < |g| - 1 {
      KeyOrder(g[i], r);
    }
    if i > 0 {
      KeyOrder(g[0], g[i]);
    }
    if (i > 0 ==> MatchesBySignature(g[0], g[i], threshold, signatures)) && i < |g| - 1
       && MatchesBySignature(g[0], r, threshold, signatures) {
      var a, x, y := SignatureOf(signatures, g[0]), SignatureOf(signatures, g[i]), SignatureOf(signatures, r);
      ChangeScoreIsMetric(x, a, y);
      ChangeScoreIsMetric(a, y, x);
      if i == 0 {
        ChangeScoreIsMetric(a, a, a);
      }
    }
  }

  // ---------------------------------------------------------------------------------------
  // The selection
  // ---------------------------------------------------------------------------------------

  lemma AscendingParts(a: seq<Item>, b: seq<Item>)
    requires Ascending(a + b, FrameKey)
    ensures Ascending(a, FrameKey) && Ascending(b, FrameKey)
    ensures forall x, y :: x in a && y in b ==> Less(FrameKey(x), FrameKey(y))
  {
    assert forall i :: 0 <= i < |a| ==> (a + b)[i] == a[i];
    assert forall i :: 0 <= i < |b| ==> (a + b)[|a| + i] == b[i];
    forall x, y | x in a && y in b
      ensures Less(FrameKey(x), FrameKey(y))
    {
      var i :| 0 <= i < |a| && a[i] == x;
      var j :| 0 <= j < |b| && b[j] == y;
      assert Less(FrameKey((a + b)[i]), FrameKey((a + b)[|a| + j]));
    }
  }

  /** The newest members of the groups of an ascending sequence ascend, as does every group. */
  lemma {:induction false} NewestAscend(groups: seq<seq<Item>>)
    requires forall i :: 0 <= i < |groups| ==> groups[i] != []
    requires Ascending(Flatten(groups), FrameKey)
    ensures Ascending(Newest(groups), FrameKey)
    ensures forall f :: f in Newest(groups) ==> f in Flatten(groups)
    ensures forall i :: 0 <= i < |groups| ==> Ascending(groups[i], FrameKey)
  {
    if groups != [] {
      var n := |groups| - 1;
      var front := groups[..n];
      AscendingParts(Flatten(front), groups[n]);
      NewestAscend(front);
      assert Newest(groups) == Newest(front) + [groups[n][|groups[n]| - 1]];
      assert forall i :: 0 <= i < n ==> groups[i] == front[i];
      forall i | 0 <= i < n
        ensures Less(FrameKey(Newest(front)[i]), FrameKey(groups[n][|groups[n]| - 1]))
      {
        assert Newest(front)[i] in Flatten(front);
      }
    }
  }

  lemma LastNParts<T>(s: seq<T>, n: nat)
    ensures s == s[..|s| - |LastN(s, n)|] + LastN(s, n)
  {
  }

  lemma NewestOfLast(groups: seq<seq<Item>>, n: nat)
    requires forall i :: 0 <= i < |groups| ==> groups[i] != []
    ensures LastN(Newest(groups), n) == Newest(LastN(groups, n))
  {
  }

  ghost function KeptGroups(frames: seq<Item>, settings: Settings, nowMs: int, signatures: Signatures): seq<seq<Item>> {
    var candidates := Candidates(frames, settings, nowMs);
    if candidates == [] then []
    else LastN(Groups(candidates, settings, Threshold(settings), signatures), SelectionCount(settings, |candidates|))
  }

  lemma FlattenLast<T>(groups: seq<seq<T>>, n: nat)
    ensures var kept, all := Flatten(LastN(groups, n)), Flatten(groups);
            |kept| <= |all| && kept == all[|all| - |kept|..]
  {
    LastNParts(groups, n);
    FlattenConcat(groups[..|groups| - |LastN(groups, n)|], LastN(groups, n));
  }

  /** The kept groups are the newest of the one cut of the candidates around anchors; they hold the
      newest candidates. */
  lemma KeptAreNewest(frames: seq<Item>, settings: Settings, nowMs: int, signatures: Signatures)
    ensures var kept, candidates := KeptGroups(frames, settings, nowMs, signatures), Candidates(frames, settings, nowMs);
            && |Flatten(kept)| <= |candidates| && |kept| <= SelectionCount(settings, |candidates|)
            && Partition(kept, candidates[|candidates| - |Flatten(kept)|..], settings, Threshold(settings), signatures)
            && (candidates != [] ==> forall groups :: Partition(groups, candidates, settings, Threshold(settings), signatures) ==>
                  kept == LastN(groups, SelectionCount(settings, |candidates|)))
  {
    var candidates := Candidates(frames, settings, nowMs);
    if candidates != [] {
      GroupsPartition(candidates, settings, Threshold(settings), signatures);
      PartitionLast(Groups(candidates, settings, Threshold(settings), signatures), SelectionCount(settings, |candidates|),
                    candidates, settings, Threshold(settings), signatures);
      forall groups | Partition(groups, candidates, settings, Threshold(settings), signatures)
        ensures groups == Groups(candidates, settings, Threshold(settings), signatures)
      {
        PartitionUnique(groups, Groups(candidates, settings, Threshold(settings), signatures), candidates, settings, Threshold(settings), signatures);
      }
    }
  }

  lemma PeaksAreNewest(frames: seq<Item>, settings: Settings, nowMs: int, signatures: Signatures)
    requires settings.strategy.ChangePeaks?
    ensures var kept := KeptGroups(frames, settings, nowMs, signatures);
            && (forall i :: 0 <= i < |kept| ==> kept[i] != [])
            && Selected(frames, settings, nowMs, signatures) == Newest(kept)
  {
    var candidates := Candidates(frames, settings, nowMs);
    var kept := KeptGroups(frames, settings, nowMs, signatures);
    KeptAreNewest(frames, settings, nowMs, signatures);
    forall i | 0 <= i < |kept|
      ensures kept[i] != []
    {
      assert Anchored(kept[i], settings, Threshold(settings), signatures);
    }
    if candidates != [] {
      NewestOfLast(Groups(candidates, settings, Threshold(settings), signatures), SelectionCount(settings, |candidates|));
      if SelectionCount(settings, |candidates|) == 0 {
        assert kept == [];
      }
    }
  }

  lemma SuffixOfAscending(s: seq<Item>, n: nat)
    requires Ascending(s, FrameKey) && n <= |s|
    ensures Ascending(s[|s| - n..], FrameKey) && forall f :: f in s[|s| - n..] ==> f in s
  {
    assert s == s[..|s| - n] + s[|s| - n..];
    AscendingParts(s[..|s| - n], s[|s| - n..]);
  }

  lemma CandidatesAreFrames(frames: seq<Item>, settings: Settings, nowMs: int, part: seq<Item>)
    requires forall f :: f in part ==> f in Candidates(frames, settings, nowMs)
    ensures forall f :: f in part ==> f in frames && Recent(f, settings, nowMs)
  {
    forall f | f in part
      ensures f in frames && Recent(f, settings, nowMs)
    {
      CandidateIsFrame(frames, settings, nowMs, f);
    }
  }

  lemma LatestSelected(frames: seq<Item>, settings: Settings, nowMs: int, signatures: Signatures)
    requires !settings.strategy.ChangePeaks?
    ensures var selected, candidates := Selected(frames, settings, nowMs, signatures), Candidates(frames, settings, nowMs);
            |selected| == SelectionCount(settings, |candidates|) && selected == candidates[|candidates| - |selected|..]
  {
  }

  lemma LatestSound(frames: seq<Item>, settings: Settings, nowMs: int, signatures: Signatures)
    requires !settings.strategy.ChangePeaks?
    ensures var selected := Selected(frames, settings, nowMs, signatures);
            && Ascending(selected, FrameKey)
            && |selected| <= SelectionCount(settings, |Candidates(frames, settings, nowMs)|)
            && forall f :: f in selected ==> f in Candidates(frames, settings, nowMs)
  {
    CandidatesAscend(frames, settings, nowMs);
    LatestSelected(frames, settings, nowMs, signatures);
    SuffixOfAscending(Candidates(frames, settings, nowMs), |Selected(frames, settings, nowMs, signatures)|);
  }

  /** Whatever the strategy, the selection ascends strictly by time and id, keeps within the size
      limits, and consists of frames of the window. */
  lemma SelectionSound(frames: seq<Item>, settings: Settings, nowMs: int, signatures: Signatures)
    ensures var selected := Selected(frames, settings, nowMs, signatures);
            && Ascending(selected, FrameKey)
            && |selected| <= settings.frameBundleSize && |selected| <= FRAME_BUNDLE_SELECTION_LIMIT
            && forall f :: f in selected ==> f in frames && Recent(f, settings, nowMs)
  {
    if settings.strategy.ChangePeaks? {
      PeaksSound(frames, settings, nowMs, signatures);
    } else {
      LatestSound(frames, settings, nowMs, signatures);
    }
    CandidatesAreFrames(frames, settings, nowMs, Selected(frames, settings, nowMs, signatures));
  }

  /** The newest members of the last groups of a cut. */
  lemma NewestSound(kept: seq<seq<Item>>, candidates: seq<Item>)
    requires Ascending(candidates, FrameKey) && |Flatten(kept)| <= |candidates|
    requires Flatten(kept) == candidates[|candidates| - |Flatten(kept)|..]
    requires forall i :: 0 <= i < |kept| ==> kept[i] != []
    ensures Ascending(Newest(kept), FrameKey) && forall f :: f in Newest(kept) ==> f in candidates
  {
    SuffixOfAscending(candidates, |Flatten(kept)|);
    NewestAscend(kept);
  }

  lemma KeptAreSuffix(frames: seq<Item>, settings: Settings, nowMs: int, signatures: Signatures)
    ensures var kept, candidates := KeptGroups(frames, settings, nowMs, signatures), Candidates(frames, settings, nowMs);
            && |Flatten(kept)| <= |candidates| && Flatten(kept) == candidates[|candidates| - |Flatten(kept)|..]
            && |kept| <= SelectionCount(settings, |candidates|)
  {
    KeptAreNewest(frames, settings, nowMs, signatures);
  }

  lemma PeaksSound(frames: seq<Item>, settings: Settings, nowMs: int, signatures: Signatures)
    requires settings.strategy.ChangePeaks?
    ensures var selected := Selected(frames, settings, nowMs, signatures);
            && Ascending(selected, FrameKey)
            && |selected| <= SelectionCount(settings, |Candidates(frames, settings, nowMs)|)
            && forall f :: f in selected ==> f in Candidates(frames, settings, nowMs)
  {
    CandidatesAscend(frames, settings, nowMs);
    KeptAreSuffix(frames, settings, nowMs, signatures);
    PeaksAreNewest(frames, settings, nowMs, signatures);
    NewestSound(KeptGroups(frames, settings, nowMs, signatures), Candidates(frames, settings, nowMs));
  }

  lemma SuffixIsNewest(s: seq<Item>, n: nat, f: Item)
    requires Ascending(s, FrameKey) && n <= |s| && f in s
    ensures f in s[|s| - n..] || forall g :: g in s[|s| - n..] ==> Less(FrameKey(f), FrameKey(g))
  {
    assert s == s[..|s| - n] + s[|s| - n..];
    AscendingParts(s[..|s| - n], s[|s| - n..]);
  }

  /** The other two strategies take the newest candidates, one per frame id. */
  lemma LatestAreNewest(frames: seq<Item>, settings: Settings, nowMs: int, signatures: Signatures, f: Item)
    requires !settings.strategy.ChangePeaks? && f in Candidates(frames, settings, nowMs)
    ensures var selected, candidates := Selected(frames, settings, nowMs, signatures), Candidates(frames, settings, nowMs);
            && |selected| == SelectionCount(settings, |candidates|)
            && (f in selected || forall g :: g in selected ==> Less(FrameKey(f), FrameKey(g)))
  {
    CandidatesAscend(frames, settings, nowMs);
    LatestSelected(frames, settings, nowMs, signatures);
    SuffixIsNewest(Candidates(frames, settings, nowMs), |Selected(frames, settings, nowMs, signatures)|, f);
  }

  /** Under change peaks, every candidate of a kept group has a selected representative that is at
      least as recent, within the anchor interval, and, when both matched the group's anchor by
      signature, within twice the tolerance. */
  lemma PeaksRepresent(frames: seq<Item>, settings: Settings, nowMs: int, signatures: Signatures, k: nat, i: nat)
    requires settings.strategy.ChangePeaks?
    requires k < |KeptGroups(frames, settings, nowMs, signatures)| && i < |KeptGroups(frames, settings, nowMs, signatures)[k]|
    ensures var g, selected := KeptGroups(frames, settings, nowMs, signatures)[k], Selected(frames, settings, nowMs, signatures);
            k < |selected| && StandsFor(selected[k], g, i, settings, Threshold(settings), signatures)
  {
    var kept := KeptGroups(frames, settings, nowMs, signatures);
    KeptAscend(frames, settings, nowMs, signatures);
    PeaksAreNewest(frames, settings, nowMs, signatures);
    assert Selected(frames, settings, nowMs, signatures)[k] == kept[k][|kept[k]| - 1];
    RepresentsGroup(kept[k], i, settings, Threshold(settings), signatures);
  }

  /** Two frames are alike: one content, or both with a signature and changed by no more than the
      threshold in force allows. */
  ghost predicate Alike(a: Item, b: Item, settings: Settings, signatures: Signatures) {
    || a.contentHash == b.contentHash
    || (signatures.Some? && a.frameId in signatures.value && b.frameId in signatures.value
        && |signatures.value[a.frameId]| == VISUAL_SIGNATURE_BYTES && |signatures.value[b.frameId]| == VISUAL_SIGNATURE_BYTES
        && var change := ChangeScore(signatures.value[a.frameId], signatures.value[b.frameId]);
           change <= 1.0 - settings.similarityThreshold && change <= 1.0 - DEFAULT_FRAME_SIMILARITY_THRESHOLD)
  }

  /** Under change peaks, the members of every kept group are alike their anchor and no further behind
      it than the anchor interval, and the next group's anchor is not. */
  lemma KeptAreAlike(frames: seq<Item>, settings: Settings, nowMs: int, signatures: Signatures, k: nat, i: nat)
    requires k < |KeptGroups(frames, settings, nowMs, signatures)| && i < |KeptGroups(frames, settings, nowMs, signatures)[k]|
    ensures var g := KeptGroups(frames, settings, nowMs, signatures)[k];
            i > 0 ==> Alike(g[0], g[i], settings, signatures) && g[i].capturedAtMs - g[0].capturedAtMs <= settings.anchorIntervalMs
    ensures k + 1 < |KeptGroups(frames, settings, nowMs, signatures)| ==>
              var g, h := KeptGroups(frames, settings, nowMs, signatures)[k], KeptGroups(frames, settings, nowMs, signatures)[k + 1];
              h != [] && !(Alike(g[0], h[0], settings, signatures) && h[0].capturedAtMs - g[0].capturedAtMs <= settings.anchorIntervalMs)
  {
    var kept := KeptGroups(frames, settings, nowMs, signatures);
    KeptAreNewest(frames, settings, nowMs, signatures);
    assert Anchored(kept[k], settings, Threshold(settings), signatures);
    if i > 0 {
      JoinsIff(kept[k][0], kept[k][i], settings, signatures);
    }
    if k + 1 < |kept| {
      assert Opens(kept[k + 1 - 1], kept[k + 1], settings, Threshold(settings), signatures);
      JoinsIff(kept[k][0], kept[k + 1][0], settings, signatures);
    }
  }

  lemma JoinsIff(a: Item, b: Item, settings: Settings, signatures: Signatures)
    ensures Joins(a, b, settings, Threshold(settings), signatures) <==>
            Alike(a, b, settings, signatures) && b.capturedAtMs - a.capturedAtMs <= settings.anchorIntervalMs
  {
  }

  /** Which strategy selects what: under change peaks one frame, the newest, of each kept group; under
      the other two the newest candidates themselves. */
  lemma StrategySelects(frames: seq<Item>, settings: Settings, nowMs: int, signatures: Signatures)
    ensures var selected, candidates := Selected(frames, settings, nowMs, signatures), Candidates(frames, settings, nowMs);
            match settings.strategy
            case ChangePeaks =>
              var kept := KeptGroups(frames, settings, nowMs, signatures);
              |selected| == |kept| && forall k :: 0 <= k < |kept| ==> kept[k] != [] && selected[k] == kept[k][|kept[k]| - 1]
            case _ =>
              && |selected| <= |candidates| && selected == candidates[|candidates| - |selected|..]
              && (|selected| == |candidates| || |selected| == settings.frameBundleSize || |selected| == FRAME_BUNDLE_SELECTION_LIMIT)
  {
    if settings.strategy.ChangePeaks? {
      PeaksAreNewest(frames, settings, nowMs, signatures);
    } else {
      LatestSelected(frames, settings, nowMs, signatures);
    }
  }

  lemma KeptAscend(frames: seq<Item>, settings: Settings, nowMs: int, signatures: Signatures)
    ensures var kept := KeptGroups(frames, settings, nowMs, signatures);
            forall k :: 0 <= k < |kept| ==> Ascending(kept[k], FrameKey) && Anchored(kept[k], settings, Threshold(settings), signatures)
  {
    var kept, candidates := KeptGroups(frames, settings, nowMs, signatures), Candidates(frames, settings, nowMs);
    CandidatesAscend(frames, settings, nowMs);
    KeptAreNewest(frames, settings, nowMs, signatures);
    forall k | 0 <= k < |kept|
      ensures kept[k] != []
    {
      assert Anchored(kept[k], settings, Threshold(settings), signatures);
    }
    SuffixOfAscending(candidates, |Flatten(kept)|);
    NewestAscend(kept);
  }

  // ---------------------------------------------------------------------------------------
  // The code
  // ---------------------------------------------------------------------------------------

  method SelectFrameBundle(frames: seq<Item>, settings: Settings, nowMs: int, signatures: Signatures) returns (selected: seq<Item>)
    ensures selected == Selected(frames, settings, nowMs, signatures)
  {
    var windowStart := nowMs - Min(settings.frameWindowMs, MAX_FRAME_WINDOW_MS);
    var byId: Dict<string, Item> := [];
    var sorted := Sort(frames, FrameKey);
    for i := 0 to |sorted|
      invariant byId == Index(Windowed(sorted[..i], settings, nowMs), IdOf)
    {
      assert sorted[..i + 1][..i] == sorted[..i];
      var frame := sorted[i];
      if frame.capturedAtMs < windowStart || frame.capturedAtMs > nowMs {
        assert Windowed(sorted[..i + 1], settings, nowMs) == Windowed(sorted[..i], settings, nowMs);
        continue;
      }
      ghost var before := Windowed(sorted[..i], settings, nowMs);
      assert (before + [frame])[..|before|] == before;
      byId := Put(byId, frame.frameId, frame);
    }
    assert sorted[..|sorted|] == sorted;
    var candidates := Sort(Values(byId), FrameKey);
    var count := Min(Min(FRAME_BUNDLE_SELECTION_LIMIT, settings.frameBundleSize), |candidates|);
    if count == 0 {
      return [];
    }
    if settings.strategy.LatestN? || settings.strategy.EvenlySpaced? {
      return candidates[|candidates| - count..];
    }
    selected := SimilarFrameRepresentatives(candidates, count, settings, Threshold(settings), signatures);
  }

  /** `_similar_frame_representatives` */
  method SimilarFrameRepresentatives(candidates: seq<Item>, count: nat, settings: Settings, threshold: real, signatures: Signatures) returns (selected: seq<Item>)
    requires candidates != []
    ensures selected == LastN(Newest(Groups(candidates, settings, threshold, signatures)), count)
  {
    var groups: seq<seq<Item>> := [[candidates[0]]];
    assert candidates[..1] == [candidates[0]];
    for i := 1 to |candidates|
      invariant groups == Groups(candidates[..i], settings, threshold, signatures)
    {
      assert candidates[..i + 1][..i] == candidates[..i];
      var frame, last := candidates[i], |groups| - 1;
      var anchor: Item := groups[last][0];
      if frame.capturedAtMs - anchor.capturedAtMs <= settings.anchorIntervalMs && SimilarToAnchor(anchor, frame, threshold, signatures) {
        groups := groups[..last] + [groups[last] + [frame]];
      } else {
        groups := groups + [[frame]];
      }
    }
    assert candidates[..|candidates|] == candidates;
    return LastN(Newest(groups), count);
  }
}
