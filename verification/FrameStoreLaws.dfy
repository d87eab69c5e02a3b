/** What the frame store promises about single frames and about its limits, spelled out. */
module FrameStoreLaws {
  import opened FrameStore
  import opened Options
  import opened OrderedDict

  /** The reference that storing the input under the id gives out. */
  ghost function RefOf(input: FrameInput, id: string): FrameRef {
    FrameRef(id, input.capturedAtMs, input.mimeType, DataRef(id))
  }

  /** A stored frame is available under exactly the reference it was stored with, in its own session,
      and resolves to what was stored. */
  lemma StoredIsResolved(d: Frames, input: FrameInput, id: string, retained: nat, session: string, ref: FrameRef)
    requires Distinct(d) && (DataRef(id), Stored(Resolved(input, id), retained)) in d
    requires ref.dataRef == DataRef(id)
    ensures Available(d, session, ref) <==> session == input.sessionId && ref == RefOf(input, id)
    ensures Available(d, session, ref) ==>
              var frame := Get(d, ref.dataRef).resolved;
              && frame.sessionId == input.sessionId && frame.frameId == id && frame.inputId == input.inputId
              && frame.capturedAtMs == input.capturedAtMs && frame.mimeType == input.mimeType && frame.body == input.body
  {
    EntryGet(d, DataRef(id), Stored(Resolved(input, id), retained));
  }

  /** The bytes of all stored frames, as a sum over their positions from the end. */
  ghost function BytesUpTo(d: Frames, n: nat): nat
    requires n <= |d|
  {
    if n == 0 then 0 else BytesUpTo(d, n - 1) + |d[n - 1].1.resolved.body|
  }

  lemma {:induction false} BytesAreSum(d: Frames, n: nat)
    requires n <= |d|
    ensures TotalBytes(d[..n]) == BytesUpTo(d, n)
  {
    if n > 0 {
      BytesAreSum(d, n - 1);
      assert d[..n] == d[..n - 1] + [d[n - 1]];
      TotalBytesConcat(d[..n - 1], [d[n - 1]]);
      assert [d[n - 1]][1..] == [];
    }
  }

  ghost predicate Fits(d: Frames, limits: Limits) {
    |d| <= limits.maxFrames && BytesUpTo(d, |d|) <= limits.maxTotalBytes
  }

  lemma FitsIff(d: Frames, limits: Limits)
    ensures Fits(d, limits) <==> WithinLimits(d, limits)
  {
    BytesAreSum(d, |d|);
    assert d[..|d|] == d;
  }

  /** Dropping k frames is not enough, dropping one more leaves kept. */
  ghost predicate JustFits(d: Frames, kept: Frames, limits: Limits, k: nat) {
    kept == DropUnretained(d, k + 1) && !Fits(DropUnretained(d, k), limits)
  }

  /** Eviction leaves the store within both limits unless every frame left is retained; it takes
      nothing from a store that fits, and only as many frames as it must: with one fewer gone, the
      store would not fit. */
  lemma EvictsOnlyToFit(d: Frames, kept: Frames, limits: Limits)
    requires IsEvicted(d, kept, limits)
    ensures Fits(kept, limits) || forall i :: 0 <= i < |kept| ==> kept[i].1.retained > 0
    ensures Fits(d, limits) ==> kept == d
    ensures kept == d || exists k: nat :: JustFits(d, kept, limits, k)
  {
    var k: nat :| IsEvictedBy(d, kept, limits, k);
    FitsIff(kept, limits);
    FitsIff(d, limits);
    NoneDropped(d);
    if k > 0 {
      FitsIff(DropUnretained(d, k - 1), limits);
      assert !WithinLimits(DropUnretained(d, 0), limits);
      assert JustFits(d, kept, limits, k - 1);
    }
  }

  lemma NoneDropped(d: Frames)
    ensures DropUnretained(d, 0) == d
  {
  }

  /** Of two unretained frames the less recently used one goes first. */
  lemma {:induction false} DropsOldestFirst(d: Frames, k: nat, i: nat, j: nat)
    requires Distinct(d) && i < j < |d| && d[i].1.retained == 0 && d[j].1.retained == 0
    ensures d[i] in DropUnretained(d, k) ==> d[j] in DropUnretained(d, k)
    decreases d
  {
    if k > 0 {
      var rest := DropUnretained(d[1..], if d[0].1.retained == 0 then k - 1 else k);
      DropKeepsRetained(d[1..], if d[0].1.retained == 0 then k - 1 else k);
      if i > 0 {
        DropsOldestFirst(d[1..], if d[0].1.retained == 0 then k - 1 else k, i - 1, j - 1);
      } else {
        NotAmong(d);
      }
    }
  }

  lemma NotAmong(d: Frames)
    requires d != [] && Distinct(d)
    ensures d[0] !in d[1..]
  {
  }
}
