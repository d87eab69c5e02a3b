/** Sequences without repetitions, and order-preserving parts of sequences. */
module Sequences {

  ghost predicate NoDuplicates<T>(s: seq<T>) {
    forall i, j :: 0 <= i < j < |s| ==> s[i] != s[j]
  }

  /** The first position of x, or |s|. */
  function IndexOf<T(==)>(s: seq<T>, x: T): (i: nat)
    ensures i <= |s|
    ensures i < |s| ==> s[i] == x
    ensures forall j :: 0 <= j < i ==> s[j] != x
  {
    if s == [] || s[0] == x then 0 else 1 + IndexOf(s[1..], x)
  }

  /** part is all at the strictly increasing positions at. */
  ghost predicate PickedAt<T>(part: seq<T>, all: seq<T>, at: seq<int>) {
    && |at| == |part|
    && (forall i :: 0 <= i < |part| ==> 0 <= at[i] < |all| && all[at[i]] == part[i])
    && (forall i, j :: 0 <= i < j < |part| ==> at[i] < at[j])
  }

  ghost predicate Subsequence<T>(part: seq<T>, all: seq<T>) {
    exists at :: PickedAt(part, all, at)
  }

  lemma Empty<T>(all: seq<T>)
    ensures Subsequence([], all)
  {
    assert PickedAt([], all, []);
  }

  lemma Extend<T>(part: seq<T>, all: seq<T>, x: T)
    requires Subsequence(part, all)
    ensures Subsequence(part + [x], all + [x])
  {
    var at :| PickedAt(part, all, at);
    var at' := at + [|all|];
    assert PickedAt(part + [x], all + [x], at');
  }

  lemma Skip<T>(part: seq<T>, all: seq<T>, x: T)
    requires Subsequence(part, all)
    ensures Subsequence(part, all + [x])
  {
    var at :| PickedAt(part, all, at);
    assert PickedAt(part, all + [x], at);
  }

  lemma {:induction false} ExtendAll<T>(part: seq<T>, all: seq<T>, more: seq<T>)
    requires Subsequence(part, all)
    ensures Subsequence(part + more, all + more)
  {
    if more == [] {
      assert part + more == part && all + more == all;
    } else {
      var front, last := more[..|more| - 1], more[|more| - 1];
      ExtendAll(part, all, front);
      Extend(part + front, all + front, last);
      assert part + front + [last] == part + more && all + front + [last] == all + more;
    }
  }

  lemma Without<T>(part: seq<T>, all: seq<T>, i: nat)
    requires Subsequence(part, all) && i < |part|
    ensures Subsequence(part[..i] + part[i + 1..], all)
  {
    var at :| PickedAt(part, all, at);
    assert PickedAt(part[..i] + part[i + 1..], all, at[..i] + at[i + 1..]);
  }

  /** Leaving out a middle stretch. */
  lemma WithoutRange<T>(a: seq<T>, b: seq<T>, c: seq<T>, all: seq<T>)
    requires Subsequence(a + b + c, all)
    ensures Subsequence(a + c, all)
  {
    var at :| PickedAt(a + b + c, all, at);
    var at' := at[..|a|] + at[|a| + |b|..];
    forall i | 0 <= i < |a + c|
      ensures 0 <= at'[i] < |all| && all[at'[i]] == (a + c)[i]
    {
      assert (a + b + c)[if i < |a| then i else i + |b|] == (a + c)[i];
    }
    assert PickedAt(a + c, all, at');
  }

  /** A part of a sequence without repetitions has none. */
  lemma PartOfDistinct<T>(part: seq<T>, all: seq<T>)
    requires Subsequence(part, all)
    requires NoDuplicates(all)
    ensures NoDuplicates(part)
  {
    var at :| PickedAt(part, all, at);
  }
}
