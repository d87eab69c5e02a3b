/** Lexicographic comparison of integer sequences and the canonical sorted form it induces.

    Every sort in the modelled code uses a key that is a tuple of integers and strings, or a
    string alone.  Such a key is encoded here as one sequence of integers, so one strict total
    order serves Python's tuple and code point comparison and the code unit comparison of
    canonical JSON.
  */
module Lexicographic {

  /** a comes strictly before b: at the first difference, or because a is a proper prefix of b. */
  predicate Less(a: seq<int>, b: seq<int>) {
    b != [] && (a == [] || a[0] < b[0] || (a[0] == b[0] && Less(a[1..], b[1..])))
  }

  lemma {:induction false} LessIrreflexive(a: seq<int>)
    ensures !Less(a, a)
  {
    if a != [] {
      LessIrreflexive(a[1..]);
    }
  }

  lemma {:induction false} LessTransitive(a: seq<int>, b: seq<int>, c: seq<int>)
    requires Less(a, b) && Less(b, c)
    ensures Less(a, c)
  {
    if a != [] && a[0] == b[0] == c[0] {
      LessTransitive(a[1..], b[1..], c[1..]);
    }
  }

  lemma {:induction false} LessTrichotomy(a: seq<int>, b: seq<int>)
    ensures Less(a, b) || a == b || Less(b, a)
  {
    if a != [] && b != [] && a[0] == b[0] {
      LessTrichotomy(a[1..], b[1..]);
      assert a == [a[0]] + a[1..] && b == [b[0]] + b[1..];
    }
  }

  lemma LessAsymmetric(a: seq<int>, b: seq<int>)
    requires Less(a, b)
    ensures !Less(b, a)
  {
    if Less(b, a) {
      LessTransitive(a, b, a);
      LessIrreflexive(a);
    }
  }

  /** The code points of a string; string order is the order of these sequences. */
  function Codes(s: string): (r: seq<int>)
    ensures |r| == |s|
    ensures forall i :: 0 <= i < |s| ==> r[i] == s[i] as int
  {
    seq(|s|, i requires 0 <= i < |s| => s[i] as int)
  }

  lemma CodesInjective(a: string, b: string)
    requires Codes(a) == Codes(b)
    ensures a == b
  {
    forall i | 0 <= i < |a|
      ensures a[i] == b[i]
    {
      assert Codes(a)[i] == Codes(b)[i];
    }
  }

  /** Adjacent elements of s have strictly increasing keys. */
  ghost predicate Ascending<T>(s: seq<T>, key: T -> seq<int>) {
    forall i, j :: 0 <= i < j < |s| ==> Less(key(s[i]), key(s[j]))
  }

  ghost predicate DistinctKeys<T>(s: seq<T>, key: T -> seq<int>) {
    forall i, j :: 0 <= i < j < |s| ==> key(s[i]) != key(s[j])
  }

  /** The elements of s as a set. */
  ghost function Elements<T>(s: seq<T>): set<T> {
    set x | x in s
  }

  function Insert<T>(x: T, s: seq<T>, key: T -> seq<int>): seq<T> {
    if s == [] then [x]
    else if !Less(key(s[0]), key(x)) then [x] + s
    else [s[0]] + Insert(x, s[1..], key)
  }

  /** Python's `sorted` with a key: elements with equal keys stay in order. */
  function Sort<T>(s: seq<T>, key: T -> seq<int>): seq<T> {
    if s == [] then [] else Insert(s[0], Sort(s[1..], key), key)
  }

  lemma {:induction false} InsertElements<T>(x: T, s: seq<T>, key: T -> seq<int>)
    ensures Elements(Insert(x, s, key)) == Elements(s) + {x}
    ensures |Insert(x, s, key)| == |s| + 1
  {
    if s != [] {
      assert s == [s[0]] + s[1..];
      if Less(key(s[0]), key(x)) {
        InsertElements(x, s[1..], key);
        var tail := Insert(x, s[1..], key);
        ElementsCons(s[0], tail);
        ElementsCons(s[0], s[1..]);
      } else {
        ElementsCons(x, s);
      }
    }
  }

  lemma ElementsCons<T>(x: T, s: seq<T>)
    ensures Elements([x] + s) == {x} + Elements(s)
  {
  }

  lemma {:induction false} InsertAscending<T>(x: T, s: seq<T>, key: T -> seq<int>)
    requires Ascending(s, key)
    requires forall i :: 0 <= i < |s| ==> key(s[i]) != key(x)
    ensures Ascending(Insert(x, s, key), key)
  {
    if s == [] {
    } else if !Less(key(s[0]), key(x)) {
      LessTrichotomy(key(x), key(s[0]));
      forall j | 0 < j < |s|
        ensures Less(key(x), key(s[j]))
      {
        LessTransitive(key(x), key(s[0]), key(s[j]));
      }
    } else {
      var tail := Insert(x, s[1..], key);
      InsertAscending(x, s[1..], key);
      InsertElements(x, s[1..], key);
      forall j | 0 <= j < |tail|
        ensures Less(key(s[0]), key(tail[j]))
      {
        assert tail[j] in Elements(tail);
        if tail[j] != x {
          var k :| 1 <= k < |s| && s[k] == tail[j];
        }
      }
    }
  }

  /** Sorting keeps the elements and their number, and leaves distinct keys in ascending order. */
  lemma {:induction false} SortSorts<T>(s: seq<T>, key: T -> seq<int>)
    ensures |Sort(s, key)| == |s|
    ensures Elements(Sort(s, key)) == Elements(s)
    ensures DistinctKeys(s, key) ==> Ascending(Sort(s, key), key)
  {
    if s != [] {
      var tail := Sort(s[1..], key);
      SortSorts(s[1..], key);
      InsertElements(s[0], tail, key);
      ElementsCons(s[0], s[1..]);
      assert s == [s[0]] + s[1..];
      if DistinctKeys(s, key) {
        forall i | 0 <= i < |tail|
          ensures key(tail[i]) != key(s[0])
        {
          assert tail[i] in Elements(tail);
          var k :| 1 <= k < |s| && s[k] == tail[i];
        }
        InsertAscending(s[0], tail, key);
      }
    }
  }

  /** No later element has a smaller key. */
  ghost predicate Ordered<T>(s: seq<T>, key: T -> seq<int>) {
    forall i, j :: 0 <= i < j < |s| ==> !Less(key(s[j]), key(s[i]))
  }

  lemma {:induction false} InsertOrdered<T>(x: T, s: seq<T>, key: T -> seq<int>)
    requires Ordered(s, key)
    ensures Ordered(Insert(x, s, key), key)
  {
    if s == [] {
    } else if !Less(key(s[0]), key(x)) {
      forall j | 0 <= j < |s|
        ensures !Less(key(s[j]), key(x))
      {
        if Less(key(s[j]), key(x)) {
          LessTrichotomy(key(s[0]), key(s[j]));
          if Less(key(s[0]), key(s[j])) {
            LessTransitive(key(s[0]), key(s[j]), key(x));
          }
        }
      }
    } else {
      var tail := Insert(x, s[1..], key);
      InsertOrdered(x, s[1..], key);
      InsertElements(x, s[1..], key);
      forall j | 0 <= j < |tail|
        ensures !Less(key(tail[j]), key(s[0]))
      {
        assert tail[j] in Elements(tail);
        if tail[j] == x {
          LessAsymmetric(key(s[0]), key(x));
        } else {
          var k :| 1 <= k < |s| && s[k] == tail[j];
        }
      }
    }
  }

  /** Sorting orders any sequence. */
  lemma {:induction false} SortOrders<T>(s: seq<T>, key: T -> seq<int>)
    ensures Ordered(Sort(s, key), key)
  {
    if s != [] {
      SortOrders(s[1..], key);
      InsertOrdered(s[0], Sort(s[1..], key), key);
    }
  }

  lemma EmptyElements<T>(s: seq<T>)
    ensures Elements(s) == {} ==> s == []
  {
    assert s != [] ==> s[0] in Elements(s);
  }

  /** An ascending sequence is determined by its set of elements. */
  lemma {:induction false} AscendingUnique<T>(a: seq<T>, b: seq<T>, key: T -> seq<int>)
    requires Ascending(a, key) && Ascending(b, key)
    requires Elements(a) == Elements(b)
    ensures a == b
  {
    if a == [] {
      EmptyElements(b);
    } else {
      assert a[0] in Elements(b);
      assert b[0] in Elements(a);
      HeadIsLeast(a, b, key);
      HeadIsLeast(b, a, key);
      LessAsymmetricOrEqual(key(a[0]), key(b[0]));
      var i :| 0 <= i < |b| && b[i] == a[0];
      LessIrreflexive(key(a[0]));
      TailElements(a, key);
      TailElements(b, key);
      AscendingUnique(a[1..], b[1..], key);
      assert a == [a[0]] + a[1..] && b == [b[0]] + b[1..];
    }
  }

  lemma HeadIsLeast<T>(a: seq<T>, b: seq<T>, key: T -> seq<int>)
    requires a != [] && Ascending(b, key) && a[0] in b
    ensures key(b[0]) == key(a[0]) || Less(key(b[0]), key(a[0]))
  {
    var i :| 0 <= i < |b| && b[i] == a[0];
  }

  lemma LessAsymmetricOrEqual(a: seq<int>, b: seq<int>)
    requires a == b || Less(a, b)
    requires a == b || Less(b, a)
    ensures a == b
  {
    if a != b {
      LessAsymmetric(a, b);
    }
  }

  lemma TailElements<T>(a: seq<T>, key: T -> seq<int>)
    requires a != [] && Ascending(a, key)
    ensures Elements(a[1..]) == Elements(a) - {a[0]}
  {
    forall x
      ensures x in Elements(a[1..]) <==> x in Elements(a) - {a[0]}
    {
      if x in a[1..] {
        var i :| 1 <= i < |a| && a[i] == x;
        LessIrreflexive(key(x));
      }
    }
  }

  /** Two sequences with the same elements and distinct keys sort to the same sequence. */
  lemma SortCanonical<T>(a: seq<T>, b: seq<T>, key: T -> seq<int>)
    requires DistinctKeys(a, key) && DistinctKeys(b, key)
    requires Elements(a) == Elements(b)
    ensures Sort(a, key) == Sort(b, key)
  {
    SortSorts(a, key);
    SortSorts(b, key);
    AscendingUnique(Sort(a, key), Sort(b, key), key);
  }
}
