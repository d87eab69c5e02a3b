/** Python's insertion-ordered dictionary (`dict`, `OrderedDict`) as a sequence of entries. */
module OrderedDict {
  import opened Sequences

  type Dict<K, V> = seq<(K, V)>

  ghost predicate Distinct<K, V>(d: Dict<K, V>) {
    forall i, j :: 0 <= i < j < |d| ==> d[i].0 != d[j].0
  }

  function Keys<K, V>(d: Dict<K, V>): (r: seq<K>)
    ensures |r| == |d|
    ensures forall i :: 0 <= i < |d| ==> r[i] == d[i].0
  {
    seq(|d|, i requires 0 <= i < |d| => d[i].0)
  }

  /** The position of key k, or |d| when the key is absent. */
  function Find<K(==), V>(d: Dict<K, V>, k: K): (i: nat)
    ensures i <= |d|
    ensures i < |d| ==> d[i].0 == k
    ensures forall j :: 0 <= j < i ==> d[j].0 != k
  {
    IndexOf(Keys(d), k)
  }

  predicate Has<K(==), V>(d: Dict<K, V>, k: K) {
    Find(d, k) < |d|
  }

  function Get<K(==), V>(d: Dict<K, V>, k: K): V
    requires Has(d, k)
  {
    d[Find(d, k)].1
  }

  /** `d[k] = v`: an existing key keeps its position, a new one goes to the end. */
  function Put<K(==), V>(d: Dict<K, V>, k: K, v: V): Dict<K, V> {
    if Has(d, k) then d[Find(d, k) := (k, v)] else d + [(k, v)]
  }

  /** `d.pop(k, None)` */
  function Remove<K(==), V>(d: Dict<K, V>, k: K): Dict<K, V> {
    if Has(d, k) then d[..Find(d, k)] + d[Find(d, k) + 1..] else d
  }

  /** `d.move_to_end(k)` for a present key */
  function MoveToEnd<K(==), V>(d: Dict<K, V>, k: K): Dict<K, V>
    requires Has(d, k)
  {
    Remove(d, k) + [(k, Get(d, k))]
  }

  function Values<K, V>(d: Dict<K, V>): (r: seq<V>)
    ensures |r| == |d|
    ensures forall i :: 0 <= i < |d| ==> r[i] == d[i].1
  {
    seq(|d|, i requires 0 <= i < |d| => d[i].1)
  }

  /** The unordered content. */
  ghost function ToMap<K, V>(d: Dict<K, V>): map<K, V> {
    map k | k in (set e | e in d :: e.0) :: Get(d, k)
  }

  lemma FindAt<K, V>(d: Dict<K, V>, i: nat)
    requires Distinct(d) && i < |d|
    ensures Find(d, d[i].0) == i
  {
    var f := Find(d, d[i].0);
    assert f <= i;
  }

  lemma HasIff<K, V>(d: Dict<K, V>, k: K)
    ensures Has(d, k) <==> k in ToMap(d)
    ensures Has(d, k) ==> ToMap(d)[k] == Get(d, k)
  {
    if Has(d, k) {
      assert d[Find(d, k)] in d;
    }
  }

  /** An entry of a dictionary with distinct keys is found under its key. */
  lemma EntryInMap<K, V>(d: Dict<K, V>, i: nat)
    requires Distinct(d) && i < |d|
    ensures d[i].0 in ToMap(d) && ToMap(d)[d[i].0] == d[i].1
  {
    FindAt(d, i);
    HasIff(d, d[i].0);
  }

  lemma PutDistinct<K, V>(d: Dict<K, V>, k: K, v: V)
    requires Distinct(d)
    ensures Distinct(Put(d, k, v)) && Has(Put(d, k, v), k) && Get(Put(d, k, v), k) == v
  {
    var at := Find(d, k);
    assert Put(d, k, v)[at] == (k, v);
    FindAt(Put(d, k, v), at);
  }

  lemma PutOther<K, V>(d: Dict<K, V>, k: K, v: V, x: K)
    requires Distinct(d) && x != k
    ensures Has(Put(d, k, v), x) <==> Has(d, x)
    ensures Has(d, x) ==> Get(Put(d, k, v), x) == Get(d, x)
  {
    var p := Put(d, k, v);
    PutDistinct(d, k, v);
    if Has(d, x) {
      assert p[Find(d, x)] == d[Find(d, x)];
      FindAt(p, Find(d, x));
    }
    if Has(p, x) {
      assert p[Find(p, x)] == d[Find(p, x)];
    }
  }

  lemma PutMap<K, V>(d: Dict<K, V>, k: K, v: V)
    requires Distinct(d)
    ensures Distinct(Put(d, k, v))
    ensures ToMap(Put(d, k, v)) == ToMap(d)[k := v]
  {
    var p := Put(d, k, v);
    PutDistinct(d, k, v);
    forall x
      ensures x in ToMap(p) <==> x in ToMap(d)[k := v]
      ensures x in ToMap(p) ==> ToMap(p)[x] == ToMap(d)[k := v][x]
    {
      HasIff(d, x);
      HasIff(p, x);
      if x != k {
        PutOther(d, k, v, x);
      }
    }
  }

  lemma EntryIff<K, V>(d: Dict<K, V>, k: K, v: V)
    requires Distinct(d)
    ensures (k, v) in d <==> k in ToMap(d) && ToMap(d)[k] == v
  {
    HasIff(d, k);
    if (k, v) in d {
      var i :| 0 <= i < |d| && d[i] == (k, v);
      EntryInMap(d, i);
    }
    if Has(d, k) {
      assert d[Find(d, k)] == (k, Get(d, k));
    }
  }

  /** An entry is what its key finds. */
  lemma EntryGet<K, V>(d: Dict<K, V>, k: K, v: V)
    requires Distinct(d)
    ensures (k, v) in d <==> Has(d, k) && Get(d, k) == v
  {
    EntryIff(d, k, v);
    HasIff(d, k);
  }

  lemma PutGet<K, V>(d: Dict<K, V>, k: K, v: V, x: K)
    requires Distinct(d)
    ensures Has(Put(d, k, v), x) <==> Has(d, x) || x == k
    ensures Has(Put(d, k, v), x) ==> Get(Put(d, k, v), x) == if x == k then v else Get(d, x)
  {
    PutDistinct(d, k, v);
    if x != k {
      PutOther(d, k, v, x);
    }
  }

  lemma Appended<K, V>(d: Dict<K, V>, k: K, v: V)
    requires Distinct(d) && !Has(d, k)
    ensures Distinct(d + [(k, v)])
    ensures forall x :: Has(d + [(k, v)], x) <==> Has(d, x) || x == k
    ensures forall x :: Has(d + [(k, v)], x) ==> Get(d + [(k, v)], x) == if x == k then v else Get(d, x)
  {
    assert Put(d, k, v) == d + [(k, v)];
    PutDistinct(d, k, v);
    forall x
      ensures Has(d + [(k, v)], x) <==> Has(d, x) || x == k
      ensures Has(d + [(k, v)], x) ==> Get(d + [(k, v)], x) == if x == k then v else Get(d, x)
    {
      PutGet(d, k, v, x);
    }
  }

  lemma RemoveKeeps<K, V>(d: Dict<K, V>, k: K, e: (K, V))
    requires Distinct(d)
    ensures e in Remove(d, k) <==> e in d && e.0 != k
  {
    var r, f := Remove(d, k), Find(d, k);
    if f < |d| {
      if e in d && e.0 != k {
        var j :| 0 <= j < |d| && d[j] == e;
        assert r[if j < f then j else j - 1] == e;
      }
      if e in r {
        var i :| 0 <= i < |r| && r[i] == e;
        assert d[if i < f then i else i + 1] == e;
      }
    }
  }

  lemma RemoveDistinct<K, V>(d: Dict<K, V>, k: K)
    requires Distinct(d)
    ensures Distinct(Remove(d, k))
  {
    var r, f := Remove(d, k), Find(d, k);
    assert f < |d| ==> forall i :: 0 <= i < |r| ==> r[i] == d[if i < f then i else i + 1];
  }

  lemma RemoveEntries<K, V>(d: Dict<K, V>, k: K)
    requires Distinct(d)
    ensures Distinct(Remove(d, k))
    ensures forall e :: e in Remove(d, k) <==> e in d && e.0 != k
  {
    RemoveDistinct(d, k);
    forall e
      ensures e in Remove(d, k) <==> e in d && e.0 != k
    {
      RemoveKeeps(d, k, e);
    }
  }

  lemma RemoveMap<K, V>(d: Dict<K, V>, k: K)
    requires Distinct(d)
    ensures Distinct(Remove(d, k))
    ensures ToMap(Remove(d, k)) == ToMap(d) - {k}
  {
    RemoveEntries(d, k);
    var r := ToMap(Remove(d, k));
    var m := ToMap(d) - {k};
    forall x | x in r
      ensures x in m && m[x] == r[x]
    {
      EntryIff(Remove(d, k), x, r[x]);
      EntryIff(d, x, r[x]);
    }
    forall x | x in m
      ensures x in r
    {
      EntryIff(d, x, m[x]);
      EntryIff(Remove(d, k), x, m[x]);
    }
  }

  lemma Removed<K, V>(d: Dict<K, V>, k: K)
    requires Distinct(d)
    ensures Distinct(Remove(d, k)) && |Remove(d, k)| <= |d|
    ensures forall x :: Has(Remove(d, k), x) <==> Has(d, x) && x != k
    ensures forall x :: x != k && Has(d, x) ==> Get(Remove(d, k), x) == Get(d, x)
  {
    RemoveMap(d, k);
    forall x
      ensures Has(Remove(d, k), x) <==> Has(d, x) && x != k
      ensures x != k && Has(d, x) ==> Get(Remove(d, k), x) == Get(d, x)
    {
      HasIff(d, x);
      HasIff(Remove(d, k), x);
    }
  }

  /** `{id(x): x for x in s}`: a later element replaces an earlier one with the same id. */
  function Index<T>(s: seq<T>, id: T -> string): Dict<string, T> {
    if s == [] then [] else Put(Index(s[..|s| - 1], id), id(s[|s| - 1]), s[|s| - 1])
  }

  lemma {:induction false} IndexDistinct<T>(s: seq<T>, id: T -> string)
    ensures Distinct(Index(s, id))
    ensures forall i :: 0 <= i < |Index(s, id)| ==> Index(s, id)[i].0 == id(Index(s, id)[i].1)
    ensures forall i :: 0 <= i < |Index(s, id)| ==> Index(s, id)[i].1 in s
  {
    if s != [] {
      IndexDistinct(s[..|s| - 1], id);
      PutMap(Index(s[..|s| - 1], id), id(s[|s| - 1]), s[|s| - 1]);
    }
  }

  /** Indexing a concatenation overlays the second index on the first. */
  lemma {:induction false} IndexConcat<T>(a: seq<T>, b: seq<T>, id: T -> string)
    ensures ToMap(Index(a + b, id)) == ToMap(Index(a, id)) + ToMap(Index(b, id))
  {
    if b == [] {
      assert a + b == a;
    } else {
      var front, last := b[..|b| - 1], b[|b| - 1];
      assert (a + b)[..|a + b| - 1] == a + front;
      IndexConcat(a, front, id);
      IndexDistinct(a + front, id);
      IndexDistinct(front, id);
      PutMap(Index(a + front, id), id(last), last);
      PutMap(Index(front, id), id(last), last);
    }
  }

  /** Every element's id is present in the index. */
  lemma {:induction false} IndexCovers<T>(s: seq<T>, id: T -> string)
    ensures forall x :: x in s ==> id(x) in ToMap(Index(s, id))
  {
    if s != [] {
      IndexCovers(s[..|s| - 1], id);
      IndexDistinct(s[..|s| - 1], id);
      PutMap(Index(s[..|s| - 1], id), id(s[|s| - 1]), s[|s| - 1]);
      assert s == s[..|s| - 1] + [s[|s| - 1]];
    }
  }

  /** The index holds, for every id, the last element with that id. */
  lemma {:induction false} IndexIsLast<T>(s: seq<T>, id: T -> string, k: string)
    requires k in ToMap(Index(s, id))
    ensures exists i :: 0 <= i < |s| && IsLast(s, id, i, k) && s[i] == ToMap(Index(s, id))[k]
  {
    if s != [] {
      var n := |s| - 1;
      IndexDistinct(s[..n], id);
      PutMap(Index(s[..n], id), id(s[n]), s[n]);
      if id(s[n]) == k {
        assert IsLast(s, id, n, k);
      } else {
        IndexIsLast(s[..n], id, k);
        var i :| 0 <= i < n && IsLast(s[..n], id, i, k) && s[..n][i] == ToMap(Index(s[..n], id))[k];
        LastOfLonger(s, id, i, k);
      }
    }
  }

  lemma LastOfLonger<T>(s: seq<T>, id: T -> string, i: nat, k: string)
    requires s != [] && IsLast(s[..|s| - 1], id, i, k) && id(s[|s| - 1]) != k
    ensures IsLast(s, id, i, k)
  {
    assert forall j :: 0 <= j < |s| - 1 ==> s[..|s| - 1][j] == s[j];
  }

  ghost predicate IsLast<T>(s: seq<T>, id: T -> string, i: nat, k: string) {
    i < |s| && id(s[i]) == k && forall j :: i < j < |s| ==> id(s[j]) != k
  }
}
