/** The canonical form of a corpus of records, independent of the order in which they come. */
module CorpusRecords {
  import opened Lexicographic
  import opened OrderedDict

  /** What a field of a raw record can hold, as far as `_stable_id` and `_count` tell it apart; for a
      text or a float, what `int` makes of it. */
  datatype Field = Absent | Integer(value: int) | Boolean(truth: bool) | Convertible(parsed: int) | Opaque

  /** A record, by its text, its place, its weight, and its canonical JSON line. */
  datatype Record = Record(barrage: string, stableId: int, count: nat, line: string)

  /** `_stable_id` */
  function StableId(id: Field): int {
    if id.Integer? then id.value else 0x8000_0000_0000_0000 - 1
  }

  /** `_count` */
  function Count(cnt: Field): nat {
    match cnt
    case Integer(value) => if value > 0 then value else 0
    case Boolean(truth) => if truth then 1 else 0
    case Convertible(parsed) => if parsed > 0 then parsed else 0
    case _ => 0
  }

  function FromFields(barrage: string, id: Field, cnt: Field, line: string): Record {
    Record(barrage, StableId(id), Count(cnt), line)
  }

  /** `_record_choice_key` */
  function ChoiceKey(r: Record): seq<int> {
    [0 - r.count as int, r.stableId] + Codes(r.line)
  }

  /** The sort key `(barrage, _stable_id)`; -1 ends the text before any longer one continues. */
  function SortKey(r: Record): seq<int> {
    Codes(r.barrage) + [-1, r.stableId]
  }

  function BarrageOf(r: Record): string {
    r.barrage
  }

  lemma {:induction false} EndedOrder(a: seq<int>, x: int, b: seq<int>, y: int)
    requires (forall i :: 0 <= i < |a| ==> a[i] >= 0) && (forall i :: 0 <= i < |b| ==> b[i] >= 0)
    ensures Less(a + [-1, x], b + [-1, y]) <==> Less(a, b) || (a == b && x < y)
    ensures a + [-1, x] == b + [-1, y] ==> a == b && x == y
  {
    var p, q := a + [-1, x], b + [-1, y];
    if a != [] && b != [] {
      assert p[0] == a[0] && q[0] == b[0];
      assert p[1..] == a[1..] + [-1, x] && q[1..] == b[1..] + [-1, y];
      assert a == [a[0]] + a[1..] && b == [b[0]] + b[1..];
      EndedOrder(a[1..], x, b[1..], y);
    } else if a == [] && b == [] {
      assert p == [-1, x] && q == [-1, y] && p[1..] == [x] && q[1..] == [y];
      assert [x][1..] == [] && [y][1..] == [];
      assert Less([x], [y]) <==> x < y;
    } else if a == [] {
      assert p[0] == -1 && q[0] == b[0];
    } else {
      assert p[0] == a[0] && q[0] == -1;
    }
  }

  /** The encoded sort key orders records as the tuple does. */
  lemma SortKeyOrder(a: Record, b: Record)
    ensures Less(SortKey(a), SortKey(b)) <==>
            Less(Codes(a.barrage), Codes(b.barrage)) || (a.barrage == b.barrage && a.stableId < b.stableId)
    ensures SortKey(a) == SortKey(b) ==> a.barrage == b.barrage
  {
    EndedOrder(Codes(a.barrage), a.stableId, Codes(b.barrage), b.stableId);
    if Codes(a.barrage) == Codes(b.barrage) {
      CodesInjective(a.barrage, b.barrage);
    }
  }

  /** The encoded choice key orders records as the tuple does, and tells two records with the same
      text apart. */
  lemma ChoiceKeyOrder(a: Record, b: Record)
    ensures Less(ChoiceKey(a), ChoiceKey(b)) <==>
            || a.count > b.count
            || (a.count == b.count && a.stableId < b.stableId)
            || (a.count == b.count && a.stableId == b.stableId && Less(Codes(a.line), Codes(b.line)))
    ensures ChoiceKey(a) == ChoiceKey(b) && a.barrage == b.barrage ==> a == b
  {
    var p, q := ChoiceKey(a), ChoiceKey(b);
    assert p[1..][1..] == Codes(a.line) && q[1..][1..] == Codes(b.line);
    assert p[1..][0] == a.stableId && q[1..][0] == b.stableId;
    if p == q {
      assert p[0] == q[0] && p[1] == q[1];
      CodesInjective(a.line, b.line);
    }
  }

  // ---------------------------------------------------------------------------------------
  // Canonical records
  // ---------------------------------------------------------------------------------------

  function ByBarrage(records: seq<Record>): Dict<string, Record> {
    if records == [] then []
    else
      var before, r := ByBarrage(records[..|records| - 1]), records[|records| - 1];
      if !Has(before, r.barrage) || Less(ChoiceKey(r), ChoiceKey(Get(before, r.barrage))) then Put(before, r.barrage, r)
      else before
  }

  /** `canonical_records` */
  function CanonicalRecords(records: seq<Record>): seq<Record> {
    Sort(Values(ByBarrage(records)), SortKey)
  }

  /** r is the one record of its text that the canonical form keeps: the most copied, then the one
      with the least id, then the one with the least line. */
  ghost predicate Chosen(r: Record, records: set<Record>) {
    r in records && forall x :: x in records && x.barrage == r.barrage && x != r ==> Less(ChoiceKey(r), ChoiceKey(x))
  }

  ghost predicate Holds(d: Dict<string, Record>, records: seq<Record>) {
    && Distinct(d)
    && (forall b :: Has(d, b) ==> Get(d, b).barrage == b && Chosen(Get(d, b), Elements(records)))
    && (forall r :: r in records ==> Has(d, r.barrage))
  }

  lemma ChosenMore(before: seq<Record>, r: Record, best: Record)
    requires Chosen(best, Elements(before))
    ensures best.barrage != r.barrage || !Less(ChoiceKey(r), ChoiceKey(best)) ==> Chosen(best, Elements(before + [r]))
    ensures best.barrage == r.barrage && Less(ChoiceKey(r), ChoiceKey(best)) ==> Chosen(r, Elements(before + [r]))
  {
    ChoiceKeyOrder(best, r);
    LessTrichotomy(ChoiceKey(r), ChoiceKey(best));
    assert Elements(before + [r]) == Elements(before) + {r};
    if best.barrage == r.barrage && Less(ChoiceKey(r), ChoiceKey(best)) {
      forall x | x in Elements(before) && x.barrage == r.barrage && x != r
        ensures Less(ChoiceKey(r), ChoiceKey(x))
      {
        if x != best {
          LessTransitive(ChoiceKey(r), ChoiceKey(best), ChoiceKey(x));
        }
      }
    }
  }

  lemma HoldsMore(d: Dict<string, Record>, before: seq<Record>, r: Record)
    requires Holds(d, before)
    ensures Holds(if !Has(d, r.barrage) || Less(ChoiceKey(r), ChoiceKey(Get(d, r.barrage))) then Put(d, r.barrage, r) else d, before + [r])
  {
    var replaced := !Has(d, r.barrage) || Less(ChoiceKey(r), ChoiceKey(Get(d, r.barrage)));
    var d' := if replaced then Put(d, r.barrage, r) else d;
    PutDistinct(d, r.barrage, r);
    forall b
      ensures Has(d', b) <==> Has(d, b) || b == r.barrage
      ensures Has(d', b) ==> Get(d', b).barrage == b && Chosen(Get(d', b), Elements(before + [r]))
    {
      PutGet(d, r.barrage, r, b);
      if Has(d, b) {
        ChosenMore(before, r, Get(d, b));
      }
      if !Has(d, r.barrage) && b == r.barrage {
        NewIsChosen(before, r);
      }
    }
  }

  lemma NewIsChosen(before: seq<Record>, r: Record)
    requires forall x :: x in before ==> x.barrage != r.barrage
    ensures Chosen(r, Elements(before + [r]))
  {
    assert Elements(before + [r]) == Elements(before) + {r};
  }

  lemma SplitLast<T>(s: seq<T>)
    requires s != []
    ensures s == s[..|s| - 1] + [s[|s| - 1]]
  {
  }

  lemma {:induction false} ByBarrageHolds(records: seq<Record>)
    ensures Holds(ByBarrage(records), records)
  {
    if records != [] {
      var n := |records| - 1;
      SplitLast(records);
      ByBarrageHolds(records[..n]);
      HoldsMore(ByBarrage(records[..n]), records[..n], records[n]);
    }
  }

  lemma ValuesOf(d: Dict<string, Record>, r: Record)
    requires Distinct(d) && forall b :: Has(d, b) ==> Get(d, b).barrage == b
    ensures r in Values(d) <==> Has(d, r.barrage) && Get(d, r.barrage) == r
  {
    if r in Values(d) {
      var i :| 0 <= i < |d| && Values(d)[i] == r;
      FindAt(d, i);
      assert Has(d, d[i].0);
    }
    if Has(d, r.barrage) {
      assert Values(d)[Find(d, r.barrage)] == Get(d, r.barrage);
    }
  }

  lemma ValuesDistinctKeys(d: Dict<string, Record>)
    requires Distinct(d) && forall b :: Has(d, b) ==> Get(d, b).barrage == b
    ensures DistinctKeys(Values(d), SortKey)
  {
    forall i, j | 0 <= i < j < |d|
      ensures SortKey(Values(d)[i]) != SortKey(Values(d)[j])
    {
      FindAt(d, i);
      FindAt(d, j);
      assert Has(d, d[i].0) && Has(d, d[j].0);
      SortKeyOrder(d[i].1, d[j].1);
    }
  }

  /** The canonical form is the ascending sequence of the chosen records, one for every text. */
  lemma CanonicalIsChosen(records: seq<Record>)
    ensures Ascending(CanonicalRecords(records), SortKey)
    ensures forall r :: r in CanonicalRecords(records) <==> Chosen(r, Elements(records))
  {
    var d := ByBarrage(records);
    ByBarrageHolds(records);
    ValuesDistinctKeys(d);
    SortSorts(Values(d), SortKey);
    forall r
      ensures r in CanonicalRecords(records) <==> Chosen(r, Elements(records))
    {
      assert r in Elements(CanonicalRecords(records)) <==> r in Elements(Values(d));
      ValuesOf(d, r);
      if Chosen(r, Elements(records)) {
        OneChosen(r, Get(d, r.barrage), Elements(records));
      }
    }
  }

  lemma OneChosen(a: Record, b: Record, records: set<Record>)
    requires Chosen(a, records) && Chosen(b, records) && a.barrage == b.barrage
    ensures a == b
  {
    if a != b {
      LessAsymmetric(ChoiceKey(a), ChoiceKey(b));
    }
  }

  /** Two sequences with the same chosen records have the same canonical form. */
  lemma SameChosen(a: seq<Record>, b: seq<Record>)
    requires forall r :: Chosen(r, Elements(a)) <==> Chosen(r, Elements(b))
    ensures CanonicalRecords(a) == CanonicalRecords(b)
  {
    CanonicalIsChosen(a);
    CanonicalIsChosen(b);
    var p, q := CanonicalRecords(a), CanonicalRecords(b);
    assert forall r :: r in Elements(p) <==> r in p;
    assert forall r :: r in Elements(q) <==> r in q;
    AscendingUnique(p, q, SortKey);
  }

  /** The count field stands for a positive number. */
  predicate Counts(cnt: Field) {
    (cnt.Integer? && cnt.value > 0) || (cnt.Boolean? && cnt.truth) || (cnt.Convertible? && cnt.parsed > 0)
  }

  /** Which of two records of one text is given up, by their raw fields: a count that is absent,
      unreadable, zero or negative loses to every positive one; and between equal counts an id that is
      not an integer, such as a truth value, loses to every integer below 2^63 - 1 and beats every
      greater one. */
  lemma FieldsDecide(records: seq<Record>, text: string, id: Field, cnt: Field, line: string, id': Field, cnt': Field, line': string)
    requires FromFields(text, id, cnt, line) in records && FromFields(text, id', cnt', line') in records
    ensures Counts(cnt) && !Counts(cnt') ==> FromFields(text, id', cnt', line') !in CanonicalRecords(records)
    ensures Count(cnt) == Count(cnt') && id.Integer? && id.value < 0x8000_0000_0000_0000 - 1 && !id'.Integer? ==>
              FromFields(text, id', cnt', line') !in CanonicalRecords(records)
    ensures Count(cnt) == Count(cnt') && id.Integer? && id.value > 0x8000_0000_0000_0000 - 1 && !id'.Integer? ==>
              FromFields(text, id, cnt, line) !in CanonicalRecords(records)
  {
    var x, y := FromFields(text, id, cnt, line), FromFields(text, id', cnt', line');
    CanonicalIsChosen(records);
    ChoiceKeyOrder(x, y);
    ChoiceKeyOrder(y, x);
    assert x in Elements(records) && y in Elements(records);
  }

  /** The order and the number of copies of the input records do not matter. */
  lemma PermutationInvariant(a: seq<Record>, b: seq<Record>)
    requires Elements(a) == Elements(b)
    ensures CanonicalRecords(a) == CanonicalRecords(b)
  {
    SameChosen(a, b);
  }

  lemma EveryTextIsChosen(records: seq<Record>, x: Record)
    requires x in records
    ensures exists r :: Chosen(r, Elements(records)) && r.barrage == x.barrage
  {
    ByBarrageHolds(records);
    assert Chosen(Get(ByBarrage(records), x.barrage), Elements(records));
  }

  /** Canonicalising part of the input first changes nothing. */
  lemma Absorption(a: seq<Record>, b: seq<Record>)
    ensures CanonicalRecords(CanonicalRecords(a) + b) == CanonicalRecords(a + b)
  {
    var c := CanonicalRecords(a);
    CanonicalIsChosen(a);
    assert Elements(c + b) <= Elements(a + b);
    forall r
      ensures Chosen(r, Elements(c + b)) <==> Chosen(r, Elements(a + b))
    {
      if Chosen(r, Elements(a + b)) {
        ChosenStays(a, b, c, r);
      }
      if Chosen(r, Elements(c + b)) {
        ChosenOverAll(a, b, c, r);
      }
    }
    SameChosen(c + b, a + b);
  }

  lemma ChosenStays(a: seq<Record>, b: seq<Record>, c: seq<Record>, r: Record)
    requires (forall x :: x in c <==> Chosen(x, Elements(a))) && Chosen(r, Elements(a + b))
    ensures Chosen(r, Elements(c + b))
  {
    if r in a {
      assert forall x :: x in Elements(a) ==> x in Elements(a + b);
      assert Chosen(r, Elements(a));
    }
    assert r in c + b;
    forall x | x in Elements(c + b) && x.barrage == r.barrage && x != r
      ensures Less(ChoiceKey(r), ChoiceKey(x))
    {
      assert x in a + b;
    }
  }

  lemma ChosenOverAll(a: seq<Record>, b: seq<Record>, c: seq<Record>, r: Record)
    requires (forall x :: x in c <==> Chosen(x, Elements(a))) && Chosen(r, Elements(c + b))
    ensures Chosen(r, Elements(a + b))
  {
    assert r in a + b;
    forall x | x in Elements(a + b) && x.barrage == r.barrage && x != r
      ensures Less(ChoiceKey(r), ChoiceKey(x))
    {
      if x in b {
        assert x in Elements(c + b);
      } else {
        EveryTextIsChosen(a, x);
        var best :| Chosen(best, Elements(a)) && best.barrage == x.barrage;
        assert best in Elements(c + b);
        if best != x && best != r {
          LessTransitive(ChoiceKey(r), ChoiceKey(best), ChoiceKey(x));
        }
      }
    }
  }

  lemma Idempotent(records: seq<Record>)
    ensures CanonicalRecords(CanonicalRecords(records)) == CanonicalRecords(records)
  {
    Absorption(records, []);
    assert CanonicalRecords(records) + [] == CanonicalRecords(records) && records + [] == records;
  }

  /** Every text of the input is kept once, with a record of maximal count. */
  lemma KeepsMostCopied(records: seq<Record>, x: Record)
    requires x in records
    ensures exists i :: 0 <= i < |CanonicalRecords(records)| && IsKept(records, x, i)
  {
    CanonicalIsChosen(records);
    EveryTextIsChosen(records, x);
    var r :| Chosen(r, Elements(records)) && r.barrage == x.barrage;
    assert r in CanonicalRecords(records);
    var i :| 0 <= i < |CanonicalRecords(records)| && CanonicalRecords(records)[i] == r;
    ChoiceKeyOrder(r, x);
    forall j | 0 <= j < |CanonicalRecords(records)| && CanonicalRecords(records)[j].barrage == x.barrage
      ensures j == i
    {
      assert CanonicalRecords(records)[j] in CanonicalRecords(records);
      OneChosen(r, CanonicalRecords(records)[j], Elements(records));
      LessIrreflexive(SortKey(r));
    }
    assert IsKept(records, x, i);
  }

  ghost predicate IsKept(records: seq<Record>, x: Record, i: nat) {
    var kept := CanonicalRecords(records);
    && i < |kept| && kept[i] in records && kept[i].barrage == x.barrage && kept[i].count >= x.count
    && forall j :: 0 <= j < |kept| && kept[j].barrage == x.barrage ==> j == i
  }

  // ---------------------------------------------------------------------------------------
  // Output bytes
  // ---------------------------------------------------------------------------------------

  const NEWLINE := '\n'

  /** `"\n".join(lines)` */
  function Joined(lines: seq<string>): string {
    if lines == [] then ""
    else if |lines| == 1 then lines[0]
    else lines[0] + [NEWLINE] + Joined(lines[1..])
  }

  function Lines(records: seq<Record>): (r: seq<string>)
    ensures |r| == |records|
    ensures forall i :: 0 <= i < |r| ==> r[i] == records[i].line
  {
    seq(|records|, i requires 0 <= i < |records| => records[i].line)
  }

  /** `jsonl_bytes`, before its text is encoded */
  function JsonlText(records: seq<Record>): string {
    var text := Joined(Lines(records));
    if text != "" then text + [NEWLINE] else ""
  }

  /** The lines a reader finds: what stands before each newline. */
  function ReadLines(text: string): seq<string> {
    var i := FindNewline(text);
    if i == |text| then [] else [text[..i]] + ReadLines(text[i + 1..])
  }

  function FindNewline(text: string): (i: nat)
    ensures i <= |text|
    ensures i < |text| ==> text[i] == NEWLINE
    ensures forall j :: 0 <= j < i ==> text[j] != NEWLINE
  {
    if text == "" || text[0] == NEWLINE then 0 else 1 + FindNewline(text[1..])
  }

  ghost predicate OneLine(line: string) {
    line != "" && NEWLINE !in line
  }

  lemma {:induction false} ReadJoined(lines: seq<string>)
    requires lines != [] && forall l :: l in lines ==> OneLine(l)
    ensures Joined(lines) != "" && ReadLines(Joined(lines) + [NEWLINE]) == lines
  {
    var first := lines[0];
    assert OneLine(first);
    if |lines| == 1 {
      ReadFirst(first, "");
      assert first + [NEWLINE] + "" == Joined(lines) + [NEWLINE];
      assert ReadLines("") == [];
    } else {
      var rest := Joined(lines[1..]) + [NEWLINE];
      ReadJoined(lines[1..]);
      ReadFirst(first, rest);
      assert first + [NEWLINE] + rest == Joined(lines) + [NEWLINE];
      assert lines == [first] + lines[1..];
    }
  }

  lemma ReadFirst(first: string, rest: string)
    requires OneLine(first)
    ensures ReadLines(first + [NEWLINE] + rest) == [first] + ReadLines(rest)
  {
    var text := first + [NEWLINE] + rest;
    assert text[|first|] == NEWLINE;
    assert forall j :: 0 <= j < |first| ==> text[j] == first[j] && first[j] in first;
    assert FindNewline(text) == |first|;
    assert text[..|first|] == first && text[|first| + 1..] == rest;
  }

  /** Reading the output back gives its lines: JSON text has no raw newline. */
  lemma JsonlRoundTrip(records: seq<Record>)
    requires forall r :: r in records ==> OneLine(r.line)
    ensures ReadLines(JsonlText(records)) == Lines(records)
  {
    if records == [] {
      assert Lines(records) == [];
    } else {
      forall l | l in Lines(records)
        ensures OneLine(l)
      {
        var i :| 0 <= i < |records| && Lines(records)[i] == l;
        assert records[i] in records;
      }
      ReadJoined(Lines(records));
    }
  }

  /** The output bytes depend only on which records come in; writing them, reading them back,
      adding more and writing again gives what all records together would have given. */
  lemma OutputIsCanonical(a: seq<Record>, b: seq<Record>, c: seq<Record>)
    requires Elements(a) == Elements(b)
    ensures JsonlText(CanonicalRecords(a)) == JsonlText(CanonicalRecords(b))
    ensures JsonlText(CanonicalRecords(CanonicalRecords(a))) == JsonlText(CanonicalRecords(a))
    ensures JsonlText(CanonicalRecords(CanonicalRecords(a) + c)) == JsonlText(CanonicalRecords(b + c))
  {
    PermutationInvariant(a, b);
    Idempotent(a);
    Absorption(a, c);
    assert Elements(a + c) == Elements(a) + Elements(c) == Elements(b + c);
    PermutationInvariant(a + c, b + c);
  }

  // ---------------------------------------------------------------------------------------
  // The code
  // ---------------------------------------------------------------------------------------

  method CollectCanonicalRecords(records: seq<Record>) returns (canonical: seq<Record>)
    ensures canonical == CanonicalRecords(records)
  {
    var byBarrage: Dict<string, Record> := [];
    for i := 0 to |records|
      invariant byBarrage == ByBarrage(records[..i])
    {
      assert records[..i + 1][..i] == records[..i];
      var item := records[i];
      if !Has(byBarrage, item.barrage) || Less(ChoiceKey(item), ChoiceKey(Get(byBarrage, item.barrage))) {
        byBarrage := Put(byBarrage, item.barrage, item);
      }
    }
    assert records[..|records|] == records;
    return Sort(Values(byBarrage), SortKey);
  }
}
