/** Canonical text decides equality of values: it is insertion-order independent and injective. */
module CanonicalJsonProofs {
  import opened Lexicographic
  import opened CanonicalJson
  import opened Sets

  // ---------------------------------------------------------------------------------------
  // Which values print
  // ---------------------------------------------------------------------------------------

  lemma {:induction false} ItemsPrintIff(parent: Json, items: seq<Json>)
    requires parent.Arr? && forall i :: i in items ==> i in parent.items
    ensures SerializeItems(parent, items).Success? <==> forall i :: i in items ==> Printable(i)
    decreases parent, 0, |items|
  {
    if items != [] {
      ItemInside(parent, items[0]);
      PrintsIff(items[0]);
      assert items == [items[0]] + items[1..];
      if |items| > 1 {
        ItemsPrintIff(parent, items[1..]);
      }
    }
  }

  lemma {:induction false} MembersPrintIff(parent: Json, members: seq<Member>)
    requires parent.Obj? && forall m :: m in members ==> m in parent.members
    ensures SerializeMembers(parent, members).Success? <==> forall m :: m in members ==> Printable(m.value)
    decreases parent, 0, |members|
  {
    if members != [] {
      MemberInside(parent, members[0]);
      PrintsIff(members[0].value);
      assert members == [members[0]] + members[1..];
      if |members| > 1 {
        MembersPrintIff(parent, members[1..]);
      }
    }
  }

  lemma SortedMembers(members: seq<Member>)
    ensures forall m :: m in Sort(members, MemberKey) <==> m in members
    ensures |Sort(members, MemberKey)| == |members|
    ensures DistinctKeys(members, MemberKey) ==> Ascending(Sort(members, MemberKey), MemberKey)
  {
    SortSorts(members, MemberKey);
    forall m
      ensures m in Sort(members, MemberKey) <==> m in members
    {
      assert m in Elements(Sort(members, MemberKey)) <==> m in Elements(members);
    }
  }

  /** The printer succeeds exactly on the values without `undefined` and non-finite numbers. */
  lemma {:induction false} PrintsIff(v: Json)
    ensures Serialize(v).Success? <==> Printable(v)
    decreases v, 1, 0
  {
    match v
    case Arr(items) => ItemsPrintIff(v, items);
    case Obj(members) =>
      SortedMembers(members);
      MembersPrintIff(v, Sort(members, MemberKey));
    case _ =>
  }

  /** The canonical text of a printable value. */
  ghost function TextOf(v: Json): seq<int>
    requires Printable(v)
  {
    PrintsIff(v);
    Serialize(v).text
  }

  // ---------------------------------------------------------------------------------------
  // Strings can be read back
  // ---------------------------------------------------------------------------------------

  ghost function HexValue(d: int): int {
    if 0x30 <= d <= 0x39 then d - 0x30 else d - 0x61 + 10
  }

  lemma HexDigitReads(n: int)
    requires 0 <= n < 16
    ensures HexValue(HexDigit(n)) == n
  {
  }

  /** The code unit a two-character escape stands for. */
  ghost function ShortEscape(c: int): int {
    if c == 0x62 then 0x08 else if c == 0x74 then 0x09 else if c == 0x6E then 0x0A
    else if c == 0x66 then 0x0C else if c == 0x72 then 0x0D else c
  }

  /** Read a quoted string's content up to the closing quote: the code units, and what follows. */
  ghost function Unescape(w: seq<int>): (seq<int>, seq<int>) {
    if w == [] then ([], [])
    else if w[0] == QUOTE then ([], w[1..])
    else if w[0] != BACKSLASH then
      var (s, rest) := Unescape(w[1..]);
      ([w[0]] + s, rest)
    else if |w| >= 6 && w[1] == 0x75 then
      var (s, rest) := Unescape(w[6..]);
      ([4096 * HexValue(w[2]) + 256 * HexValue(w[3]) + 16 * HexValue(w[4]) + HexValue(w[5])] + s, rest)
    else if |w| >= 2 then
      var (s, rest) := Unescape(w[2..]);
      ([ShortEscape(w[1])] + s, rest)
    else ([], [])
  }

  lemma HexSplit(c: CodeUnit)
    ensures 4096 * (c / 4096) + 256 * (c / 256 % 16) + 16 * (c / 16 % 16) + c % 16 == c
    ensures 0 <= c / 4096 < 16
  {
    assert c / 16 == 16 * (c / 256) + c / 16 % 16;
    assert c / 256 == 16 * (c / 4096) + c / 256 % 16;
  }

  lemma UnescapeRaw(c: int, w: seq<int>)
    requires c != QUOTE && c != BACKSLASH
    ensures Unescape([c] + w) == ([c] + Unescape(w).0, Unescape(w).1)
  {
    assert ([c] + w)[1..] == w;
  }

  lemma UnescapeShort(e: int, w: seq<int>)
    requires e != 0x75
    ensures Unescape([BACKSLASH, e] + w) == ([ShortEscape(e)] + Unescape(w).0, Unescape(w).1)
  {
    var t := [BACKSLASH, e] + w;
    assert t[0] == BACKSLASH && t[1] == e && t[2..] == w;
  }

  lemma UnescapeHex(c: CodeUnit, w: seq<int>)
    ensures Unescape(UnicodeEscape(c) + w) == ([c as int] + Unescape(w).0, Unescape(w).1)
  {
    var t := UnicodeEscape(c) + w;
    assert t[0] == BACKSLASH && t[1] == 0x75 && t[6..] == w;
    HexSplit(c);
    HexDigitReads(c / 4096);
    HexDigitReads(c / 256 % 16);
    HexDigitReads(c / 16 % 16);
    HexDigitReads(c % 16);
    assert t[2] == HexDigit(c / 4096) && t[3] == HexDigit(c / 256 % 16) && t[4] == HexDigit(c / 16 % 16) && t[5] == HexDigit(c % 16);
  }

  /** Reading one escaped unit gives the unit. */
  lemma UnescapeUnit(c: CodeUnit, w: seq<int>)
    ensures Unescape(EscapeUnit(c) + w) == ([c as int] + Unescape(w).0, Unescape(w).1)
  {
    var e := EscapeUnit(c);
    UnitForms(c);
    if |e| == 1 {
      UnescapeRaw(c, w);
    } else if |e| == 2 {
      UnescapeShort(e[1], w);
    } else {
      UnescapeHex(c, w);
    }
  }

  /** The three forms of an escaped unit. */
  lemma UnitForms(c: CodeUnit)
    ensures var e := EscapeUnit(c);
            || (e == [c as int] && c != QUOTE && c != BACKSLASH)
            || (|e| == 2 && e == [BACKSLASH, e[1]] && e[1] != 0x75 && ShortEscape(e[1]) == c as int)
            || (|e| == 6 && e == UnicodeEscape(c))
  {
  }

  lemma UnescapeEnd(w: seq<int>)
    ensures Unescape([QUOTE] + w) == ([], w)
  {
    assert ([QUOTE] + w)[1..] == w;
  }

  /** Escaping a string and reading it back gives the string and leaves what follows. */
  lemma {:induction false} UnescapeEscape(s: Text, w: seq<int>)
    ensures Unescape(Escape(s) + ([QUOTE] + w)) == (s, w)
  {
    var rest := [QUOTE] + w;
    if s == [] {
      assert Escape(s) + rest == rest;
      UnescapeEnd(w);
    } else if |s| >= 2 && IsLead(s[0]) && IsTrail(s[1]) {
      UnescapeEscape(s[2..], w);
      Split([s[0], s[1]], Escape(s[2..]), rest);
      var tail := Escape(s[2..]) + rest;
      UnescapeRaw(s[1], tail);
      UnescapeRaw(s[0], [s[1] as int] + tail);
      assert [s[0] as int, s[1] as int] + tail == [s[0] as int] + ([s[1] as int] + tail);
      assert s == [s[0]] + ([s[1]] + s[2..]);
    } else {
      UnescapeEscape(s[1..], w);
      Split(EscapeUnit(s[0]), Escape(s[1..]), rest);
      UnescapeUnit(s[0], Escape(s[1..]) + rest);
      assert s == [s[0]] + s[1..];
    }
  }

  lemma Split(a: seq<int>, b: seq<int>, c: seq<int>)
    ensures (a + b) + c == a + (b + c)
  {
  }

  /** Quoted strings are uniquely readable, whatever follows them. */
  lemma QuoteInjective(s: Text, t: Text, x: seq<int>, y: seq<int>)
    requires Quote(s) + x == Quote(t) + y
    ensures s == t && x == y
  {
    UnescapeEscape(s, x);
    UnescapeEscape(t, y);
    QuoteTail(s, x);
    QuoteTail(t, y);
  }

  lemma QuoteTail(s: Text, x: seq<int>)
    ensures (Quote(s) + x)[1..] == Escape(s) + ([QUOTE] + x)
  {
  }

  // ---------------------------------------------------------------------------------------
  // Numbers can be read back
  // ---------------------------------------------------------------------------------------

  predicate IsDigit(c: int) { 0x30 <= c <= 0x39 }

  /** What follows a value never continues a number. */
  ghost predicate Follows(x: seq<int>) {
    x == [] || !IsDigit(x[0])
  }

  ghost function DecimalValue(s: seq<int>): int {
    if s == [] then 0 else 10 * DecimalValue(s[..|s| - 1]) + (s[|s| - 1] - 0x30)
  }

  lemma {:induction false} DecimalReads(n: nat)
    ensures DecimalValue(Decimal(n)) == n
    ensures Decimal(n) != [] && forall i :: 0 <= i < |Decimal(n)| ==> IsDigit(Decimal(n)[i])
  {
    if n < 10 {
      assert Decimal(n)[..0] == [];
    } else {
      DecimalReads(n / 10);
      assert Decimal(n)[..|Decimal(n)| - 1] == Decimal(n / 10);
    }
  }

  lemma AtLeft(a: seq<int>, x: seq<int>, i: nat)
    ensures i < |a| ==> (a + x)[i] == a[i]
  {
  }

  lemma AtRight(a: seq<int>, x: seq<int>)
    ensures x != [] ==> (a + x)[|a|] == x[0]
  {
  }

  /** Digits followed by no digit are not a proper prefix of other digits. */
  lemma NoLonger(a: seq<int>, b: seq<int>, x: seq<int>, y: seq<int>)
    requires a + x == b + y && Follows(x)
    requires forall i :: 0 <= i < |b| ==> IsDigit(b[i])
    ensures |b| <= |a|
  {
    AtLeft(b, y, |a|);
    AtRight(a, x);
  }

  lemma DecimalInjective(m: nat, n: nat, x: seq<int>, y: seq<int>)
    requires Follows(x) && Follows(y) && Decimal(m) + x == Decimal(n) + y
    ensures m == n && x == y
  {
    DecimalReads(m);
    DecimalReads(n);
    var a, b := Decimal(m), Decimal(n);
    NoLonger(a, b, x, y);
    NoLonger(b, a, y, x);
    assert a == (a + x)[..|a|] && b == (b + y)[..|b|];
    TailsEqual(a, x, y);
  }

  lemma IntegerHead(n: int)
    ensures PrintInteger(n) != []
    ensures n < 0 ==> PrintInteger(n)[0] == MINUS && PrintInteger(n)[1..] == Decimal(-n)
    ensures n >= 0 ==> PrintInteger(n) == Decimal(n) && IsDigit(PrintInteger(n)[0])
  {
    DecimalReads(if n < 0 then -n else n);
  }

  lemma DropHead(a: seq<int>, b: seq<int>, x: seq<int>, y: seq<int>)
    requires a != [] && b != [] && a + x == b + y
    ensures a[0] == b[0] && a[1..] + x == b[1..] + y
  {
    assert (a + x)[0] == a[0] && (b + y)[0] == b[0];
    assert (a + x)[1..] == a[1..] + x && (b + y)[1..] == b[1..] + y;
  }

  lemma IntegerInjective(m: int, n: int, x: seq<int>, y: seq<int>)
    requires Follows(x) && Follows(y) && PrintInteger(m) + x == PrintInteger(n) + y
    ensures m == n && x == y
  {
    IntegerHead(m);
    IntegerHead(n);
    DropHead(PrintInteger(m), PrintInteger(n), x, y);
    if m < 0 {
      DecimalInjective(-m, -n, x, y);
    } else {
      DecimalInjective(m, n, x, y);
    }
  }

  // ---------------------------------------------------------------------------------------
  // Injectivity
  // ---------------------------------------------------------------------------------------

  /** The first character of a text tells the kind of value. */
  ghost function Kind(v: Json): set<int> {
    match v
    case Null => {0x6E}
    case Boolean(flag) => if flag then {0x74} else {0x66}
    case Num(_) => {0x2D, 0x30, 0x31, 0x32, 0x33, 0x34, 0x35, 0x36, 0x37, 0x38, 0x39}
    case Str(_) => {QUOTE}
    case Arr(_) => {OPEN_ARRAY}
    case Obj(_) => {OPEN_OBJECT}
    case Unsupported => {}
  }

  lemma FirstCharacter(v: Json)
    requires Printable(v)
    ensures TextOf(v) != [] && TextOf(v)[0] in Kind(v)
  {
    PrintsIff(v);
    if v.Num? {
      IntegerHead(NumericValue(v.number));
    }
  }

  lemma KindsDiffer(a: Json, b: Json, c: int)
    requires c in Kind(a) && c in Kind(b)
    ensures match a
            case Null => b.Null?
            case Boolean(_) => b == a
            case Num(_) => b.Num?
            case Str(_) => b.Str?
            case Arr(_) => b.Arr?
            case Obj(_) => b.Obj?
            case Unsupported => true
    ensures c != CLOSE_ARRAY && c != CLOSE_OBJECT && c != COMMA
  {
  }

  ghost predicate AllPrintable(items: seq<Json>) {
    forall i :: i in items ==> Printable(i)
  }

  ghost predicate AllMembersPrintable(members: seq<Member>) {
    forall m :: m in members ==> Printable(m.value)
  }

  /** The joined text of items: the first, then a comma and the others. */
  lemma ItemsText(parent: Json, items: seq<Json>)
    requires parent.Arr? && (forall i :: i in items ==> i in parent.items) && AllPrintable(items) && items != []
    ensures SerializeItems(parent, items).Success?
    ensures |items| == 1 ==> SerializeItems(parent, items).text == TextOf(items[0])
    ensures |items| > 1 ==>
      && SerializeItems(parent, items[1..]).Success?
      && SerializeItems(parent, items).text == TextOf(items[0]) + ([COMMA] + SerializeItems(parent, items[1..]).text)
  {
    ItemsPrintIff(parent, items);
    if |items| > 1 {
      ItemsPrintIff(parent, items[1..]);
      var a, b := TextOf(items[0]), SerializeItems(parent, items[1..]).text;
      assert a + [COMMA] + b == a + ([COMMA] + b);
    }
  }

  lemma Regroup(q: seq<int>, c: seq<int>, b: seq<int>)
    ensures q + [COLON] + c == q + ([COLON] + c)
    ensures q + [COLON] + c + [COMMA] + b == q + ([COLON] + (c + ([COMMA] + b)))
  {
  }

  lemma MembersText(parent: Json, members: seq<Member>)
    requires parent.Obj? && (forall m :: m in members ==> m in parent.members) && AllMembersPrintable(members) && members != []
    ensures SerializeMembers(parent, members).Success?
    ensures |members| == 1 ==> SerializeMembers(parent, members).text == Quote(members[0].key) + ([COLON] + TextOf(members[0].value))
    ensures |members| > 1 ==>
      && SerializeMembers(parent, members[1..]).Success?
      && SerializeMembers(parent, members).text
         == Quote(members[0].key) + ([COLON] + (TextOf(members[0].value) + ([COMMA] + SerializeMembers(parent, members[1..]).text)))
  {
    MembersPrintIff(parent, members);
    if |members| > 1 {
      MembersPrintIff(parent, members[1..]);
      Regroup(Quote(members[0].key), TextOf(members[0].value), SerializeMembers(parent, members[1..]).text);
    } else {
      Regroup(Quote(members[0].key), TextOf(members[0].value), []);
    }
  }

  /** Equal texts, even with something after them, come from the same value. */
  lemma {:induction false} TextInjective(a: Json, b: Json, x: seq<int>, y: seq<int>)
    requires Printable(a) && Printable(b) && Follows(x) && Follows(y)
    requires TextOf(a) + x == TextOf(b) + y
    ensures Same(a, b) && x == y
    decreases a, 1, 0
  {
    FirstCharacter(a);
    FirstCharacter(b);
    DropHead(TextOf(a), TextOf(b), x, y);
    KindsDiffer(a, b, TextOf(a)[0]);
    PrintsIff(a);
    PrintsIff(b);
    match a
    case Num(n) => IntegerInjective(NumericValue(n), NumericValue(b.number), x, y);
    case Str(s) => QuoteInjective(s, b.text, x, y);
    case Arr(items) =>
      ArrayInside(a, x);
      ArrayInside(b, y);
      ItemsInjective(a, items, b, b.items, x, y);
    case Obj(members) => ObjectsInjective(a, b, x, y);
    case Null => assert TextOf(a)[1..] == TextOf(b)[1..]; TailsEqual(TextOf(a), x, y);
    case Boolean(_) => TailsEqual(TextOf(a), x, y);
  }

  lemma TailsEqual(a: seq<int>, x: seq<int>, y: seq<int>)
    requires a + x == a + y
    ensures x == y
  {
    assert x == (a + x)[|a|..] && y == (a + y)[|a|..];
  }

  lemma ArrayInside(a: Json, x: seq<int>)
    requires Printable(a) && a.Arr?
    ensures SerializeItems(a, a.items).Success?
    ensures TextOf(a) != [] && TextOf(a)[1..] + x == SerializeItems(a, a.items).text + ([CLOSE_ARRAY] + x)
  {
    PrintsIff(a);
  }

  lemma ObjectText(a: Json)
    requires Printable(a) && a.Obj?
    ensures SortedMembersInside(a)
    ensures SerializeMembers(a, Sort(a.members, MemberKey)).Success?
    ensures TextOf(a) == [OPEN_OBJECT] + SerializeMembers(a, Sort(a.members, MemberKey)).text + [CLOSE_OBJECT]
  {
    PrintsIff(a);
    SortedMembers(a.members);
  }

  ghost predicate SortedMembersInside(a: Json)
    requires a.Obj?
  {
    forall m :: m in Sort(a.members, MemberKey) ==> m in a.members
  }

  lemma Inside(open: int, s: seq<int>, close: int, x: seq<int>)
    ensures ([open] + s + [close])[1..] + x == s + ([close] + x)
  {
  }

  lemma ObjectInside(a: Json, x: seq<int>)
    requires Printable(a) && a.Obj?
    ensures SortedMembersInside(a)
    ensures SerializeMembers(a, Sort(a.members, MemberKey)).Success?
    ensures TextOf(a) != [] && TextOf(a)[1..] + x == SerializeMembers(a, Sort(a.members, MemberKey)).text + ([CLOSE_OBJECT] + x)
  {
    ObjectText(a);
    Inside(OPEN_OBJECT, SerializeMembers(a, Sort(a.members, MemberKey)).text, CLOSE_OBJECT, x);
  }

  lemma {:induction false} ObjectsInjective(a: Json, b: Json, x: seq<int>, y: seq<int>)
    requires Printable(a) && Printable(b) && a.Obj? && b.Obj?
    requires TextOf(a) != [] && TextOf(b) != [] && TextOf(a)[1..] + x == TextOf(b)[1..] + y
    ensures Same(a, b) && x == y
    decreases a, 0, |a.members| + 1
  {
    var p, q := Sort(a.members, MemberKey), Sort(b.members, MemberKey);
    SortedMembers(a.members);
    SortedMembers(b.members);
    ObjectInside(a, x);
    ObjectInside(b, y);
    MembersInjective(a, p, b, q, x, y);
    MembersPaired(a, b, p, q);
  }

  lemma MembersPaired(a: Json, b: Json, p: seq<Member>, q: seq<Member>)
    requires a.Obj? && b.Obj? && |p| == |q|
    requires forall m :: m in a.members ==> m in p
    requires forall m :: m in q ==> m in b.members
    requires forall i :: 0 <= i < |p| ==> p[i].key == q[i].key && Same(p[i].value, q[i].value)
    ensures forall m :: m in a.members ==> HasSame(m, b.members)
  {
    forall m | m in a.members
      ensures HasSame(m, b.members)
    {
      var i :| 0 <= i < |p| && p[i] == m;
      assert q[i] in b.members;
    }
  }

  lemma {:induction false} ItemsInjective(a: Json, s: seq<Json>, b: Json, t: seq<Json>, x: seq<int>, y: seq<int>)
    requires a.Arr? && (forall i :: i in s ==> i in a.items) && AllPrintable(s)
    requires b.Arr? && (forall i :: i in t ==> i in b.items) && AllPrintable(t)
    requires SerializeItems(a, s).Success? && SerializeItems(b, t).Success?
    requires SerializeItems(a, s).text + ([CLOSE_ARRAY] + x) == SerializeItems(b, t).text + ([CLOSE_ARRAY] + y)
    ensures |s| == |t| && (forall i :: 0 <= i < |s| ==> Same(s[i], t[i])) && x == y
    decreases a, 0, |s|
  {
    if s == [] || t == [] {
      ItemsHead(a, s, x);
      ItemsHead(b, t, y);
      TailsEqual([CLOSE_ARRAY], x, y);
    } else {
      var u, v := ItemsRest(a, s, x), ItemsRest(b, t, y);
      ItemInside(a, s[0]);
      TextInjective(s[0], t[0], u, v);
      assert (|s| == 1 <==> u[0] == CLOSE_ARRAY) && (|t| == 1 <==> v[0] == CLOSE_ARRAY);
      if |s| == 1 {
        assert x == u[1..] && y == v[1..];
      } else {
        assert u[1..] == SerializeItems(a, s[1..]).text + ([CLOSE_ARRAY] + x);
        assert v[1..] == SerializeItems(b, t[1..]).text + ([CLOSE_ARRAY] + y);
        ItemsInjective(a, s[1..], b, t[1..], x, y);
      }
    }
  }

  lemma ItemsHead(a: Json, s: seq<Json>, x: seq<int>)
    requires a.Arr? && (forall i :: i in s ==> i in a.items) && AllPrintable(s)
    ensures SerializeItems(a, s).Success?
    ensures var text := SerializeItems(a, s).text + ([CLOSE_ARRAY] + x);
            (s == [] ==> text == [CLOSE_ARRAY] + x) && (text[0] == CLOSE_ARRAY <==> s == [])
  {
    if s != [] {
      ItemsText(a, s);
      FirstCharacter(s[0]);
      KindsDiffer(s[0], s[0], TextOf(s[0])[0]);
    }
  }

  /** What follows the first item inside an array's text. */
  ghost function ItemsRest(a: Json, s: seq<Json>, x: seq<int>): (r: seq<int>)
    requires a.Arr? && (forall i :: i in s ==> i in a.items) && AllPrintable(s) && s != []
    ensures SerializeItems(a, s).Success? && SerializeItems(a, s).text + ([CLOSE_ARRAY] + x) == TextOf(s[0]) + r
    ensures |s| == 1 ==> r == [CLOSE_ARRAY] + x
    ensures |s| > 1 ==> SerializeItems(a, s[1..]).Success? && r == [COMMA] + (SerializeItems(a, s[1..]).text + ([CLOSE_ARRAY] + x))
    ensures Follows(r)
  {
    ItemsText(a, s);
    if |s| == 1 then [CLOSE_ARRAY] + x
    else
      var rest := SerializeItems(a, s[1..]).text;
      assert (TextOf(s[0]) + ([COMMA] + rest)) + ([CLOSE_ARRAY] + x) == TextOf(s[0]) + ([COMMA] + (rest + ([CLOSE_ARRAY] + x)));
      [COMMA] + (rest + ([CLOSE_ARRAY] + x))
  }

  lemma {:induction false} MembersInjective(a: Json, s: seq<Member>, b: Json, t: seq<Member>, x: seq<int>, y: seq<int>)
    requires a.Obj? && (forall m :: m in s ==> m in a.members) && AllMembersPrintable(s)
    requires b.Obj? && (forall m :: m in t ==> m in b.members) && AllMembersPrintable(t)
    requires SerializeMembers(a, s).Success? && SerializeMembers(b, t).Success?
    requires SerializeMembers(a, s).text + ([CLOSE_OBJECT] + x) == SerializeMembers(b, t).text + ([CLOSE_OBJECT] + y)
    ensures |s| == |t| && (forall i :: 0 <= i < |s| ==> s[i].key == t[i].key && Same(s[i].value, t[i].value)) && x == y
    decreases a, 0, |s|
  {
    if s == [] || t == [] {
      MembersHead(a, s, x);
      MembersHead(b, t, y);
      TailsEqual([CLOSE_OBJECT], x, y);
    } else {
      var u, v := MembersRest(a, s, x), MembersRest(b, t, y);
      QuoteInjective(s[0].key, t[0].key, [COLON] + (TextOf(s[0].value) + u), [COLON] + (TextOf(t[0].value) + v));
      assert TextOf(s[0].value) + u == ([COLON] + (TextOf(s[0].value) + u))[1..];
      assert TextOf(t[0].value) + v == ([COLON] + (TextOf(t[0].value) + v))[1..];
      MemberInside(a, s[0]);
      TextInjective(s[0].value, t[0].value, u, v);
      assert (|s| == 1 <==> u[0] == CLOSE_OBJECT) && (|t| == 1 <==> v[0] == CLOSE_OBJECT);
      if |s| == 1 {
        assert x == u[1..] && y == v[1..];
      } else {
        assert u[1..] == SerializeMembers(a, s[1..]).text + ([CLOSE_OBJECT] + x);
        assert v[1..] == SerializeMembers(b, t[1..]).text + ([CLOSE_OBJECT] + y);
        MembersInjective(a, s[1..], b, t[1..], x, y);
      }
    }
  }

  lemma MembersHead(a: Json, s: seq<Member>, x: seq<int>)
    requires a.Obj? && (forall m :: m in s ==> m in a.members) && AllMembersPrintable(s)
    ensures SerializeMembers(a, s).Success?
    ensures var text := SerializeMembers(a, s).text + ([CLOSE_OBJECT] + x);
            (s == [] ==> text == [CLOSE_OBJECT] + x) && (text[0] == CLOSE_OBJECT <==> s == [])
  {
    if s != [] {
      MembersText(a, s);
    }
  }

  /** What follows the first member's value inside an object's text. */
  ghost function MembersRest(a: Json, s: seq<Member>, x: seq<int>): (r: seq<int>)
    requires a.Obj? && (forall m :: m in s ==> m in a.members) && AllMembersPrintable(s) && s != []
    ensures SerializeMembers(a, s).Success?
    ensures SerializeMembers(a, s).text + ([CLOSE_OBJECT] + x) == Quote(s[0].key) + ([COLON] + (TextOf(s[0].value) + r))
    ensures |s| == 1 ==> r == [CLOSE_OBJECT] + x
    ensures |s| > 1 ==> SerializeMembers(a, s[1..]).Success? && r == [COMMA] + (SerializeMembers(a, s[1..]).text + ([CLOSE_OBJECT] + x))
    ensures Follows(r)
  {
    MembersText(a, s);
    if |s| == 1 then
      RegroupEnd(Quote(s[0].key), TextOf(s[0].value), [], x);
      [CLOSE_OBJECT] + x
    else
      var rest := SerializeMembers(a, s[1..]).text;
      RegroupEnd(Quote(s[0].key), TextOf(s[0].value), rest, x);
      [COMMA] + (rest + ([CLOSE_OBJECT] + x))
  }

  lemma RegroupEnd(q: seq<int>, c: seq<int>, rest: seq<int>, x: seq<int>)
    ensures (q + ([COLON] + c)) + ([CLOSE_OBJECT] + x) == q + ([COLON] + (c + ([CLOSE_OBJECT] + x)))
    ensures (q + ([COLON] + (c + ([COMMA] + rest)))) + ([CLOSE_OBJECT] + x)
         == q + ([COLON] + (c + ([COMMA] + (rest + ([CLOSE_OBJECT] + x)))))
  {
  }

  // ---------------------------------------------------------------------------------------
  // Order independence
  // ---------------------------------------------------------------------------------------

  ghost function Keys(members: seq<Member>): (r: seq<Text>)
    ensures |r| == |members| && forall i :: 0 <= i < |r| ==> r[i] == members[i].key
  {
    seq(|members|, i requires 0 <= i < |members| => members[i].key)
  }

  ghost function Itself(t: Text): seq<int> { t }

  lemma {:induction false} DistinctCount(s: seq<Text>)
    requires forall i, j :: 0 <= i < j < |s| ==> s[i] != s[j]
    ensures |Elements(s)| == |s|
  {
    if s != [] {
      DistinctCount(s[1..]);
      assert s == [s[0]] + s[1..];
      ElementsCons(s[0], s[1..]);
      assert s[0] !in Elements(s[1..]);
    }
  }

  /** Two lists of distinct members in which each member of the first has a counterpart in the
      second, of equal length, sort to the same keys. */
  lemma SortedKeysAgree(s: seq<Member>, t: seq<Member>)
    requires DistinctKeys(s, MemberKey) && DistinctKeys(t, MemberKey) && |s| == |t|
    requires forall m :: m in s ==> exists n :: n in t && n.key == m.key
    ensures Keys(Sort(s, MemberKey)) == Keys(Sort(t, MemberKey))
  {
    SortedMembers(s);
    SortedMembers(t);
    var p, q := Keys(Sort(s, MemberKey)), Keys(Sort(t, MemberKey));
    AscendingKeys(Sort(s, MemberKey));
    AscendingKeys(Sort(t, MemberKey));
    forall k | k in p
      ensures k in q
    {
      var i :| 0 <= i < |p| && p[i] == k;
      var m := Sort(s, MemberKey)[i];
      assert m in s;
      var n :| n in t && n.key == m.key;
      var j :| 0 <= j < |Sort(t, MemberKey)| && Sort(t, MemberKey)[j] == n;
      assert q[j] == k;
    }
    DistinctCount(p);
    DistinctCount(q);
    SubsetSize(Elements(p), Elements(q));
    AscendingUnique(p, q, Itself);
  }

  lemma AscendingKeys(s: seq<Member>)
    requires Ascending(s, MemberKey)
    ensures Ascending(Keys(s), Itself)
    ensures forall i, j :: 0 <= i < j < |s| ==> Keys(s)[i] != Keys(s)[j]
  {
    forall i, j | 0 <= i < j < |s|
      ensures Less(Itself(Keys(s)[i]), Itself(Keys(s)[j])) && Keys(s)[i] != Keys(s)[j]
    {
      assert Less(MemberKey(s[i]), MemberKey(s[j]));
      LessIrreflexive(s[i].key);
    }
  }

  /** Equal up to member order implies equal text. */
  lemma {:induction false} SameText(a: Json, b: Json)
    requires WellFormed(a) && WellFormed(b) && Printable(a) && Printable(b) && Same(a, b)
    ensures TextOf(a) == TextOf(b)
    decreases a, 1, 0
  {
    PrintsIff(a);
    PrintsIff(b);
    match a
    case Arr(items) => SameItemsText(a, items, b, b.items);
    case Obj(members) =>
      var p, q := Sort(members, MemberKey), Sort(b.members, MemberKey);
      SortedMembers(members);
      SortedMembers(b.members);
      forall m | m in members
        ensures exists n :: n in b.members && n.key == m.key
      {
        assert HasSame(m, b.members);
      }
      SortedKeysAgree(members, b.members);
      forall i | 0 <= i < |p|
        ensures p[i].key == q[i].key && Same(p[i].value, q[i].value)
      {
        assert p[i].key == Keys(p)[i] == Keys(q)[i] == q[i].key;
        assert p[i] in members && HasSame(p[i], b.members);
        var n :| n in b.members && n.key == p[i].key && Same(p[i].value, n.value);
        assert q[i] in b.members;
        SameKeySameMember(b.members, n, q[i]);
      }
      SameMembersText(a, p, b, q);
    case _ =>
  }

  lemma SameKeySameMember(members: seq<Member>, m: Member, n: Member)
    requires DistinctKeys(members, MemberKey) && m in members && n in members && m.key == n.key
    ensures m == n
  {
    var i :| 0 <= i < |members| && members[i] == m;
    var j :| 0 <= j < |members| && members[j] == n;
    assert MemberKey(members[i]) == MemberKey(members[j]);
  }

  lemma {:induction false} SameItemsText(a: Json, s: seq<Json>, b: Json, t: seq<Json>)
    requires a.Arr? && (forall i :: i in s ==> i in a.items && WellFormed(i)) && AllPrintable(s)
    requires b.Arr? && (forall i :: i in t ==> i in b.items && WellFormed(i)) && AllPrintable(t)
    requires |s| == |t| && forall i :: 0 <= i < |s| ==> Same(s[i], t[i])
    ensures SerializeItems(a, s).Success? && SerializeItems(a, s) == SerializeItems(b, t)
    decreases a, 0, |s|
  {
    if s != [] {
      ItemsText(a, s);
      ItemsText(b, t);
      ItemInside(a, s[0]);
      SameText(s[0], t[0]);
      if |s| > 1 {
        SameItemsText(a, s[1..], b, t[1..]);
      }
    }
  }

  lemma {:induction false} SameMembersText(a: Json, s: seq<Member>, b: Json, t: seq<Member>)
    requires a.Obj? && (forall m :: m in s ==> m in a.members && WellFormed(m.value)) && AllMembersPrintable(s)
    requires b.Obj? && (forall m :: m in t ==> m in b.members && WellFormed(m.value)) && AllMembersPrintable(t)
    requires |s| == |t| && forall i :: 0 <= i < |s| ==> s[i].key == t[i].key && Same(s[i].value, t[i].value)
    ensures SerializeMembers(a, s).Success? && SerializeMembers(a, s) == SerializeMembers(b, t)
    decreases a, 0, |s|
  {
    if s != [] {
      MembersText(a, s);
      MembersText(b, t);
      MemberInside(a, s[0]);
      SameText(s[0].value, t[0].value);
      if |s| > 1 {
        SameMembersText(a, s[1..], b, t[1..]);
      }
    }
  }

  // ---------------------------------------------------------------------------------------
  // Main results
  // ---------------------------------------------------------------------------------------

  /** Two values print to the same text exactly when they are equal up to member order. */
  lemma CanonicalTextDecides(a: Json, b: Json)
    requires WellFormed(a) && WellFormed(b) && Printable(a) && Printable(b)
    ensures Serialize(a).Success? && Serialize(b).Success?
    ensures Serialize(a) == Serialize(b) <==> Same(a, b)
  {
    PrintsIff(a);
    PrintsIff(b);
    if Same(a, b) {
      SameText(a, b);
    }
    if Serialize(a) == Serialize(b) {
      assert TextOf(a) + [] == TextOf(b) + [];
      TextInjective(a, b, [], []);
    }
  }

  /** Reordering the members of an object does not change its text. */
  lemma MemberOrderIrrelevant(members: seq<Member>, reordered: seq<Member>)
    requires WellFormed(Obj(members)) && Printable(Obj(members))
    requires DistinctKeys(reordered, MemberKey) && Elements(reordered) == Elements(members)
    ensures Serialize(Obj(reordered)) == Serialize(Obj(members))
  {
    SortCanonical(reordered, members, MemberKey);
    forall m | m in reordered
      ensures m in members
    {
      assert m in Elements(members);
    }
    SortedMembers(members);
    SortedMembers(reordered);
    var p := Sort(members, MemberKey);
    forall i | 0 <= i < |p|
      ensures Same(p[i].value, p[i].value)
    {
      assert p[i] in members;
      SameReflexive(p[i].value);
    }
    SameMembersText(Obj(reordered), p, Obj(members), p);
  }

  lemma {:induction false} SameReflexive(v: Json)
    ensures Same(v, v)
  {
    match v
    case Arr(items) =>
      forall i | 0 <= i < |items|
        ensures Same(items[i], items[i])
      {
        SameReflexive(items[i]);
      }
    case Obj(members) =>
      forall m | m in members
        ensures HasSame(m, members)
      {
        MemberInside(v, m);
        SameReflexive(m.value);
      }
    case _ =>
  }
}
