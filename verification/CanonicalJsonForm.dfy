/** The form of canonical JSON texts, piece by piece, in the characters of RFC 8259. */
module CanonicalJsonForm {
  import opened CanonicalJson
  import opened CanonicalJsonProofs
  import opened Lexicographic

  // ---------------------------------------------------------------------------------------
  // Literals and numbers
  // ---------------------------------------------------------------------------------------

  lemma LiteralTexts()
    ensures TextOf(Null) == Codes("null") && TextOf(Boolean(true)) == Codes("true") && TextOf(Boolean(false)) == Codes("false")
    ensures TextOf(Num(NegativeZero)) == Codes("0")
  {
  }

  ghost predicate Digits(text: seq<int>) {
    text != [] && forall i :: 0 <= i < |text| ==> '0' as int <= text[i] <= '9' as int
  }

  /** What the digits say. */
  ghost function Reads(text: seq<int>): int {
    if text == [] then 0 else 10 * Reads(text[..|text| - 1]) + (text[|text| - 1] - '0' as int)
  }

  lemma {:induction false} DecimalForm(n: nat)
    ensures Digits(Decimal(n)) && Reads(Decimal(n)) == n
    ensures n > 0 ==> Decimal(n)[0] != '0' as int
    ensures n == 0 ==> Decimal(n) == ['0' as int]
  {
    if n < 10 {
      assert Decimal(n)[..0] == [];
    } else {
      DecimalForm(n / 10);
      assert Decimal(n)[..|Decimal(n)| - 1] == Decimal(n / 10);
    }
  }

  /** An integer is printed in its decimal digits without leading zeros, after a minus sign if it is
      negative. */
  lemma IntegerText(n: int)
    ensures var text := TextOf(Num(Integer(n)));
            if n < 0 then text != [] && text[0] == '-' as int && Digits(text[1..]) && Reads(text[1..]) == -n && text[1] != '0' as int
            else Digits(text) && Reads(text) == n && (text[0] == '0' as int ==> |text| == 1)
  {
    DecimalForm(if n < 0 then -n else n);
  }

  // ---------------------------------------------------------------------------------------
  // Strings
  // ---------------------------------------------------------------------------------------

  predicate HighSurrogate(c: int) {
    0xD800 <= c <= 0xDBFF
  }

  predicate LowSurrogate(c: int) {
    0xDC00 <= c <= 0xDFFF
  }

  /** The unit may stand for itself: no control character, quotation mark, reverse solidus or
      surrogate. */
  predicate Plain(c: int) {
    0x20 <= c && c != '\"' as int && c != '\\' as int && !HighSurrogate(c) && !LowSurrogate(c)
  }

  /** A lower-case hexadecimal digit and its value. */
  ghost predicate HexDigitFor(c: int, value: int) {
    || (0 <= value <= 9 && c == '0' as int + value)
    || (10 <= value <= 15 && c == 'a' as int + (value - 10))
  }

  /** The six characters that spell a unit out. */
  ghost predicate SpellsOut(text: seq<int>, c: int) {
    && |text| == 6 && text[0] == '\\' as int && text[1] == 'u' as int
    && exists a, b, d, e :: HexDigitFor(text[2], a) && HexDigitFor(text[3], b) && HexDigitFor(text[4], d) && HexDigitFor(text[5], e)
                            && c == 4096 * a + 256 * b + 16 * d + e
  }

  /** The text of one unit that is not part of a surrogate pair. */
  ghost predicate UnitText(text: seq<int>, c: int) {
    if Plain(c) then text == [c]
    else if c == 0x08 then text == Codes("\\b")
    else if c == 0x09 then text == Codes("\\t")
    else if c == 0x0A then text == Codes("\\n")
    else if c == 0x0C then text == Codes("\\f")
    else if c == 0x0D then text == Codes("\\r")
    else if c == '\"' as int then text == Codes("\\\"")
    else if c == '\\' as int then text == Codes("\\\\")
    else SpellsOut(text, c)
  }

  lemma SpelledOut(c: CodeUnit)
    ensures SpellsOut(UnicodeEscape(c), c)
  {
    var text, a, b, d, e := UnicodeEscape(c), c / 4096, c / 256 % 16, c / 16 % 16, c % 16;
    HexSplit(c);
    assert HexDigitFor(text[2], a) && HexDigitFor(text[3], b) && HexDigitFor(text[4], d) && HexDigitFor(text[5], e);
    assert c == 4096 * a + 256 * b + 16 * d + e;
  }

  lemma UnitIsText(c: CodeUnit)
    ensures UnitText(EscapeUnit(c), c)
  {
    SpelledOut(c);
    assert Codes("\\b") == ['\\' as int, 'b' as int] && Codes("\\t") == ['\\' as int, 't' as int];
    assert Codes("\\n") == ['\\' as int, 'n' as int] && Codes("\\f") == ['\\' as int, 'f' as int];
    assert Codes("\\r") == ['\\' as int, 'r' as int] && Codes("\\\"") == ['\\' as int, '\"' as int];
    assert Codes("\\\\") == ['\\' as int, '\\' as int];
  }

  /** The string starts with a surrogate pair. */
  predicate StartsWithPair(s: seq<int>) {
    |s| >= 2 && HighSurrogate(s[0]) && LowSurrogate(s[1])
  }

  /** The text is the string's units one after the other: a surrogate pair as it is, any other unit by
      its text. */
  ghost predicate Spells(text: seq<int>, s: seq<int>)
    decreases |s|
  {
    if s == [] then text == []
    else if StartsWithPair(s) then |text| >= 2 && text[..2] == s[..2] && Spells(text[2..], s[2..])
    else exists n: nat :: n <= |text| && UnitText(text[..n], s[0]) && Spells(text[n..], s[1..])
  }

  lemma {:induction false} EscapeSpells(s: Text)
    ensures Spells(Escape(s), s)
  {
    if s != [] {
      var text := Escape(s);
      if StartsWithPair(s) {
        EscapeSpells(s[2..]);
        assert text[..2] == s[..2] && text[2..] == Escape(s[2..]);
      } else {
        EscapeSpells(s[1..]);
        UnitIsText(s[0]);
        var n := |EscapeUnit(s[0])|;
        assert text[..n] == EscapeUnit(s[0]) && text[n..] == Escape(s[1..]);
      }
    }
  }

  /** A string is printed between quotation marks, unit by unit; so one of plain units is printed as it
      is. */
  lemma StringText(s: Text)
    ensures var text := TextOf(Str(s));
            && |text| >= 2 && text[0] == '\"' as int && text[|text| - 1] == '\"' as int
            && Spells(text[1..|text| - 1], s)
  {
    EscapeSpells(s);
    assert Quote(s)[1..|Quote(s)| - 1] == Escape(s);
  }

  lemma {:induction false} PlainText(s: Text)
    requires forall i :: 0 <= i < |s| ==> Plain(s[i])
    ensures Escape(s) == s
  {
    if s != [] {
      PlainText(s[1..]);
      UnitIsText(s[0]);
      assert s == [s[0]] + s[1..];
    }
  }

  // ---------------------------------------------------------------------------------------
  // Arrays and objects
  // ---------------------------------------------------------------------------------------

  /** The parts with commas between them. */
  ghost function Joined(parts: seq<seq<int>>): seq<int> {
    if parts == [] then []
    else if |parts| == 1 then parts[0]
    else Joined(parts[..|parts| - 1]) + Codes(",") + parts[|parts| - 1]
  }

  lemma {:induction false} JoinedCons(part: seq<int>, rest: seq<seq<int>>)
    requires rest != []
    ensures Joined([part] + rest) == part + Codes(",") + Joined(rest)
  {
    var all, n := [part] + rest, |rest| - 1;
    assert all[|all| - 1] == rest[n];
    if n == 0 {
      assert all[..1] == [part];
    } else {
      assert all[..|all| - 1] == [part] + rest[..n];
      JoinedCons(part, rest[..n]);
    }
  }

  lemma JoinedOne(part: seq<int>)
    ensures Joined([part]) == part
  {
  }

  ghost function TextsOf(items: seq<Json>): (parts: seq<seq<int>>)
    requires forall i :: i in items ==> Printable(i)
    ensures |parts| == |items| && forall k :: 0 <= k < |items| ==> parts[k] == TextOf(items[k])
  {
    seq(|items|, k requires 0 <= k < |items| => TextOf(items[k]))
  }

  lemma {:induction false} ItemsText(parent: Json, items: seq<Json>)
    requires parent.Arr? && (forall i :: i in items ==> i in parent.items) && forall i :: i in items ==> Printable(i)
    ensures SerializeItems(parent, items) == Success(Joined(TextsOf(items)))
    decreases |items|
  {
    if items != [] {
      PrintsIff(items[0]);
      ItemInside(parent, items[0]);
      if |items| == 1 {
        assert TextsOf(items) == [TextOf(items[0])];
        JoinedOne(TextOf(items[0]));
      } else {
        ItemsText(parent, items[1..]);
        assert TextsOf(items) == [TextOf(items[0])] + TextsOf(items[1..]);
        JoinedCons(TextOf(items[0]), TextsOf(items[1..]));
        assert Codes(",") == [COMMA];
      }
    }
  }

  /** An array is printed between brackets, its items in order with commas between them. */
  lemma ArrayText(items: seq<Json>)
    requires Printable(Arr(items))
    ensures TextOf(Arr(items)) == Codes("[") + Joined(TextsOf(items)) + Codes("]")
  {
    ItemsText(Arr(items), items);
    assert Codes("[") == [OPEN_ARRAY] && Codes("]") == [CLOSE_ARRAY];
  }

  /** A member's key as a string, a colon, and its value. */
  ghost function MemberText(m: Member): seq<int>
    requires Printable(m.value)
  {
    TextOf(Str(m.key)) + Codes(":") + TextOf(m.value)
  }

  ghost function MemberTexts(members: seq<Member>): (parts: seq<seq<int>>)
    requires forall m :: m in members ==> Printable(m.value)
    ensures |parts| == |members| && forall k :: 0 <= k < |members| ==> parts[k] == MemberText(members[k])
  {
    seq(|members|, k requires 0 <= k < |members| => MemberText(members[k]))
  }

  lemma MemberPrinted(m: Member)
    requires Printable(m.value)
    ensures Serialize(m.value).Success? && Quote(m.key) + [COLON] + Serialize(m.value).text == MemberText(m)
  {
    PrintsIff(m.value);
    assert Codes(":") == [COLON];
  }

  lemma {:induction false} MembersText(parent: Json, members: seq<Member>)
    requires parent.Obj? && (forall m :: m in members ==> m in parent.members) && forall m :: m in members ==> Printable(m.value)
    ensures SerializeMembers(parent, members) == Success(Joined(MemberTexts(members)))
    decreases |members|
  {
    if members != [] {
      MemberPrinted(members[0]);
      MemberInside(parent, members[0]);
      if |members| == 1 {
        assert MemberTexts(members) == [MemberText(members[0])];
        JoinedOne(MemberText(members[0]));
      } else {
        MembersText(parent, members[1..]);
        MembersCons(members);
      }
    }
  }

  lemma MembersCons(members: seq<Member>)
    requires |members| > 1 && forall m :: m in members ==> Printable(m.value)
    ensures Joined(MemberTexts(members)) == MemberText(members[0]) + [COMMA] + Joined(MemberTexts(members[1..]))
  {
    MemberTextsCons(members);
    JoinedCons(MemberText(members[0]), MemberTexts(members[1..]));
    CommaCode();
  }

  lemma CommaCode()
    ensures Codes(",") == [COMMA]
  {
  }

  lemma MemberTextsCons(members: seq<Member>)
    requires members != [] && forall m :: m in members ==> Printable(m.value)
    ensures MemberTexts(members) == [MemberText(members[0])] + MemberTexts(members[1..])
  {
    var all, rest := MemberTexts(members), MemberTexts(members[1..]);
    assert forall k :: 0 < k < |members| ==> all[k] == rest[k - 1];
  }

  /** The members in the order of their keys' code units. */
  ghost predicate SortedByKey(sorted: seq<Member>, members: seq<Member>) {
    && |sorted| == |members| && (forall m :: m in sorted <==> m in members)
    && forall i, j :: 0 <= i < j < |sorted| ==> Less(sorted[i].key, sorted[j].key)
  }

  lemma KeysSorted(members: seq<Member>)
    requires DistinctKeys(members, MemberKey)
    ensures SortedByKey(Sort(members, MemberKey), members)
  {
    var sorted := Sort(members, MemberKey);
    SortSorts(members, MemberKey);
    assert forall m :: m in sorted <==> m in Elements(sorted);
    assert forall m :: m in members <==> m in Elements(members);
    assert forall i, j :: 0 <= i < j < |sorted| ==> Less(MemberKey(sorted[i]), MemberKey(sorted[j]));
  }

  /** An object with distinct keys is printed between braces, its members in the order of their keys'
      code units with commas between them. */
  lemma ObjectText(members: seq<Member>)
    requires Printable(Obj(members)) && DistinctKeys(members, MemberKey)
    ensures exists sorted: seq<Member> ::
      SortedByKey(sorted, members) && TextOf(Obj(members)) == Codes("{") + Joined(MemberTexts(sorted)) + Codes("}")
  {
    var sorted := Sort(members, MemberKey);
    KeysSorted(members);
    MembersText(Obj(members), sorted);
    assert Codes("{") == [OPEN_OBJECT] && Codes("}") == [CLOSE_OBJECT];
  }
}
