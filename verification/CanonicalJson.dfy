/** Canonical JSON in the style of RFC 8785: sorted keys, no white space, one text per value.

    Text is a sequence of UTF-16 code units, as in ECMAScript.  Numbers are integers, negative zero
    and the non-finite values; up to 2^53 in magnitude an ECMAScript number holds every integer
    exactly and prints it in the plain digits used here.
  */
module CanonicalJson {
  import opened Lexicographic

  type CodeUnit = c: int | 0 <= c < 0x10000

  type Text = seq<CodeUnit>

  datatype Number = Integer(value: int) | NegativeZero | NonFinite

  datatype Member = Member(key: Text, value: Json)

  /** A value handed to the printer; Unsupported stands for `undefined`, functions and the like. */
  datatype Json =
    | Null
    | Boolean(flag: bool)
    | Num(number: Number)
    | Str(text: Text)
    | Arr(items: seq<Json>)
    | Obj(members: seq<Member>)
    | Unsupported

  datatype Printed = Success(text: seq<int>) | NotFinite | NotSupported

  // ---------------------------------------------------------------------------------------
  // Key comparison
  // ---------------------------------------------------------------------------------------

  /** The comparison loop: its sign is the lexicographic order of the code units. */
  method CompareUtf16CodeUnits(left: Text, right: Text) returns (difference: int)
    ensures difference < 0 <==> Less(left, right)
    ensures difference == 0 <==> left == right
    ensures difference > 0 <==> Less(right, left)
  {
    var sharedLength := if |left| <= |right| then |left| else |right|;
    for index := 0 to sharedLength
      invariant left[..index] == right[..index]
    {
      var here := left[index] as int - right[index] as int;
      if here != 0 {
        DifferAt(left, right, index);
        if here > 0 {
          DifferAt(right, left, index);
        }
        LessIrreflexive(left);
        return here;
      }
      assert left[..index + 1] == left[..index] + [left[index]];
      assert right[..index + 1] == right[..index] + [right[index]];
    }
    PrefixLess(left, right, sharedLength);
    return |left| - |right|;
  }

  lemma {:induction false} DifferAt(a: seq<int>, b: seq<int>, i: nat)
    requires i < |a| && i < |b| && a[..i] == b[..i] && a[i] != b[i]
    ensures Less(a, b) <==> a[i] < b[i]
    ensures Less(b, a) <==> b[i] < a[i]
    ensures a != b
  {
    if i > 0 {
      assert a[0] == a[..i][0] == b[..i][0] == b[0];
      assert a[1..][..i - 1] == a[..i][1..] == b[..i][1..] == b[1..][..i - 1];
      DifferAt(a[1..], b[1..], i - 1);
    }
  }

  lemma {:induction false} PrefixLess(a: seq<int>, b: seq<int>, n: nat)
    requires n <= |a| && n <= |b| && (n == |a| || n == |b|) && a[..n] == b[..n]
    ensures Less(a, b) <==> |a| < |b|
    ensures Less(b, a) <==> |b| < |a|
    ensures a == b <==> |a| == |b|
  {
    if n > 0 {
      assert a[0] == a[..n][0] == b[..n][0] == b[0];
      assert a[1..][..n - 1] == a[..n][1..] == b[..n][1..] == b[1..][..n - 1];
      PrefixLess(a[1..], b[1..], n - 1);
      assert a == [a[0]] + a[1..] && b == [b[0]] + b[1..];
    }
  }

  // ---------------------------------------------------------------------------------------
  // Printing
  // ---------------------------------------------------------------------------------------

  const QUOTE := 0x22
  const BACKSLASH := 0x5C
  const COMMA := 0x2C
  const COLON := 0x3A
  const MINUS := 0x2D
  const OPEN_ARRAY := 0x5B
  const CLOSE_ARRAY := 0x5D
  const OPEN_OBJECT := 0x7B
  const CLOSE_OBJECT := 0x7D
  const NULL_TEXT: seq<int> := [0x6E, 0x75, 0x6C, 0x6C]
  const TRUE_TEXT: seq<int> := [0x74, 0x72, 0x75, 0x65]
  const FALSE_TEXT: seq<int> := [0x66, 0x61, 0x6C, 0x73, 0x65]

  predicate IsLead(c: int) { 0xD800 <= c < 0xDC00 }

  predicate IsTrail(c: int) { 0xDC00 <= c < 0xE000 }

  function HexDigit(n: int): int
    requires 0 <= n < 16
  {
    if n < 10 then 0x30 + n else 0x61 + n - 10
  }

  function UnicodeEscape(c: CodeUnit): seq<int> {
    [BACKSLASH, 0x75, HexDigit(c / 4096), HexDigit(c / 256 % 16), HexDigit(c / 16 % 16), HexDigit(c % 16)]
  }

  /** One code unit of `JSON.stringify` (ECMA-262, QuoteJSONString), not part of a surrogate pair. */
  function EscapeUnit(c: CodeUnit): seq<int> {
    if c == 0x08 then [BACKSLASH, 0x62]
    else if c == 0x09 then [BACKSLASH, 0x74]
    else if c == 0x0A then [BACKSLASH, 0x6E]
    else if c == 0x0C then [BACKSLASH, 0x66]
    else if c == 0x0D then [BACKSLASH, 0x72]
    else if c == QUOTE then [BACKSLASH, QUOTE]
    else if c == BACKSLASH then [BACKSLASH, BACKSLASH]
    else if c < 0x20 || IsLead(c) || IsTrail(c) then UnicodeEscape(c)
    else [c]
  }

  function Escape(s: Text): seq<int> {
    if s == [] then []
    else if |s| >= 2 && IsLead(s[0]) && IsTrail(s[1]) then [s[0], s[1]] + Escape(s[2..])
    else EscapeUnit(s[0]) + Escape(s[1..])
  }

  function Quote(s: Text): seq<int> {
    [QUOTE] + Escape(s) + [QUOTE]
  }

  function Decimal(n: nat): seq<int> {
    if n < 10 then [0x30 + n] else Decimal(n / 10) + [0x30 + n % 10]
  }

  function PrintInteger(n: int): seq<int> {
    if n < 0 then [MINUS] + Decimal(-n) else Decimal(n)
  }

  function MemberKey(m: Member): seq<int> { m.key }

  lemma ItemInside(parent: Json, item: Json)
    requires parent.Arr? && item in parent.items
    ensures item < parent
  {
    var i :| 0 <= i < |parent.items| && parent.items[i] == item;
  }

  lemma MemberInside(parent: Json, m: Member)
    requires parent.Obj? && m in parent.members
    ensures m.value < parent
  {
    var i :| 0 <= i < |parent.members| && parent.members[i] == m;
  }

  function Serialize(v: Json): Printed
    decreases v, 1, 0
  {
    match v
    case Null => Success(NULL_TEXT)
    case Boolean(flag) => Success(if flag then TRUE_TEXT else FALSE_TEXT)
    case Str(s) => Success(Quote(s))
    case Num(NonFinite) => NotFinite
    case Num(NegativeZero) => Success(PrintInteger(0))
    case Num(Integer(n)) => Success(PrintInteger(n))
    case Arr(items) =>
      var inner := SerializeItems(v, items);
      if inner.Success? then Success([OPEN_ARRAY] + inner.text + [CLOSE_ARRAY]) else inner
    case Obj(members) =>
      SortSorts(members, MemberKey);
      assert forall m :: m in Sort(members, MemberKey) ==> m in Elements(members);
      var inner := SerializeMembers(v, Sort(members, MemberKey));
      if inner.Success? then Success([OPEN_OBJECT] + inner.text + [CLOSE_OBJECT]) else inner
    case Unsupported => NotSupported
  }

  /** `items.map(serializeCanonical).join(',')`, failing like the first item that fails. */
  function SerializeItems(parent: Json, items: seq<Json>): Printed
    requires parent.Arr? && forall i :: i in items ==> i in parent.items
    decreases parent, 0, |items|
  {
    if items == [] then Success([])
    else
      ItemInside(parent, items[0]);
      var first := Serialize(items[0]);
      if !first.Success? then first
      else if |items| == 1 then first
      else
        var rest := SerializeItems(parent, items[1..]);
        if rest.Success? then Success(first.text + [COMMA] + rest.text) else rest
  }

  function SerializeMembers(parent: Json, members: seq<Member>): Printed
    requires parent.Obj? && forall m :: m in members ==> m in parent.members
    decreases parent, 0, |members|
  {
    if members == [] then Success([])
    else
      MemberInside(parent, members[0]);
      var first := Serialize(members[0].value);
      if !first.Success? then first
      else
        var text := Quote(members[0].key) + [COLON] + first.text;
        if |members| == 1 then Success(text)
        else
          var rest := SerializeMembers(parent, members[1..]);
          if rest.Success? then Success(text + [COMMA] + rest.text) else rest
  }

  // ---------------------------------------------------------------------------------------
  // What printing means
  // ---------------------------------------------------------------------------------------

  /** Object keys are distinct, as in every ECMAScript object. */
  ghost predicate WellFormed(v: Json) {
    match v
    case Arr(items) => forall i :: i in items ==> WellFormed(i)
    case Obj(members) => DistinctKeys(members, MemberKey) && forall m :: m in members ==> WellFormed(m.value)
    case _ => true
  }

  ghost predicate Printable(v: Json) {
    match v
    case Num(n) => n != NonFinite
    case Arr(items) => forall i :: i in items ==> Printable(i)
    case Obj(members) => forall m :: m in members ==> Printable(m.value)
    case Unsupported => false
    case _ => true
  }

  function NumericValue(n: Number): int
    requires n != NonFinite
  {
    if n == NegativeZero then 0 else n.value
  }

  /** Equality up to the order of object members (and the sign of zero). */
  ghost predicate Same(a: Json, b: Json) {
    match a
    case Null => b.Null?
    case Boolean(flag) => b == a
    case Num(n) => b.Num? && (n == b.number || (n != NonFinite && b.number != NonFinite && NumericValue(n) == NumericValue(b.number)))
    case Str(s) => b == a
    case Arr(items) => b.Arr? && |items| == |b.items| && forall i :: 0 <= i < |items| ==> Same(items[i], b.items[i])
    case Obj(members) => b.Obj? && |members| == |b.members| && forall m :: m in members ==> HasSame(m, b.members)
    case Unsupported => b.Unsupported?
  }

  /** Some member has m's key and the same value. */
  ghost predicate HasSame(m: Member, members: seq<Member>) {
    exists n :: n in members && n.key == m.key && Same(m.value, n.value)
  }
}
