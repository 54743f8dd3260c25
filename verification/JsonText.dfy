/** `JSON.stringify`: strings escaped as in section 7 of RFC 8259, and values of strings, natural
    numbers, booleans, arrays and objects, whose text determines the value. */
module JsonText {
  import opened CodeUnits
  import opened Sequences

  // ----- Strings

  const QUOTE: CodeUnit := 34
  const BACKSLASH: CodeUnit := 92

  predicate IsHigh(c: CodeUnit) { 0xD800 <= c <= 0xDBFF }

  predicate IsLow(c: CodeUnit) { 0xDC00 <= c <= 0xDFFF }

  /** A surrogate without its partner. */
  predicate IsLone(s: JsString, i: nat)
    requires i < |s|
  {
    || (IsHigh(s[i]) && !(i + 1 < |s| && IsLow(s[i + 1])))
    || (IsLow(s[i]) && !(i > 0 && IsHigh(s[i - 1])))
  }

  function HexDigit(n: nat): CodeUnit
    requires n < 16
  {
    if n < 10 then 48 + n else 87 + n
  }

  function HexValue(c: CodeUnit): nat {
    if c >= 97 then c - 87 else if c >= 48 then c - 48 else 0
  }

  function UnicodeEscape(c: CodeUnit): JsString {
    [BACKSLASH, 117, HexDigit(c / 4096), HexDigit(c / 256 % 16), HexDigit(c / 16 % 16), HexDigit(c % 16)]
  }

  /** The text of one code unit inside a JSON string. */
  function Escape(s: JsString, i: nat): JsString
    requires i < |s|
  {
    var c := s[i];
    if c == QUOTE || c == BACKSLASH then [BACKSLASH, c]
    else if c == 8 then [BACKSLASH, 98]
    else if c == 9 then [BACKSLASH, 116]
    else if c == 10 then [BACKSLASH, 110]
    else if c == 12 then [BACKSLASH, 102]
    else if c == 13 then [BACKSLASH, 114]
    else if c < 32 || IsLone(s, i) then UnicodeEscape(c)
    else [c]
  }

  function Escaped(s: JsString, from: nat): JsString
    requires from <= |s|
    decreases |s| - from
  {
    if from == |s| then [] else Escape(s, from) + Escaped(s, from + 1)
  }

  function JsonString(s: JsString): JsString {
    [QUOTE] + Escaped(s, 0) + [QUOTE]
  }

  /** What a reader of section 7 of RFC 8259 makes of the text after an opening quote: the string,
      and how many code units it took, closing quote included. */
  datatype Read = Bad | Read(text: JsString, used: nat)

  function ReadString(t: JsString): Read
    decreases |t|
  {
    if t == [] then Bad
    else if t[0] == QUOTE then Read([], 1)
    else
      var unit := ReadUnit(t);
      if unit.Bad? then Bad
      else
        var rest := ReadString(t[unit.used..]);
        if rest.Bad? then Bad else Read(unit.text + rest.text, unit.used + rest.used)
  }

  function ReadUnit(t: JsString): (r: Read)
    requires t != []
    ensures r.Read? ==> 0 < r.used <= |t| && |r.text| == 1
  {
    if t[0] != BACKSLASH then Read([t[0]], 1)
    else if |t| < 2 then Bad
    else if t[1] == 98 then Read([8], 2)
    else if t[1] == 116 then Read([9], 2)
    else if t[1] == 110 then Read([10], 2)
    else if t[1] == 102 then Read([12], 2)
    else if t[1] == 114 then Read([13], 2)
    else if t[1] != 117 then Read([t[1]], 2)
    else if |t| < 6 then Bad
    else
      var value := 4096 * HexValue(t[2]) + 256 * HexValue(t[3]) + 16 * HexValue(t[4]) + HexValue(t[5]);
      if value < 0x10000 then Read([value], 6) else Bad
  }

  lemma HexDigits(c: CodeUnit)
    ensures c == 4096 * (c / 4096) + 256 * (c / 256 % 16) + 16 * (c / 16 % 16) + c % 16
    ensures c / 4096 < 16
  {
    assert c / 16 / 16 == c / 256 && c / 256 / 16 == c / 4096;
  }

  lemma HexRoundTrip(c: CodeUnit, rest: JsString)
    ensures ReadUnit(UnicodeEscape(c) + rest) == Read([c], 6)
  {
    HexDigits(c);
    var t := UnicodeEscape(c) + rest;
    assert t[1] == 117 && t[2] == HexDigit(c / 4096) && t[3] == HexDigit(c / 256 % 16);
    assert t[4] == HexDigit(c / 16 % 16) && t[5] == HexDigit(c % 16);
    forall n | 0 <= n < 16
      ensures HexValue(HexDigit(n)) == n
    {
    }
  }

  lemma ShortRoundTrip(letter: CodeUnit, rest: JsString)
    requires letter != 117
    ensures ReadUnit([BACKSLASH, letter] + rest) ==
      Read([if letter == 98 then 8 else if letter == 116 then 9 else if letter == 110 then 10
            else if letter == 102 then 12 else if letter == 114 then 13 else letter], 2)
  {
    var t := [BACKSLASH, letter] + rest;
    assert t[0] == BACKSLASH && t[1] == letter && |t| >= 2;
  }

  lemma UnitRoundTrip(s: JsString, i: nat, rest: JsString)
    requires i < |s|
    ensures Escape(s, i) != [] && Escape(s, i)[0] != QUOTE
    ensures ReadUnit(Escape(s, i) + rest) == Read([s[i]], |Escape(s, i)|)
  {
    var e := Escape(s, i);
    if |e| == 6 {
      HexRoundTrip(s[i], rest);
    } else if |e| == 2 {
      ShortRoundTrip(e[1], rest);
      assert e == [BACKSLASH, e[1]];
    } else {
      assert ([s[i]] + rest)[0] == s[i];
    }
  }

  lemma ReadStep(head: JsString, tail: JsString, unit: CodeUnit)
    requires head != [] && head[0] != QUOTE && ReadUnit(head + tail) == Read([unit], |head|)
    ensures ReadString(head + tail) ==
      var rest := ReadString(tail);
      if rest.Bad? then Bad else Read([unit] + rest.text, |head| + rest.used)
  {
    assert (head + tail)[|head|..] == tail;
    assert (head + tail)[0] == head[0];
  }

  lemma ReadClosing(rest: JsString)
    ensures ReadString([QUOTE] + rest) == Read([], 1)
  {
    assert ([QUOTE] + rest)[0] == QUOTE;
  }

  lemma SliceHead(s: JsString, from: nat)
    requires from < |s|
    ensures s[from..] == [s[from]] + s[from + 1..]
  {
  }

  lemma EndRoundTrip(s: JsString, rest: JsString)
    ensures ReadString(Escaped(s, |s|) + ([QUOTE] + rest)) == Read(s[|s|..], |Escaped(s, |s|)| + 1)
  {
    assert Escaped(s, |s|) + ([QUOTE] + rest) == [QUOTE] + rest;
    ReadClosing(rest);
  }

  /** Reading the escaped text of a string gives the string back, whatever follows it. */
  lemma {:induction false} StringRoundTrip(s: JsString, from: nat, rest: JsString)
    requires from <= |s|
    ensures ReadString(Escaped(s, from) + ([QUOTE] + rest))
         == Read(s[from..], |Escaped(s, from)| + 1)
    decreases |s| - from
  {
    if from == |s| {
      EndRoundTrip(s, rest);
    } else {
      StringRoundTrip(s, from + 1, rest);
      ExtendRoundTrip(s, from, rest);
    }
  }

  lemma ExtendRoundTrip(s: JsString, from: nat, rest: JsString)
    requires from < |s|
    requires ReadString(Escaped(s, from + 1) + ([QUOTE] + rest))
          == Read(s[from + 1..], |Escaped(s, from + 1)| + 1)
    ensures ReadString(Escaped(s, from) + ([QUOTE] + rest))
         == Read(s[from..], |Escaped(s, from)| + 1)
  {
    var head, tail := Escape(s, from), Escaped(s, from + 1) + ([QUOTE] + rest);
    UnitRoundTrip(s, from, tail);
    ReadStep(head, tail, s[from]);
    Associate(head, Escaped(s, from + 1), [QUOTE] + rest);
    SliceHead(s, from);
  }

  lemma StripFirst(c: CodeUnit, a: JsString, b: JsString)
    requires [c] + a == [c] + b
    ensures a == b
  {
    assert ([c] + a)[1..] == a && ([c] + b)[1..] == b;
  }

  lemma StripHead(head: JsString, a: JsString, b: JsString)
    requires head + a == head + b
    ensures a == b
  {
    assert (head + a)[|head|..] == a && (head + b)[|head|..] == b;
  }

  lemma FirstOfConcat(a: JsString, b: JsString)
    requires a != []
    ensures (a + b)[0] == a[0]
  {
  }

  lemma StringSplits(s: JsString, rest: JsString)
    ensures JsonString(s) + rest == [QUOTE] + (Escaped(s, 0) + ([QUOTE] + rest))
  {
    Associate([QUOTE], Escaped(s, 0), [QUOTE]);
    Associate(Escaped(s, 0), [QUOTE], rest);
    Associate([QUOTE], Escaped(s, 0) + [QUOTE], rest);
  }

  /** A JSON string is a prefix code: it determines its text and where it ends. */
  lemma JsonStringIsPrefixCode(a: JsString, b: JsString, restA: JsString, restB: JsString)
    requires JsonString(a) + restA == JsonString(b) + restB
    ensures a == b && restA == restB
  {
    StringSplits(a, restA);
    StringSplits(b, restB);
    StripFirst(QUOTE, Escaped(a, 0) + ([QUOTE] + restA), Escaped(b, 0) + ([QUOTE] + restB));
    StringRoundTrip(a, 0, restA);
    StringRoundTrip(b, 0, restB);
    assert a[0..] == a && b[0..] == b;
    StripHead(JsonString(a), restA, restB);
  }

  // ----- The text itself

  /** A code unit that needs no escape. */
  predicate IsPlain(c: CodeUnit) {
    c >= 32 && c != 34 && c != 92 && !IsHigh(c) && !IsLow(c)
  }

  lemma {:induction false} PlainIsKept(s: JsString, from: nat)
    requires from <= |s| && forall c | c in s :: IsPlain(c)
    ensures Escaped(s, from) == s[from..]
    decreases |s| - from
  {
    if from < |s| {
      PlainIsKept(s, from + 1);
      assert IsPlain(s[from]);
    }
  }

  /** A text without quotes, backslashes, controls and surrogates stands as it is between quotes. */
  lemma PlainTextIsQuoted(s: JsString)
    requires forall c | c in s :: IsPlain(c)
    ensures JsonString(s) == [34] + s + [34]
  {
    PlainIsKept(s, 0);
  }

  /** What a unit is written as in the middle of a text: itself, or a short or a long escape of printable
      ASCII, its digits in lower case. A surrogate stands for itself only beside its other half. */
  lemma EscapeIsPrintable(s: JsString, i: nat)
    requires i < |s|
    ensures Escape(s, i) == [s[i]]
         || forall c | c in Escape(s, i) :: c == 34 || c == 92 || 48 <= c <= 57 || 97 <= c <= 122
    ensures Escape(s, i) == [s[i]] ==> s[i] >= 32 && s[i] != 34 && s[i] != 92 && !IsLone(s, i)
  {
    HexDigits(s[i]);
  }

  // ----- Values

  datatype Value =
    | Text(text: JsString)
    | Number(n: nat)
    | Boolean(b: bool)
    | List(items: seq<Value>)
    | Record(properties: seq<Property>)

  datatype Property = Property(key: JsString, value: Value)

  const COMMA: CodeUnit := 44
  const COLON: CodeUnit := 58

  function Stringify(value: Value): (text: JsString)
    ensures text != []
    decreases value, 0
  {
    match value
    case Text(text) => JsonString(text)
    case Number(n) => DecimalIsNonempty(n); Decimal(n)
    case Boolean(b) => BooleanText(b)
    case List(items) => [91] + ItemsText(items)
    case Record(properties) => [123] + PropertiesText(properties)
  }

  function BooleanText(b: bool): JsString {
    if b then [116, 114, 117, 101] else [102, 97, 108, 115, 101]
  }

  /** The items, and the bracket that closes them. */
  function ItemsText(items: seq<Value>): JsString
    decreases items, 1
  {
    if items == [] then [93] else Stringify(items[0]) + MoreItems(items[1..])
  }

  function MoreItems(items: seq<Value>): JsString
    decreases items, 2
  {
    if items == [] then [93] else [COMMA] + ItemsText(items)
  }

  function PropertiesText(properties: seq<Property>): JsString
    decreases properties, 1
  {
    if properties == [] then [125]
    else (JsonString(properties[0].key) + ([COLON] + Stringify(properties[0].value))) + MoreProperties(properties[1..])
  }

  function MoreProperties(properties: seq<Property>): JsString
    decreases properties, 2
  {
    if properties == [] then [125] else [COMMA] + PropertiesText(properties)
  }

  /** What may follow a value: nothing that continues a number. */
  predicate Follows(rest: JsString) {
    rest == [] || !(48 <= rest[0] <= 57)
  }

  // ----- The text determines the value

  /** The first code unit tells what kind of value follows. */
  lemma FirstUnit(value: Value)
    ensures var c := Stringify(value)[0];
      && (value.Text? <==> c == 34) && (value.Number? <==> 48 <= c <= 57) && (value.Boolean? <==> c == 116 || c == 102)
      && (value.List? <==> c == 91) && (value.Record? <==> c == 123)
  {
    if value.Number? {
      DecimalIsNonempty(value.n);
      assert Decimal(value.n)[0] in Decimal(value.n);
    }
  }

  lemma SameKind(a: Value, b: Value, restA: JsString, restB: JsString)
    requires Stringify(a) + restA == Stringify(b) + restB
    ensures Stringify(a)[0] == Stringify(b)[0]
  {
    FirstOfConcat(Stringify(a), restA);
    FirstOfConcat(Stringify(b), restB);
  }

  lemma LongerHead(a: JsString, b: JsString, restA: JsString, restB: JsString)
    requires a + restA == b + restB && |a| < |b|
    ensures restA != [] && restA[0] in b
  {
    assert (a + restA)[|a|] == b[|a|];
  }

  lemma DecimalIsPrefixCode(a: nat, b: nat, restA: JsString, restB: JsString)
    requires Decimal(a) + restA == Decimal(b) + restB && Follows(restA) && Follows(restB)
    ensures a == b && restA == restB
  {
    var da, db := Decimal(a), Decimal(b);
    DecimalIsNonempty(a);
    DecimalIsNonempty(b);
    if |da| < |db| {
      LongerHead(da, db, restA, restB);
      assert false;
    } else if |db| < |da| {
      LongerHead(db, da, restB, restA);
      assert false;
    }
    assert (da + restA)[..|da|] == da && (db + restB)[..|db|] == db;
    DecimalIsInjective(a, b);
    StripHead(da, restA, restB);
  }

  lemma BooleanIsPrefixCode(a: bool, b: bool, restA: JsString, restB: JsString)
    requires BooleanText(a) + restA == BooleanText(b) + restB
    ensures a == b && restA == restB
  {
    FirstOfConcat(BooleanText(a), restA);
    FirstOfConcat(BooleanText(b), restB);
    StripHead(BooleanText(a), restA, restB);
  }

  lemma {:induction false} StringifyIsPrefixCode(a: Value, b: Value, restA: JsString, restB: JsString)
    requires Stringify(a) + restA == Stringify(b) + restB && Follows(restA) && Follows(restB)
    ensures a == b && restA == restB
    decreases a, 0
  {
    SameKind(a, b, restA, restB);
    FirstUnit(a);
    FirstUnit(b);
    match a
    case Text(text) =>
      JsonStringIsPrefixCode(text, b.text, restA, restB);
    case Number(n) =>
      DecimalIsPrefixCode(n, b.n, restA, restB);
    case Boolean(flag) =>
      BooleanIsPrefixCode(flag, b.b, restA, restB);
    case List(items) =>
      Associate([91], ItemsText(items), restA);
      Associate([91], ItemsText(b.items), restB);
      StripFirst(91, ItemsText(items) + restA, ItemsText(b.items) + restB);
      ItemsArePrefixCode(items, b.items, restA, restB);
    case Record(properties) =>
      Associate([123], PropertiesText(properties), restA);
      Associate([123], PropertiesText(b.properties), restB);
      StripFirst(123, PropertiesText(properties) + restA, PropertiesText(b.properties) + restB);
      PropertiesArePrefixCode(properties, b.properties, restA, restB);
  }

  lemma ItemsStart(items: seq<Value>, rest: JsString)
    ensures ItemsText(items) != [] && MoreItems(items) != []
    ensures items != [] ==> (ItemsText(items) + rest)[0] == Stringify(items[0])[0]
    ensures items == [] ==> (ItemsText(items) + rest)[0] == 93
    ensures (MoreItems(items) + rest)[0] == if items == [] then 93 else COMMA
  {
  }

  lemma {:induction false} ItemsArePrefixCode(a: seq<Value>, b: seq<Value>, restA: JsString, restB: JsString)
    requires ItemsText(a) + restA == ItemsText(b) + restB && Follows(restA) && Follows(restB)
    ensures a == b && restA == restB
    decreases a, 1
  {
    ItemsStart(a, restA);
    ItemsStart(b, restB);
    if a != [] {
      FirstUnit(a[0]);
    }
    if b != [] {
      FirstUnit(b[0]);
    }
    if a == [] {
      StripFirst(93, restA, restB);
    } else {
      var moreA, moreB := MoreItems(a[1..]) + restA, MoreItems(b[1..]) + restB;
      Associate(Stringify(a[0]), MoreItems(a[1..]), restA);
      Associate(Stringify(b[0]), MoreItems(b[1..]), restB);
      ItemsStart(a[1..], restA);
      ItemsStart(b[1..], restB);
      StringifyIsPrefixCode(a[0], b[0], moreA, moreB);
      MoreItemsArePrefixCode(a[1..], b[1..], restA, restB);
      assert a == [a[0]] + a[1..] && b == [b[0]] + b[1..];
    }
  }

  lemma {:induction false} MoreItemsArePrefixCode(a: seq<Value>, b: seq<Value>, restA: JsString, restB: JsString)
    requires MoreItems(a) + restA == MoreItems(b) + restB && Follows(restA) && Follows(restB)
    ensures a == b && restA == restB
    decreases a, 2
  {
    ItemsStart(a, restA);
    ItemsStart(b, restB);
    if a == [] {
      StripFirst(93, restA, restB);
    } else {
      Associate([COMMA], ItemsText(a), restA);
      Associate([COMMA], ItemsText(b), restB);
      StripFirst(COMMA, ItemsText(a) + restA, ItemsText(b) + restB);
      ItemsArePrefixCode(a, b, restA, restB);
    }
  }

  lemma PropertiesStart(properties: seq<Property>, rest: JsString)
    ensures PropertiesText(properties) != [] && MoreProperties(properties) != []
    ensures (PropertiesText(properties) + rest)[0] == if properties == [] then 125 else QUOTE
    ensures (MoreProperties(properties) + rest)[0] == if properties == [] then 125 else COMMA
  {
  }

  /** The text of one property, its value, and what follows. */
  lemma PropertySplits(p: Property, more: JsString, rest: JsString)
    ensures ((JsonString(p.key) + ([COLON] + Stringify(p.value))) + more) + rest
         == JsonString(p.key) + ([COLON] + (Stringify(p.value) + (more + rest)))
  {
    Associate(JsonString(p.key) + ([COLON] + Stringify(p.value)), more, rest);
    Associate(JsonString(p.key), [COLON] + Stringify(p.value), more + rest);
    Associate([COLON], Stringify(p.value), more + rest);
  }

  lemma {:induction false} PropertiesArePrefixCode(a: seq<Property>, b: seq<Property>, restA: JsString, restB: JsString)
    requires PropertiesText(a) + restA == PropertiesText(b) + restB && Follows(restA) && Follows(restB)
    ensures a == b && restA == restB
    decreases a, 1
  {
    PropertiesStart(a, restA);
    PropertiesStart(b, restB);
    if a == [] {
      StripFirst(125, restA, restB);
    } else {
      var moreA, moreB := MoreProperties(a[1..]) + restA, MoreProperties(b[1..]) + restB;
      var valueA, valueB := Stringify(a[0].value) + moreA, Stringify(b[0].value) + moreB;
      PropertySplits(a[0], MoreProperties(a[1..]), restA);
      PropertySplits(b[0], MoreProperties(b[1..]), restB);
      JsonStringIsPrefixCode(a[0].key, b[0].key, [COLON] + valueA, [COLON] + valueB);
      StripFirst(COLON, valueA, valueB);
      PropertiesStart(a[1..], restA);
      PropertiesStart(b[1..], restB);
      StringifyIsPrefixCode(a[0].value, b[0].value, moreA, moreB);
      MorePropertiesArePrefixCode(a[1..], b[1..], restA, restB);
      assert a == [a[0]] + a[1..] && b == [b[0]] + b[1..];
    }
  }

  lemma {:induction false} MorePropertiesArePrefixCode(a: seq<Property>, b: seq<Property>,
                                                       restA: JsString, restB: JsString)
    requires MoreProperties(a) + restA == MoreProperties(b) + restB && Follows(restA) && Follows(restB)
    ensures a == b && restA == restB
    decreases a, 2
  {
    PropertiesStart(a, restA);
    PropertiesStart(b, restB);
    if a == [] {
      StripFirst(125, restA, restB);
    } else {
      Associate([COMMA], PropertiesText(a), restA);
      Associate([COMMA], PropertiesText(b), restB);
      StripFirst(COMMA, PropertiesText(a) + restA, PropertiesText(b) + restB);
      PropertiesArePrefixCode(a, b, restA, restB);
    }
  }

  /** Two values have the same JSON text exactly when they are the same, however deep they are. */
  lemma TextDeterminesValue(a: Value, b: Value)
    ensures Stringify(a) == Stringify(b) <==> a == b
  {
    if Stringify(a) == Stringify(b) {
      assert Stringify(a) + [] == Stringify(b) + [];
      StringifyIsPrefixCode(a, b, [], []);
    }
  }

  // ----- The shape of a text

  /** The texts of the items, with a comma between two of them. */
  function CommaJoined(texts: seq<JsString>): JsString {
    if texts == [] then []
    else if |texts| == 1 then texts[0]
    else texts[0] + ([44] + CommaJoined(texts[1..]))
  }

  function ItemTexts(items: seq<Value>): seq<JsString> {
    seq(|items|, i requires 0 <= i < |items| => Stringify(items[i]))
  }

  function MemberTexts(properties: seq<Property>): seq<JsString> {
    seq(|properties|, i requires 0 <= i < |properties| =>
      JsonString(properties[i].key) + ([58] + Stringify(properties[i].value)))
  }

  lemma {:induction false} ItemsAreJoined(items: seq<Value>)
    ensures ItemsText(items) == CommaJoined(ItemTexts(items)) + [93]
  {
    if items != [] {
      ItemsAreJoined(items[1..]);
      assert ItemTexts(items)[1..] == ItemTexts(items[1..]);
    }
  }

  lemma {:induction false} PropertiesAreJoined(properties: seq<Property>)
    ensures PropertiesText(properties) == CommaJoined(MemberTexts(properties)) + [125]
  {
    if properties != [] {
      PropertiesAreJoined(properties[1..]);
      assert MemberTexts(properties)[1..] == MemberTexts(properties[1..]);
    }
  }

  /** A text is JSON as RFC 8259 has it, without white space: an array is its items with commas between
      them in brackets, an object its members likewise in braces. */
  lemma TextIsJson(value: Value)
    ensures value.List? ==> Stringify(value) == [91] + (CommaJoined(ItemTexts(value.items)) + [93])
    ensures value.Record? ==> Stringify(value) == [123] + (CommaJoined(MemberTexts(value.properties)) + [125])
    ensures value.Boolean? ==> Stringify(value) == if value.b then Units("true") else Units("false")
    ensures value.Number? ==> Stringify(value) == Decimal(value.n)
  {
    if value.List? {
      ItemsAreJoined(value.items);
    } else if value.Record? {
      PropertiesAreJoined(value.properties);
    }
  }
}
