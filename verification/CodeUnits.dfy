/** JavaScript strings as sequences of 16-bit code units, with the order that `<` and the
    default `Array.prototype.sort` comparison use. */
module CodeUnits {

  type CodeUnit = n: int | 0 <= n < 0x10000
  type JsString = seq<CodeUnit>

  /** An ASCII literal as code units. Characters outside the basic plane, which no literal of
      this project uses, become the replacement character. */
  function Units(text: string): JsString {
    seq(|text|, i requires 0 <= i < |text| =>
      if text[i] as int < 0x10000 then text[i] as int else 0xFFFD)
  }

  /** `a < b` */
  predicate Less(a: JsString, b: JsString) {
    |b| > 0 && (|a| == 0 || a[0] < b[0] || (a[0] == b[0] && Less(a[1..], b[1..])))
  }

  /** `a <= b`, which JavaScript evaluates as `!(b < a)` */
  predicate Leq(a: JsString, b: JsString) {
    !Less(b, a)
  }

  predicate OccursAt(text: JsString, part: JsString, i: nat) {
    i + |part| <= |text| && text[i..i + |part|] == part
  }

  /** `text.includes(part)` */
  predicate Includes(text: JsString, part: JsString) {
    exists i | 0 <= i <= |text| :: OccursAt(text, part, i)
  }

  lemma {:induction false} LessIsIrreflexive(a: JsString)
    ensures !Less(a, a)
  {
    if |a| > 0 {
      LessIsIrreflexive(a[1..]);
    }
  }

  lemma {:induction false} LessIsTransitive(a: JsString, b: JsString, c: JsString)
    requires Less(a, b) && Less(b, c)
    ensures Less(a, c)
  {
    if |a| > 0 && a[0] == b[0] == c[0] {
      LessIsTransitive(a[1..], b[1..], c[1..]);
    }
  }

  lemma {:induction false} LessIsTotal(a: JsString, b: JsString)
    ensures Less(a, b) || a == b || Less(b, a)
  {
    if |a| > 0 && |b| > 0 && a[0] == b[0] {
      LessIsTotal(a[1..], b[1..]);
      if a[1..] == b[1..] {
        assert a == [a[0]] + a[1..] && b == [b[0]] + b[1..];
      }
    }
  }

  /** Exactly one of `a < b`, `a == b` and `b < a` holds. */
  lemma Trichotomy(a: JsString, b: JsString)
    ensures Less(a, b) || a == b || Less(b, a)
    ensures !(Less(a, b) && Less(b, a))
    ensures a == b ==> !Less(a, b)
  {
    LessIsTotal(a, b);
    LessIsIrreflexive(a);
    if Less(a, b) && Less(b, a) {
      LessIsTransitive(a, b, a);
    }
  }

  lemma LeqIsTransitive(a: JsString, b: JsString, c: JsString)
    requires Leq(a, b) && Leq(b, c)
    ensures Leq(a, c)
  {
    Trichotomy(a, b);
    Trichotomy(b, c);
    Trichotomy(a, c);
    if Less(c, a) && Less(a, b) {
      LessIsTransitive(c, a, b);
    }
  }

  /** Where two ids first differ, the smaller unit decides. */
  lemma {:induction false} FirstDifferenceDecides(common: JsString, x: CodeUnit, a: JsString, y: CodeUnit, b: JsString)
    requires x < y
    ensures Less(common + ([x] + a), common + ([y] + b))
  {
    var left, right := common + ([x] + a), common + ([y] + b);
    if common == [] {
      assert left == [x] + a && right == [y] + b;
    } else {
      FirstDifferenceDecides(common[1..], x, a, y, b);
      assert left[1..] == common[1..] + ([x] + a) && right[1..] == common[1..] + ([y] + b);
    }
  }

  /** And an id sorts below everything that continues it. */
  lemma {:induction false} ContinuationIsGreater(a: JsString, more: JsString)
    requires more != []
    ensures Less(a, a + more)
  {
    if a != [] {
      ContinuationIsGreater(a[1..], more);
      assert (a + more)[1..] == a[1..] + more;
    }
  }

  // ----- Numbers

  /** The decimal text of a number. */
  function Decimal(n: nat): JsString {
    if n < 10 then [48 + n] else Decimal(n / 10) + [48 + n % 10]
  }

  lemma {:induction false} DecimalIsInjective(a: nat, b: nat)
    requires Decimal(a) == Decimal(b)
    ensures a == b
  {
    if a >= 10 && b >= 10 {
      var da, db := Decimal(a / 10), Decimal(b / 10);
      assert Decimal(a)[..|Decimal(a)| - 1] == da && Decimal(b)[..|Decimal(b)| - 1] == db;
      DecimalIsInjective(a / 10, b / 10);
    } else if a >= 10 || b >= 10 {
      var large := if a >= 10 then a else b;
      DecimalIsNonempty(large / 10);
    }
  }

  lemma {:induction false} DecimalIsNonempty(n: nat)
    ensures Decimal(n) != [] && forall c | c in Decimal(n) :: 48 <= c <= 57
  {
    if n >= 10 {
      DecimalIsNonempty(n / 10);
    }
  }
}
