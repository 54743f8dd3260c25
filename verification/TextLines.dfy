/** Texts as the document generator handles them: lines, joins, substrings and decimal numbers. */
module TextLines {

  /** `text.split("\n")` */
  function Lines(text: string): (lines: seq<string>)
    ensures |lines| > 0
  {
    if text == "" then [""]
    else
      var rest := Lines(text[1..]);
      if text[0] == '\n' then [""] + rest else [[text[0]] + rest[0]] + rest[1..]
  }

  /** `"\n".join(parts)` */
  function Join(parts: seq<string>): string {
    if parts == [] then ""
    else if |parts| == 1 then parts[0]
    else parts[0] + ("\n" + Join(parts[1..]))
  }

  predicate OccursAt(text: string, part: string, i: nat) {
    i <= |text| && part <= text[i..]
  }

  /** `part in text` */
  predicate Contains(text: string, part: string) {
    exists i | 0 <= i <= |text| :: OccursAt(text, part, i)
  }

  /** `s.endswith(suffix)` */
  predicate EndsWith(s: string, suffix: string) {
    |suffix| <= |s| && s[|s| - |suffix|..] == suffix
  }

  /** `text.count(part)`: occurrences counted from the left, without overlap. */
  function Count(text: string, part: string): nat
    requires part != ""
  {
    if text == "" then 0
    else if part <= text then 1 + Count(text[|part|..], part)
    else Count(text[1..], part)
  }

  /** `text.rstrip("\n")` */
  function WithoutTrailingNewlines(text: string): string {
    if text != "" && text[|text| - 1] == '\n' then WithoutTrailingNewlines(text[..|text| - 1]) else text
  }

  /** `c.isspace()` */
  predicate IsSpace(c: char) {
    || c in {' ', '\t', '\n', '\U{b}', '\U{c}', '\r', '\U{1c}', '\U{1d}', '\U{1e}', '\U{1f}', '\U{85}', '\U{a0}'}
    || c == '\U{1680}' || '\U{2000}' <= c <= '\U{200a}'
    || c in {'\U{2028}', '\U{2029}', '\U{202f}', '\U{205f}', '\U{3000}'}
  }

  /** `text.strip()` */
  function Strip(text: string): string {
    if text != "" && IsSpace(text[0]) then Strip(text[1..])
    else if text != "" && IsSpace(text[|text| - 1]) then Strip(text[..|text| - 1])
    else text
  }

  // ----- Lines

  /** One more character in front of lines. */
  function Extend(c: char, lines: seq<string>): seq<string>
    requires lines != []
  {
    if c == '\n' then [""] + lines else [[c] + lines[0]] + lines[1..]
  }

  lemma LinesOfCons(c: char, text: string)
    ensures Lines([c] + text) == Extend(c, Lines(text))
  {
    assert ([c] + text)[1..] == text;
  }

  lemma ExtendConcat(c: char, a: seq<string>, b: seq<string>)
    requires a != []
    ensures Extend(c, a + b) == Extend(c, a) + b
  {
  }

  lemma {:induction false} LinesOfJoined(a: string, b: string)
    ensures Lines(a + ("\n" + b)) == Lines(a) + Lines(b)
  {
    if a == "" {
      assert a + ("\n" + b) == ['\n'] + b;
      LinesOfCons('\n', b);
    } else {
      assert a + ("\n" + b) == [a[0]] + (a[1..] + ("\n" + b)) && a == [a[0]] + a[1..];
      LinesOfCons(a[0], a[1..] + ("\n" + b));
      LinesOfCons(a[0], a[1..]);
      LinesOfJoined(a[1..], b);
      ExtendConcat(a[0], Lines(a[1..]), Lines(b));
    }
  }

  /** Text without a newline in front of another text extends its first line. */
  lemma {:induction false} LinesOfPrefixed(a: string, b: string)
    requires '\n' !in a
    ensures Lines(a + b) == [a + Lines(b)[0]] + Lines(b)[1..]
  {
    if a == "" {
      assert a + b == b;
      assert a + Lines(b)[0] == Lines(b)[0];
    } else {
      assert (a + b)[1..] == a[1..] + b && (a + b)[0] == a[0];
      LinesOfPrefixed(a[1..], b);
      assert [a[0]] + (a[1..] + Lines(b)[0]) == a + Lines(b)[0];
    }
  }

  lemma SingleLine(a: string)
    requires '\n' !in a
    ensures Lines(a) == [a]
  {
    LinesOfPrefixed(a, "");
    assert a + "" == a;
  }

  lemma {:induction false} LinesHaveNoNewline(text: string)
    ensures forall line | line in Lines(text) :: '\n' !in line
  {
    if text != "" {
      LinesHaveNoNewline(text[1..]);
    }
  }

  lemma {:induction false} JoinOfLines(text: string)
    ensures Join(Lines(text)) == text
  {
    if text != "" {
      JoinOfLines(text[1..]);
      var rest := Lines(text[1..]);
      if text[0] == '\n' {
        assert ([""] + rest)[1..] == rest;
      } else if |rest| > 1 {
        assert ([[text[0]] + rest[0]] + rest[1..])[1..] == rest[1..];
      }
    }
  }

  /** The lines of each part, in order. */
  function PartLines(parts: seq<string>): seq<string> {
    if parts == [] then [] else Lines(parts[0]) + PartLines(parts[1..])
  }

  lemma PartLinesOfCons(first: string, rest: seq<string>)
    ensures PartLines([first] + rest) == Lines(first) + PartLines(rest)
  {
    assert ([first] + rest)[1..] == rest;
  }

  /** Joining texts with newlines joins their lines. */
  lemma {:induction false} LinesOfParts(parts: seq<string>)
    requires parts != []
    ensures Lines(Join(parts)) == PartLines(parts)
  {
    if |parts| == 1 {
      assert PartLines(parts[1..]) == [] && Lines(parts[0]) + [] == Lines(parts[0]);
    } else {
      LinesOfJoined(parts[0], Join(parts[1..]));
      LinesOfParts(parts[1..]);
    }
  }

  lemma {:induction false} PartLinesConcat(a: seq<string>, b: seq<string>)
    ensures PartLines(a + b) == PartLines(a) + PartLines(b)
  {
    if a == [] {
      assert a + b == b;
    } else {
      assert (a + b)[1..] == a[1..] + b;
      PartLinesConcat(a[1..], b);
    }
  }

  /** The line boundaries of `str.splitlines`. */
  predicate IsLineBreak(c: char) {
    c in {'\n', '\r', '\U{b}', '\U{c}', '\U{1c}', '\U{1d}', '\U{1e}', '\U{85}', '\U{2028}', '\U{2029}'}
  }

  /** `text.splitlines()` */
  function SplitLines(text: string): (lines: seq<string>)
    ensures lines == [] <==> text == ""
    ensures text != "" && IsLineBreak(text[0]) ==> lines[0] == ""
    ensures text != "" && !IsLineBreak(text[0]) ==> lines[0] != "" && lines[0][0] == text[0]
  {
    if text == "" then []
    else if "\r\n" <= text then [""] + SplitLines(text[2..])
    else if IsLineBreak(text[0]) then [""] + SplitLines(text[1..])
    else if |text| == 1 then [text]
    else
      var rest := SplitLines(text[1..]);
      [[text[0]] + rest[0]] + rest[1..]
  }

  predicate IsUnbroken(line: string) {
    forall c | c in line :: !IsLineBreak(c)
  }

  lemma SplitOfCons(c: char, text: string)
    requires !IsLineBreak(c) && text != ""
    ensures SplitLines([c] + text) == [[c] + SplitLines(text)[0]] + SplitLines(text)[1..]
  {
    assert ([c] + text)[1..] == text;
  }

  lemma BreakIsSplitOff(brk: string, rest: string)
    requires brk == "\r\n" || (|brk| == 1 && IsLineBreak(brk[0]) && !(brk == "\r" && "\n" <= rest))
    ensures SplitLines(brk + rest) == [""] + SplitLines(rest)
  {
    var text := brk + rest;
    assert text[|brk|..] == rest;
    if "\r\n" <= text {
      assert text[0] == '\r' && text[1] == '\n';
    }
  }

  /** One line is split off at a line break: at a carriage return with its line feed as one break, and at
      each of the other nine alone. */
  lemma {:induction false} LineIsSplitOff(line: string, brk: string, rest: string)
    requires IsUnbroken(line)
    requires brk == "\r\n" || (|brk| == 1 && IsLineBreak(brk[0]) && !(brk == "\r" && "\n" <= rest))
    ensures SplitLines(line + (brk + rest)) == [line] + SplitLines(rest)
  {
    var text := line + (brk + rest);
    if line == "" {
      BreakIsSplitOff(brk, rest);
      assert text == brk + rest;
    } else {
      assert line[0] in line;
      LineIsSplitOff(line[1..], brk, rest);
      assert text == [line[0]] + (line[1..] + (brk + rest));
      SplitOfCons(line[0], line[1..] + (brk + rest));
      assert [line[0]] + line[1..] == line;
    }
  }

  /** White space by its code points; every line break is white space. */
  lemma SpaceCodes(c: char)
    ensures var n := c as int;
      IsSpace(c) <==>
        || 9 <= n <= 13 || 28 <= n <= 32 || n == 0x85 || n == 0xa0 || n == 0x1680 || 0x2000 <= n <= 0x200a
        || 0x2028 <= n <= 0x2029 || n == 0x202f || n == 0x205f || n == 0x3000
    ensures var n := c as int;
      IsLineBreak(c) <==> 10 <= n <= 13 || 28 <= n <= 30 || n == 0x85 || 0x2028 <= n <= 0x2029
  {
  }

  // ----- Substrings

  lemma ContainsShifted(text: string, part: string)
    requires text != "" && Contains(text[1..], part)
    ensures Contains(text, part)
  {
    var i :| 0 <= i <= |text[1..]| && OccursAt(text[1..], part, i);
    assert text[1..][i..] == text[i + 1..];
    assert OccursAt(text, part, i + 1);
  }

  /** What a line contains, its text contains. */
  lemma {:induction false} LineContains(text: string, k: nat, part: string)
    requires k < |Lines(text)| && Contains(Lines(text)[k], part)
    ensures Contains(text, part)
  {
    var line := Lines(text)[k];
    if text == "" {
      assert OccursAt(text, part, 0);
    } else {
      var rest := Lines(text[1..]);
      if text[0] == '\n' {
        if k == 0 {
          assert part == "";
          assert OccursAt(text, part, 0);
        } else {
          LineContains(text[1..], k - 1, part);
          ContainsShifted(text, part);
        }
      } else if k > 0 {
        LineContains(text[1..], k, part);
        ContainsShifted(text, part);
      } else {
        var i :| 0 <= i <= |line| && OccursAt(line, part, i);
        if i > 0 {
          assert line[i..] == rest[0][i - 1..];
          assert OccursAt(rest[0], part, i - 1);
          LineContains(text[1..], 0, part);
          ContainsShifted(text, part);
        } else {
          FirstLineIsPrefix(text);
          assert line <= text;
          assert OccursAt(text, part, 0);
        }
      }
    }
  }

  lemma {:induction false} FirstLineIsPrefix(text: string)
    ensures Lines(text)[0] <= text
  {
    if text != "" && text[0] != '\n' {
      FirstLineIsPrefix(text[1..]);
    }
  }

  /** A first line starts with newline-free text exactly when the whole text does. */
  lemma {:induction false} FirstLineStartsWith(text: string, prefix: string)
    requires '\n' !in prefix
    ensures prefix <= Lines(text)[0] <==> prefix <= text
  {
    FirstLineIsPrefix(text);
    if prefix <= text {
      LinesOfPrefixed(prefix, text[|prefix|..]);
      assert prefix + text[|prefix|..] == text;
    }
  }

  // ----- Numbers

  /** The zeros of the decimal digits beyond ASCII, in version 14.0 of the Unicode Standard; the
      digits one to nine follow each of them. */
  const WIDE_ZEROS: seq<int> := [
    0x660, 0x6f0, 0x7c0, 0x966, 0x9e6, 0xa66, 0xae6, 0xb66, 0xbe6, 0xc66, 0xce6, 0xd66, 0xde6,
    0xe50, 0xed0, 0xf20, 0x1040, 0x1090, 0x17e0, 0x1810, 0x1946, 0x19d0, 0x1a80, 0x1a90, 0x1b50,
    0x1bb0, 0x1c40, 0x1c50, 0xa620, 0xa8d0, 0xa900, 0xa9d0, 0xa9f0, 0xaa50, 0xabf0, 0xff10,
    0x104a0, 0x10d30, 0x11066, 0x110f0, 0x11136, 0x111d0, 0x112f0, 0x11450, 0x114d0, 0x11650,
    0x116c0, 0x11730, 0x118e0, 0x11950, 0x11c50, 0x11d50, 0x11da0, 0x16a60, 0x16ac0, 0x16b50,
    0x1d7ce, 0x1d7d8, 0x1d7e2, 0x1d7ec, 0x1d7f6, 0x1e140, 0x1e2f0, 0x1e950, 0x1fbf0
  ]

  function WideDigit(c: char, zeros: seq<int>): (digit: int)
    ensures digit < 10
  {
    if zeros == [] then -1
    else if 0 <= c as int - zeros[0] < 10 then c as int - zeros[0]
    else WideDigit(c, zeros[1..])
  }

  /** The characters that the pattern `\d` accepts and `int` reads */
  predicate IsDigit(c: char) {
    '0' <= c <= '9' || (c as int >= 0x80 && WideDigit(c, WIDE_ZEROS) >= 0)
  }

  function DigitValue(c: char): (digit: nat)
    requires IsDigit(c)
    ensures digit < 10
  {
    if c <= '9' then c as int - '0' as int else WideDigit(c, WIDE_ZEROS)
  }

  function DigitOf(n: nat): (c: char)
    requires n < 10
    ensures '0' <= c <= '9' && DigitValue(c) == n
  {
    ('0' as int + n) as char
  }

  /** `str(n)` */
  function Decimal(n: nat): (s: string)
    ensures s != ""
  {
    if n < 10 then [DigitOf(n)] else Decimal(n / 10) + [DigitOf(n % 10)]
  }

  /** `int(s)` for a string of digits */
  function ValueOf(s: string): nat
    requires forall c | c in s :: IsDigit(c)
  {
    if s == "" then 0
    else
      assert s[|s| - 1] in s;
      10 * ValueOf(s[..|s| - 1]) + DigitValue(s[|s| - 1])
  }

  lemma ValueOfExtension(s: string, c: char)
    requires (forall d | d in s :: IsDigit(d)) && IsDigit(c)
    ensures forall d | d in s + [c] :: IsDigit(d)
    ensures ValueOf(s + [c]) == 10 * ValueOf(s) + DigitValue(c)
  {
    assert (s + [c])[..|s|] == s;
  }

  lemma {:induction false} DecimalRoundTrip(n: nat)
    ensures forall c | c in Decimal(n) :: '0' <= c <= '9'
    ensures ValueOf(Decimal(n)) == n
  {
    if n < 10 {
      assert Decimal(n) == "" + [DigitOf(n)];
      ValueOfExtension("", DigitOf(n));
    } else {
      DecimalRoundTrip(n / 10);
      ValueOfExtension(Decimal(n / 10), DigitOf(n % 10));
    }
  }
}
