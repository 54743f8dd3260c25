/** The words of a text: its longest runs of characters that are not spaces. */
module TextWords {
  import opened TextLines

  predicate StartsWord(s: string) {
    s != "" && !IsSpace(s[0])
  }

  predicate EndsWord(s: string) {
    s != "" && !IsSpace(s[|s| - 1])
  }

  /** `s.split()` */
  function Words(s: string): (words: seq<string>)
    ensures StartsWord(s) ==> words != []
  {
    if s == "" then []
    else Prepended(s[0], StartsWord(s[1..]), Words(s[1..]))
  }

  function Prepended(c: char, joins: bool, words: seq<string>): (more: seq<string>)
    requires joins ==> words != []
    ensures !IsSpace(c) ==> more != []
  {
    if IsSpace(c) then words
    else if joins then [[c] + words[0]] + words[1..]
    else [[c]] + words
  }

  lemma WordsOfCons(c: char, s: string)
    ensures Words([c] + s) == Prepended(c, StartsWord(s), Words(s))
  {
    assert ([c] + s)[1..] == s;
  }

  /** No word runs from the end of `a` into `b`. */
  predicate Apart(a: string, b: string) {
    !EndsWord(a) || !StartsWord(b)
  }

  lemma PrependedConcat(c: char, joins: bool, a: seq<string>, b: seq<string>)
    requires joins ==> a != []
    ensures Prepended(c, joins, a + b) == Prepended(c, joins, a) + b
  {
  }

  lemma {:induction false} WordsConcat(a: string, b: string)
    requires Apart(a, b)
    ensures Words(a + b) == Words(a) + Words(b)
  {
    if a == "" {
      assert a + b == b;
    } else {
      var c, rest := a[0], a[1..];
      assert a == [c] + rest && a + b == [c] + (rest + b);
      WordsOfCons(c, rest);
      WordsOfCons(c, rest + b);
      if rest == "" {
        assert rest + b == b;
      } else {
        assert rest[|rest| - 1] == a[|a| - 1] && (rest + b)[0] == rest[0];
        WordsConcat(rest, b);
        PrependedConcat(c, StartsWord(rest), Words(rest), Words(b));
      }
    }
  }

  predicate AllSpace(s: string) {
    forall c | c in s :: IsSpace(c)
  }

  lemma {:induction false} NoWords(s: string)
    ensures Words(s) == [] <==> AllSpace(s)
  {
    if s != "" {
      NoWords(s[1..]);
      assert s == [s[0]] + s[1..];
      assert s[0] in s && forall c | c in s[1..] :: c in s;
    }
  }

  /** Words hold no space and are never empty. */
  predicate IsWord(w: string) {
    w != "" && forall c | c in w :: !IsSpace(c)
  }

  lemma {:induction false} OneWord(w: string)
    requires IsWord(w)
    ensures Words(w) == [w]
  {
    assert w[0] in w && w == [w[0]] + w[1..];
    WordsOfCons(w[0], w[1..]);
    if |w| == 1 {
      assert [w[0]] == w;
    } else {
      assert w[1] in w && forall c | c in w[1..] :: c in w;
      OneWord(w[1..]);
    }
  }

  lemma {:induction false} WordsAreWords(s: string)
    ensures forall w | w in Words(s) :: IsWord(w)
  {
    if s != "" {
      WordsAreWords(s[1..]);
      var words := Words(s[1..]);
      if !IsSpace(s[0]) && StartsWord(s[1..]) {
        assert words[0] in words;
      }
    }
  }

  // ----- Texts made of parts

  function AllWords(parts: seq<string>): seq<string> {
    if parts == [] then [] else Words(parts[0]) + AllWords(parts[1..])
  }

  lemma AllWordsOfCons(part: string, rest: seq<string>)
    ensures AllWords([part] + rest) == Words(part) + AllWords(rest)
  {
    assert ([part] + rest)[1..] == rest;
  }

  lemma {:induction false} AllWordsConcat(a: seq<string>, b: seq<string>)
    ensures AllWords(a + b) == AllWords(a) + AllWords(b)
  {
    if a == [] {
      assert a + b == b;
    } else {
      assert (a + b)[1..] == a[1..] + b;
      AllWordsConcat(a[1..], b);
    }
  }

  /** `"".join(parts)` */
  function Concat(parts: seq<string>): string {
    if parts == [] then "" else parts[0] + Concat(parts[1..])
  }

  /** `" ".join(parts)` */
  function Spaced(parts: seq<string>): string {
    if parts == [] then ""
    else if |parts| == 1 then parts[0]
    else parts[0] + (" " + Spaced(parts[1..]))
  }

  lemma WordsBreak(a: string, space: char, b: string)
    requires IsSpace(space)
    ensures Words(a + ([space] + b)) == Words(a) + Words(b)
  {
    WordsConcat(a, [space] + b);
    WordsOfCons(space, b);
  }

  lemma {:induction false} WordsOfSpaced(parts: seq<string>)
    ensures Words(Spaced(parts)) == AllWords(parts)
  {
    if |parts| == 1 {
      assert AllWords(parts[1..]) == [];
    } else if |parts| > 1 {
      WordsBreak(parts[0], ' ', Spaced(parts[1..]));
      WordsOfSpaced(parts[1..]);
    }
  }

  lemma {:induction false} WordsOfJoin(parts: seq<string>)
    ensures Words(Join(parts)) == AllWords(parts)
  {
    if |parts| == 1 {
      assert AllWords(parts[1..]) == [];
    } else if |parts| > 1 {
      WordsBreak(parts[0], '\n', Join(parts[1..]));
      WordsOfJoin(parts[1..]);
    }
  }

  // ----- What keeps the words

  lemma TrailingSpace(s: string)
    requires s != "" && IsSpace(s[|s| - 1])
    ensures Words(s) == Words(s[..|s| - 1])
  {
    var last := s[|s| - 1];
    assert s == s[..|s| - 1] + ([last] + "");
    WordsBreak(s[..|s| - 1], last, "");
    assert Words(s[..|s| - 1]) + [] == Words(s[..|s| - 1]);
  }

  lemma {:induction false} WordsOfStrip(s: string)
    ensures Words(Strip(s)) == Words(s)
  {
    if s != "" && IsSpace(s[0]) {
      WordsOfStrip(s[1..]);
    } else if s != "" && IsSpace(s[|s| - 1]) {
      TrailingSpace(s);
      WordsOfStrip(s[..|s| - 1]);
    }
  }

  lemma {:induction false} WordsWithoutTrailingNewlines(s: string)
    ensures Words(WithoutTrailingNewlines(s)) == Words(s)
  {
    if s != "" && s[|s| - 1] == '\n' {
      TrailingSpace(s);
      WordsWithoutTrailingNewlines(s[..|s| - 1]);
    }
  }

  lemma {:induction false} WordsOfSplitLines(s: string)
    ensures AllWords(SplitLines(s)) == Words(s)
  {
    if s == "" {
    } else if "\r\n" <= s {
      assert s == ['\r'] + (['\n'] + s[2..]);
      WordsOfCons('\r', ['\n'] + s[2..]);
      WordsOfCons('\n', s[2..]);
      WordsOfSplitLines(s[2..]);
      AllWordsOfCons("", SplitLines(s[2..]));
    } else if IsLineBreak(s[0]) {
      WordsOfSplitLines(s[1..]);
      AllWordsOfCons("", SplitLines(s[1..]));
    } else if |s| == 1 {
      AllWordsOfCons(s, []);
      assert [s] + [] == [s];
    } else {
      WordsOfSplitLines(s[1..]);
      var rest := SplitLines(s[1..]);
      LongerFirstLine(s[0], s[1..], rest[0], rest[1..]);
      assert s == [s[0]] + s[1..] && rest == [rest[0]] + rest[1..];
      AllWordsOfCons(rest[0], rest[1..]);
    }
  }

  lemma LongerFirstLine(c: char, s: string, first: string, rest: seq<string>)
    requires Words(s) == Words(first) + AllWords(rest) && StartsWord(s) == StartsWord(first)
    ensures AllWords([[c] + first] + rest) == Words([c] + s)
  {
    AllWordsOfCons([c] + first, rest);
    WordsOfCons(c, first);
    WordsOfCons(c, s);
    PrependedConcat(c, StartsWord(first), Words(first), AllWords(rest));
  }

  // ----- Stripped lines

  /** `[part.strip() for part in parts if part.strip()]` */
  function Kept(parts: seq<string>): seq<string> {
    if parts == [] then []
    else (if Strip(parts[0]) == "" then [] else [Strip(parts[0])]) + Kept(parts[1..])
  }

  lemma {:induction false} WordsOfKept(parts: seq<string>)
    ensures AllWords(Kept(parts)) == AllWords(parts)
  {
    if parts != [] {
      WordsOfKept(parts[1..]);
      WordsOfStrip(parts[0]);
      AllWordsOfCons(Strip(parts[0]), Kept(parts[1..]));
      assert [] + Kept(parts[1..]) == Kept(parts[1..]);
    }
  }

  lemma {:induction false} StripEnds(s: string)
    ensures Strip(s) != "" ==> StartsWord(Strip(s)) && EndsWord(Strip(s))
  {
    if s != "" && IsSpace(s[0]) {
      StripEnds(s[1..]);
    } else if s != "" && IsSpace(s[|s| - 1]) {
      StripEnds(s[..|s| - 1]);
    }
  }

  // ----- Texts without line breaks

  predicate Unbroken(s: string) {
    forall c | c in s :: !IsLineBreak(c)
  }

  predicate AllUnbroken(parts: seq<string>) {
    forall part | part in parts :: Unbroken(part)
  }

  lemma UnbrokenConcat(a: string, b: string)
    ensures Unbroken(a + b) <==> Unbroken(a) && Unbroken(b)
  {
    assert forall c | c in a :: c in a + b;
    assert forall c | c in b :: c in a + b;
  }

  lemma AllUnbrokenOfCons(part: string, rest: seq<string>)
    ensures AllUnbroken([part] + rest) <==> Unbroken(part) && AllUnbroken(rest)
  {
    assert part in [part] + rest;
    assert forall p | p in rest :: p in [part] + rest;
    assert forall p | p in [part] + rest :: p == part || p in rest;
  }

  lemma {:induction false} SplitLinesAreUnbroken(s: string)
    ensures AllUnbroken(SplitLines(s))
  {
    if s == "" {
    } else if "\r\n" <= s {
      SplitLinesAreUnbroken(s[2..]);
      AllUnbrokenOfCons("", SplitLines(s[2..]));
    } else if IsLineBreak(s[0]) {
      SplitLinesAreUnbroken(s[1..]);
      AllUnbrokenOfCons("", SplitLines(s[1..]));
    } else if |s| > 1 {
      var rest := SplitLines(s[1..]);
      SplitLinesAreUnbroken(s[1..]);
      assert rest == [rest[0]] + rest[1..];
      AllUnbrokenOfCons(rest[0], rest[1..]);
      UnbrokenConcat([s[0]], rest[0]);
      AllUnbrokenOfCons([s[0]] + rest[0], rest[1..]);
    }
  }

  lemma {:induction false} StripIsUnbroken(s: string)
    requires Unbroken(s)
    ensures Unbroken(Strip(s))
  {
    if s != "" && IsSpace(s[0]) {
      UnbrokenConcat([s[0]], s[1..]);
      assert s == [s[0]] + s[1..];
      StripIsUnbroken(s[1..]);
    } else if s != "" && IsSpace(s[|s| - 1]) {
      UnbrokenConcat(s[..|s| - 1], [s[|s| - 1]]);
      assert s == s[..|s| - 1] + [s[|s| - 1]];
      StripIsUnbroken(s[..|s| - 1]);
    }
  }

  lemma {:induction false} SpacedIsUnbroken(parts: seq<string>)
    requires AllUnbroken(parts)
    ensures Unbroken(Spaced(parts))
  {
    if parts != [] {
      assert parts == [parts[0]] + parts[1..];
      AllUnbrokenOfCons(parts[0], parts[1..]);
      SpacedIsUnbroken(parts[1..]);
      UnbrokenConcat(" ", Spaced(parts[1..]));
      UnbrokenConcat(parts[0], " " + Spaced(parts[1..]));
    }
  }

  lemma {:induction false} KeptAreUnbroken(parts: seq<string>)
    requires AllUnbroken(parts)
    ensures AllUnbroken(Kept(parts))
  {
    if parts != [] {
      assert parts == [parts[0]] + parts[1..];
      AllUnbrokenOfCons(parts[0], parts[1..]);
      KeptAreUnbroken(parts[1..]);
      StripIsUnbroken(parts[0]);
      AllUnbrokenOfCons(Strip(parts[0]), Kept(parts[1..]));
      assert [] + Kept(parts[1..]) == Kept(parts[1..]);
    }
  }

  /** Unbroken lines, the last of them not empty, are what their join splits into. */
  lemma {:induction false} SplitOfJoin(lines: seq<string>)
    requires lines != [] && AllUnbroken(lines) && lines[|lines| - 1] != ""
    ensures SplitLines(Join(lines)) == lines
  {
    assert lines == [lines[0]] + lines[1..];
    AllUnbrokenOfCons(lines[0], lines[1..]);
    if |lines| == 1 {
      SplitOfOne(lines[0]);
    } else {
      SplitOfJoin(lines[1..]);
      SplitAtBreak(lines[0], Join(lines[1..]));
    }
  }

  lemma {:induction false} SplitOfOne(line: string)
    requires line != "" && Unbroken(line)
    ensures SplitLines(line) == [line]
  {
    assert line[0] in line && line == [line[0]] + line[1..];
    if |line| > 1 {
      UnbrokenConcat([line[0]], line[1..]);
      SplitOfOne(line[1..]);
    }
  }

  lemma {:induction false} SplitAtBreak(line: string, rest: string)
    requires Unbroken(line)
    ensures SplitLines(line + ("\n" + rest)) == [line] + SplitLines(rest)
  {
    var text := line + ("\n" + rest);
    if line == "" {
      assert text == "\n" + rest && text[1..] == rest;
    } else {
      assert line[0] in line && line == [line[0]] + line[1..];
      assert text[0] == line[0] && text[1..] == line[1..] + ("\n" + rest);
      UnbrokenConcat([line[0]], line[1..]);
      SplitAtBreak(line[1..], rest);
    }
  }

  // ----- The characters of the parts

  predicate Within(parts: seq<string>, s: string) {
    forall part | part in parts :: forall c | c in part :: c in s
  }

  lemma WithinOfCons(part: string, rest: seq<string>, s: string)
    ensures Within([part] + rest, s) <==> (forall c | c in part :: c in s) && Within(rest, s)
  {
    var all := [part] + rest;
    assert part in all && forall p | p in rest :: p in all;
    assert forall p | p in all :: p == part || p in rest;
  }

  lemma {:induction false} SplitLinesWithin(text: string, s: string)
    requires forall c | c in text :: c in s
    ensures Within(SplitLines(text), s)
  {
    if text == "" {
    } else if "\r\n" <= text {
      assert forall c | c in text[2..] :: c in text;
      SplitLinesWithin(text[2..], s);
      WithinOfCons("", SplitLines(text[2..]), s);
    } else if IsLineBreak(text[0]) {
      assert forall c | c in text[1..] :: c in text;
      SplitLinesWithin(text[1..], s);
      WithinOfCons("", SplitLines(text[1..]), s);
    } else if |text| > 1 {
      var rest := SplitLines(text[1..]);
      assert text[0] in text && forall c | c in text[1..] :: c in text;
      SplitLinesWithin(text[1..], s);
      assert rest == [rest[0]] + rest[1..];
      WithinOfCons(rest[0], rest[1..], s);
      WithinOfCons([text[0]] + rest[0], rest[1..], s);
    }
  }

  lemma {:induction false} TrimmedWithin(s: string)
    ensures forall c | c in WithoutTrailingNewlines(s) :: c in s
  {
    if s != "" && s[|s| - 1] == '\n' {
      TrimmedWithin(s[..|s| - 1]);
    }
  }

  lemma {:induction false} StripWithin(s: string)
    ensures forall c | c in Strip(s) :: c in s
  {
    if s != "" && IsSpace(s[0]) {
      StripWithin(s[1..]);
    } else if s != "" && IsSpace(s[|s| - 1]) {
      StripWithin(s[..|s| - 1]);
    }
  }

  lemma {:induction false} KeptWithin(parts: seq<string>, s: string)
    requires Within(parts, s)
    ensures Within(Kept(parts), s)
  {
    if parts != [] {
      assert parts == [parts[0]] + parts[1..];
      WithinOfCons(parts[0], parts[1..], s);
      KeptWithin(parts[1..], s);
      StripWithin(parts[0]);
      WithinOfCons(Strip(parts[0]), Kept(parts[1..]), s);
      assert [] + Kept(parts[1..]) == Kept(parts[1..]);
    }
  }

  lemma {:induction false} SpacedWithin(parts: seq<string>, s: string)
    requires Within(parts, s)
    ensures forall c | c in Spaced(parts) :: c == ' ' || c in s
  {
    if parts != [] {
      assert parts == [parts[0]] + parts[1..];
      WithinOfCons(parts[0], parts[1..], s);
      SpacedWithin(parts[1..], s);
    }
  }
}
