/** Greedy wrapping: Python's `textwrap.wrap` with a width of 92, a bullet in front of the first
    line, two spaces in front of the others, and no token ever broken. */
module TextWrap {
  import opened TextLines
  import opened TextWords

  const TAB_SIZE := 8
  const WIDTH := 92
  const ROOM := 90

  function Blanks(n: nat): string {
    seq(n, _ => ' ')
  }

  /** Tabs expanded by column, every other ASCII white space made a space. */
  function Munge(s: string, column: nat): string {
    if s == "" then ""
    else if s[0] == '\t' then
      var n := TAB_SIZE - column % TAB_SIZE;
      Blanks(n) + Munge(s[1..], column + n)
    else if s[0] in {'\n', '\r'} then " " + Munge(s[1..], 0)
    else if s[0] in {'\U{b}', '\U{c}'} then " " + Munge(s[1..], column + 1)
    else [s[0]] + Munge(s[1..], column + 1)
  }

  /** Runs of spaces and the texts between them. */
  function Tokens(s: string): (tokens: seq<string>)
    ensures s != "" ==> tokens != [] && tokens[0] != "" && tokens[0][0] == s[0]
  {
    if s == "" then []
    else
      var rest := Tokens(s[1..]);
      if rest != [] && (rest[0][0] == ' ' <==> s[0] == ' ') then [[s[0]] + rest[0]] + rest[1..]
      else [[s[0]]] + rest
  }

  /** How many tokens fit into `room` columns. */
  function Fit(tokens: seq<string>, room: int): (n: nat)
    ensures n <= |tokens|
  {
    if tokens == [] || |tokens[0]| > room then 0 else 1 + Fit(tokens[1..], room - |tokens[0]|)
  }

  /** How many tokens go on a line: those that fit, or one that fits on no line. */
  function Taken(tokens: seq<string>): (n: nat)
    ensures n <= |tokens| && (tokens != [] ==> n > 0)
  {
    if Fit(tokens, ROOM) == 0 && tokens != [] then 1 else Fit(tokens, ROOM)
  }

  predicate Blank(token: string) {
    Strip(token) == ""
  }

  /** A blank token does not start a line, except the very first one. */
  function Dropped(tokens: seq<string>, first: bool): seq<string> {
    if !first && tokens != [] && Blank(tokens[0]) then tokens[1..] else tokens
  }

  /** Nor does it end one. */
  function Trimmed(line: seq<string>): seq<string> {
    if line != [] && Blank(line[|line| - 1]) then line[..|line| - 1] else line
  }

  function Indent(first: bool): string {
    if first then "* " else "  "
  }

  /** What the next line shows of the tokens, and what it leaves. */
  function Line(tokens: seq<string>, first: bool): seq<string> {
    var ts := Dropped(tokens, first);
    Trimmed(ts[..Taken(ts)])
  }

  function Left(tokens: seq<string>, first: bool): (rest: seq<string>)
    ensures tokens != [] ==> |rest| < |tokens|
  {
    var ts := Dropped(tokens, first);
    ts[Taken(ts)..]
  }

  function WrapFrom(tokens: seq<string>, first: bool): seq<string>
    decreases |tokens|
  {
    if tokens == [] then []
    else if Line(tokens, first) == [] then WrapFrom(Left(tokens, first), first)
    else [Indent(first) + Concat(Line(tokens, first))] + WrapFrom(Left(tokens, first), false)
  }

  function Wrap(s: string): seq<string> {
    WrapFrom(Tokens(Munge(s, 0)), true)
  }

  /** A tab is expanded to the next multiple of eight columns, by at least one blank. */
  lemma TabStops(rest: string, column: nat)
    ensures var n := 8 - column % 8;
      1 <= n <= 8 && (column + n) % 8 == 0 && Munge("\t" + rest, column) == Blanks(n) + Munge(rest, column + n)
  {
    assert ("\t" + rest)[1..] == rest;
  }

  // ----- The words stay

  /** A character that `Munge` keeps, or the space it makes of it. */
  function Munged(c: char): char {
    if c in {'\n', '\r', '\U{b}', '\U{c}'} then ' ' else c
  }

  lemma MungeOfCons(c: char, rest: string, column: nat)
    ensures c == '\t' ==> var n := TAB_SIZE - column % TAB_SIZE;
      Munge([c] + rest, column) == Blanks(n) + Munge(rest, column + n)
    ensures c != '\t' ==>
      Munge([c] + rest, column) == [Munged(c)] + Munge(rest, if c in {'\n', '\r'} then 0 else column + 1)
  {
    assert ([c] + rest)[1..] == rest;
  }

  lemma WordsBehindBlanks(n: nat, s: string)
    requires n > 0
    ensures Words(Blanks(n) + s) == Words(s) && !StartsWord(Blanks(n) + s)
  {
    NoWords(Blanks(n));
    assert Blanks(n)[|Blanks(n)| - 1] == ' ';
    WordsConcat(Blanks(n), s);
    assert [] + Words(s) == Words(s);
  }

  lemma {:induction false} MungeKeepsWords(s: string, column: nat)
    ensures Words(Munge(s, column)) == Words(s)
    ensures StartsWord(Munge(s, column)) == StartsWord(s)
    decreases |s|
  {
    if s != "" {
      var c, rest := s[0], s[1..];
      assert s == [c] + rest;
      MungeOfCons(c, rest, column);
      WordsOfCons(c, rest);
      if c == '\t' {
        var n := TAB_SIZE - column % TAB_SIZE;
        MungeKeepsWords(rest, column + n);
        WordsBehindBlanks(n, Munge(rest, column + n));
      } else {
        var next := if c in {'\n', '\r'} then 0 else column + 1;
        MungeKeepsWords(rest, next);
        WordsOfCons(Munged(c), Munge(rest, next));
      }
    }
  }

  /** At every cut between two tokens there is a space on exactly one side. */
  predicate Cut(a: string, b: string) {
    a != "" && b != "" && (a[|a| - 1] == ' ' <==> b[0] != ' ')
  }

  predicate Alternate(tokens: seq<string>) {
    && (forall i | 0 <= i < |tokens| :: tokens[i] != "")
    && forall i | 0 < i < |tokens| :: Cut(tokens[i - 1], tokens[i])
  }

  lemma AlternateOfCons(token: string, rest: seq<string>)
    requires Alternate(rest) && token != "" && (rest != [] ==> Cut(token, rest[0]))
    ensures Alternate([token] + rest)
  {
    var all := [token] + rest;
    forall i | 0 < i < |all|
      ensures Cut(all[i - 1], all[i])
    {
      assert all[i] == rest[i - 1] && (i > 1 ==> all[i - 1] == rest[i - 2]);
    }
  }

  lemma AlternateTail(token: string, rest: seq<string>)
    requires Alternate([token] + rest)
    ensures Alternate(rest) && (rest != [] ==> Cut(token, rest[0]))
  {
    var all := [token] + rest;
    assert rest != [] ==> Cut(all[0], all[1]);
    forall i | 0 <= i < |rest|
      ensures rest[i] != "" && (i > 0 ==> Cut(rest[i - 1], rest[i]))
    {
      assert all[i + 1] == rest[i] && (i > 0 ==> all[i] == rest[i - 1]);
      assert i > 0 ==> Cut(all[i], all[i + 1]);
    }
  }

  lemma ConcatOfCons(token: string, rest: seq<string>)
    ensures Concat([token] + rest) == token + Concat(rest)
  {
    assert ([token] + rest)[1..] == rest;
  }

  lemma LongerCut(c: char, a: string, b: string)
    requires Cut(a, b)
    ensures Cut([c] + a, b)
  {
    assert ([c] + a)[|a|] == a[|a| - 1];
  }

  /** A first token that is one character longer. */
  lemma LongerAlternates(c: char, token: string, rest: seq<string>)
    requires Alternate([token] + rest)
    ensures Alternate([[c] + token] + rest)
    ensures Concat([[c] + token] + rest) == [c] + Concat([token] + rest)
  {
    AlternateTail(token, rest);
    if rest != [] {
      LongerCut(c, token, rest[0]);
    }
    AlternateOfCons([c] + token, rest);
    ConcatOfCons([c] + token, rest);
    ConcatOfCons(token, rest);
  }

  lemma {:induction false} TokensAlternate(s: string)
    ensures Alternate(Tokens(s)) && Concat(Tokens(s)) == s
  {
    if s != "" {
      var c, rest := s[0], Tokens(s[1..]);
      TokensAlternate(s[1..]);
      if rest != [] && (rest[0][0] == ' ' <==> c == ' ') {
        assert [rest[0]] + rest[1..] == rest;
        LongerAlternates(c, rest[0], rest[1..]);
      } else {
        AlternateOfCons([c], rest);
        ConcatOfCons([c], rest);
      }
      assert [c] + s[1..] == s;
    }
  }

  lemma {:induction false} WordsOfTokens(tokens: seq<string>)
    requires Alternate(tokens)
    ensures Words(Concat(tokens)) == AllWords(tokens)
  {
    if tokens != [] {
      var rest := tokens[1..];
      WordsOfTokens(rest);
      if rest != [] {
        assert Cut(tokens[0], tokens[1]) && Concat(rest) == rest[0] + Concat(rest[1..]);
      }
      WordsConcat(tokens[0], Concat(rest));
    }
  }

  lemma StripIsBlank(token: string)
    ensures Blank(token) <==> Words(token) == []
  {
    WordsOfStrip(token);
    NoWords(Strip(token));
    StripEnds(token);
    if Strip(token) != "" {
      assert Strip(token)[0] in Strip(token);
    }
  }

  lemma DroppedKeepsWords(tokens: seq<string>, first: bool)
    ensures AllWords(Dropped(tokens, first)) == AllWords(tokens)
  {
    if tokens != [] {
      StripIsBlank(tokens[0]);
      assert [] + AllWords(tokens[1..]) == AllWords(tokens[1..]);
    }
  }

  lemma TrimmedKeepsWords(line: seq<string>)
    ensures AllWords(Trimmed(line)) == AllWords(line)
  {
    if line != [] {
      var last := line[|line| - 1];
      StripIsBlank(last);
      assert line == line[..|line| - 1] + [last];
      AllWordsConcat(line[..|line| - 1], [last]);
      assert Blank(last) ==> AllWords([last]) == [];
    }
  }

  function Bullet(first: bool): seq<string> {
    if first then ["*"] else []
  }

  lemma IndentWords(first: bool, text: string)
    ensures Words(Indent(first) + text) == Bullet(first) + Words(text)
  {
    WordsConcat(Indent(first), text);
    if first {
      OneWord("*");
      WordsBreak("*", ' ', "");
      assert "*" + ([' '] + "") == "* ";
    } else {
      NoWords("  ");
    }
  }

  lemma LineKeepsWords(tokens: seq<string>, first: bool)
    ensures AllWords(tokens) == AllWords(Line(tokens, first)) + AllWords(Left(tokens, first))
  {
    var ts := Dropped(tokens, first);
    var n := Taken(ts);
    DroppedKeepsWords(tokens, first);
    TrimmedKeepsWords(ts[..n]);
    assert ts == ts[..n] + ts[n..];
    AllWordsConcat(ts[..n], ts[n..]);
  }

  lemma PartsAlternate(tokens: seq<string>, first: bool)
    requires Alternate(tokens)
    ensures Alternate(Line(tokens, first)) && Alternate(Left(tokens, first))
  {
    var ts := Dropped(tokens, first);
    assert Alternate(ts);
  }

  lemma WordsOfLine(line: seq<string>, first: bool, lines: seq<string>)
    requires Alternate(line)
    ensures AllWords([Indent(first) + Concat(line)] + lines) == Bullet(first) + (AllWords(line) + AllWords(lines))
  {
    WordsOfTokens(line);
    IndentWords(first, Concat(line));
    AllWordsOfCons(Indent(first) + Concat(line), lines);
  }

  /** Wrapping keeps the words, behind one bullet if there is any line. */
  lemma {:induction false} WrapKeepsWords(tokens: seq<string>, first: bool)
    requires Alternate(tokens)
    ensures AllWords(WrapFrom(tokens, first))
         == (if WrapFrom(tokens, first) == [] then [] else Bullet(first)) + AllWords(tokens)
    decreases |tokens|
  {
    if tokens != [] {
      var line, left := Line(tokens, first), Left(tokens, first);
      LineKeepsWords(tokens, first);
      PartsAlternate(tokens, first);
      if line == [] {
        WrapKeepsWords(left, first);
      } else {
        WrapKeepsWords(left, false);
        WordsOfLine(line, first, WrapFrom(left, false));
        assert [] + AllWords(left) == AllWords(left);
      }
    }
  }

  /** The words of wrapped text are a bullet and the words of the text. */
  lemma WrappedWords(s: string)
    requires Words(s) != []
    ensures Wrap(s) != [] && Words(Join(Wrap(s))) == ["*"] + Words(s)
  {
    var tokens := Tokens(Munge(s, 0));
    MungeKeepsWords(s, 0);
    TokensAlternate(Munge(s, 0));
    WordsOfTokens(tokens);
    WrapKeepsWords(tokens, true);
    WordsOfJoin(Wrap(s));
  }

  // ----- The lines are as wide as they may be

  lemma {:induction false} FitIsNarrow(tokens: seq<string>, room: nat)
    ensures |Concat(tokens[..Fit(tokens, room)])| <= room
    decreases |tokens|
  {
    if tokens != [] && |tokens[0]| <= room {
      var n := Fit(tokens[1..], room - |tokens[0]|);
      FitIsNarrow(tokens[1..], room - |tokens[0]|);
      assert tokens[..n + 1] == [tokens[0]] + tokens[1..][..n];
      assert Concat(tokens[..n + 1]) == tokens[0] + Concat(tokens[1..][..n]);
    } else {
      assert Concat(tokens[..0]) == "";
    }
  }

  lemma {:induction false} PrefixIsNarrower(line: seq<string>)
    requires line != []
    ensures |Concat(line[..|line| - 1])| <= |Concat(line)|
  {
    if |line| > 1 {
      PrefixIsNarrower(line[1..]);
      assert line[..|line| - 1] == [line[0]] + line[1..][..|line[1..]| - 1];
      assert Concat(line[..|line| - 1]) == line[0] + Concat(line[1..][..|line[1..]| - 1]);
    } else {
      assert line[..0] == [];
    }
  }

  /** A line is at most 92 columns wide, or holds one token that no line has room for. */
  predicate Fits(line: string, tokens: seq<string>) {
    |line| <= 92 || exists token | token in tokens :: |token| > 90 && |line| == 2 + |token| && line[2..] == token
  }

  lemma LineFits(all: seq<string>, first: bool, tokens: seq<string>)
    requires Line(all, first) != [] && forall token | token in all :: token in tokens
    ensures Fits(Indent(first) + Concat(Line(all, first)), tokens)
  {
    var ts := Dropped(all, first);
    var line := ts[..Taken(ts)];
    assert ts != [] && ts[0] in all;
    if Fit(ts, ROOM) == 0 {
      assert line == [ts[0]] && Trimmed(line) == line;
      assert Concat(line) == ts[0] + Concat([]) && ts[0] in tokens;
      var text := Indent(first) + Concat(line);
      assert text[2..] == ts[0];
    } else {
      FitIsNarrow(ts, ROOM);
      PrefixIsNarrower(line);
    }
  }

  lemma {:induction false} LinesFit(ts: seq<string>, first: bool, tokens: seq<string>)
    requires forall token | token in ts :: token in tokens
    ensures forall line | line in WrapFrom(ts, first) :: Fits(line, tokens)
    decreases |ts|
  {
    if ts != [] {
      var left := Left(ts, first);
      assert forall token | token in left :: token in ts;
      if Line(ts, first) == [] {
        LinesFit(left, first, tokens);
      } else {
        LinesFit(left, false, tokens);
        LineFits(ts, first, tokens);
      }
    }
  }

  /** No wrapped line is wider than 92 columns unless it is a single longer token. */
  lemma WrappedWidth(s: string)
    ensures forall line | line in Wrap(s) :: Fits(line, Tokens(Munge(s, 0)))
  {
    LinesFit(Tokens(Munge(s, 0)), true, Tokens(Munge(s, 0)));
  }

  // ----- The lines stay lines

  lemma {:induction false} MungeIsUnbroken(s: string, column: nat)
    requires Unbroken(s)
    ensures Unbroken(Munge(s, column))
    decreases |s|
  {
    if s != "" {
      assert s == [s[0]] + s[1..] && s[0] in s;
      UnbrokenConcat([s[0]], s[1..]);
      if s[0] == '\t' {
        var n := TAB_SIZE - column % TAB_SIZE;
        MungeIsUnbroken(s[1..], column + n);
        UnbrokenConcat(Blanks(n), Munge(s[1..], column + n));
      } else {
        MungeIsUnbroken(s[1..], column + 1);
        UnbrokenConcat([s[0]], Munge(s[1..], column + 1));
      }
    }
  }

  lemma {:induction false} ConcatIsUnbroken(parts: seq<string>)
    ensures Unbroken(Concat(parts)) <==> AllUnbroken(parts)
  {
    if parts != [] {
      assert parts == [parts[0]] + parts[1..];
      ConcatIsUnbroken(parts[1..]);
      AllUnbrokenOfCons(parts[0], parts[1..]);
      UnbrokenConcat(parts[0], Concat(parts[1..]));
    }
  }

  lemma PartsAreUnbroken(tokens: seq<string>, first: bool)
    requires AllUnbroken(tokens)
    ensures AllUnbroken(Line(tokens, first)) && AllUnbroken(Left(tokens, first))
  {
    assert forall token | token in Line(tokens, first) :: token in tokens;
    assert forall token | token in Left(tokens, first) :: token in tokens;
  }

  lemma {:induction false} WrapFromIsUnbroken(tokens: seq<string>, first: bool)
    requires AllUnbroken(tokens)
    ensures AllUnbroken(WrapFrom(tokens, first))
    decreases |tokens|
  {
    if tokens != [] {
      var line, left := Line(tokens, first), Left(tokens, first);
      PartsAreUnbroken(tokens, first);
      if line == [] {
        WrapFromIsUnbroken(left, first);
      } else {
        WrapFromIsUnbroken(left, false);
        ConcatIsUnbroken(line);
        UnbrokenConcat(Indent(first), Concat(line));
        AllUnbrokenOfCons(Indent(first) + Concat(line), WrapFrom(left, false));
      }
    }
  }

  lemma WrapIsUnbroken(s: string)
    requires Unbroken(s)
    ensures AllUnbroken(Wrap(s))
  {
    MungeIsUnbroken(s, 0);
    TokensAlternate(Munge(s, 0));
    ConcatIsUnbroken(Tokens(Munge(s, 0)));
    WrapFromIsUnbroken(Tokens(Munge(s, 0)), true);
  }

  /** The first line starts with the bullet, the others with two spaces. */
  lemma {:induction false} LinesAreIndented(tokens: seq<string>, first: bool)
    ensures forall i | 0 <= i < |WrapFrom(tokens, first)| :: Indent(first && i == 0) <= WrapFrom(tokens, first)[i]
    decreases |tokens|
  {
    if tokens != [] {
      var left := Left(tokens, first);
      if Line(tokens, first) == [] {
        LinesAreIndented(left, first);
      } else {
        LinesAreIndented(left, false);
      }
    }
  }
}
