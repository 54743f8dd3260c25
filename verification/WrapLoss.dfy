/** Wrapping text that was wrapped before, where a line starts or ends in white space: flattening
    strips characters that wrapping never brings back. So the lines of the first pass come back exactly
    when they are tidy and full. */
module WrapLoss {
  import opened TextLines
  import opened TextWords
  import opened TextWrap
  import opened TextRewrap
  import opened HeaderReflow
  import opened WrapAgain

  // ----- Ink

  /** How many characters are no spaces. */
  function Ink(s: string): nat {
    if s == "" then 0 else (if s[0] == ' ' then 0 else 1) + Ink(s[1..])
  }

  lemma {:induction false} InkConcat(a: string, b: string)
    ensures Ink(a + b) == Ink(a) + Ink(b)
  {
    if a == "" {
      assert a + b == b;
    } else {
      assert (a + b)[1..] == a[1..] + b;
      InkConcat(a[1..], b);
    }
  }

  lemma {:induction false} InkOfGap(gap: string)
    requires forall c | c in gap :: c == ' '
    ensures Ink(gap) == 0
  {
    if gap != "" {
      assert gap[0] in gap && forall c | c in gap[1..] :: c in gap;
      InkOfGap(gap[1..]);
    }
  }

  lemma InkOfSolid(token: string)
    requires IsSolid(token)
    ensures Ink(token) > 0
  {
    assert token[0] in token;
  }

  lemma {:induction false} MungeAddsNoInk(s: string, column: nat)
    ensures Ink(Munge(s, column)) <= Ink(s)
    decreases |s|
  {
    if s != "" {
      var c, rest := s[0], s[1..];
      assert s == [c] + rest;
      MungeOfCons(c, rest, column);
      if c == '\t' {
        var n := TAB_SIZE - column % TAB_SIZE;
        MungeAddsNoInk(rest, column + n);
        InkOfGap(Blanks(n));
        InkConcat(Blanks(n), Munge(rest, column + n));
      } else {
        var next := if c in {'\n', '\r'} then 0 else column + 1;
        MungeAddsNoInk(rest, next);
        assert ([Munged(c)] + Munge(rest, next))[1..] == Munge(rest, next);
      }
    }
  }

  // ----- Wrapping keeps ink, except that of blank tokens

  function RowsInk(rows: seq<seq<string>>): nat {
    if rows == [] then 0 else Ink(Concat(rows[0])) + RowsInk(rows[1..])
  }

  lemma RowsInkOfCons(row: seq<string>, rows: seq<seq<string>>)
    ensures RowsInk([row] + rows) == Ink(Concat(row)) + RowsInk(rows)
  {
    assert ([row] + rows)[1..] == rows;
  }

  /** A row that ends in a solid token and starts with one unless it is the very first. */
  predicate EdgedRow(row: seq<string>, first: bool) {
    row != [] && IsSolid(row[|row| - 1]) && (first || IsSolid(row[0]))
  }

  predicate Edged(rows: seq<seq<string>>, first: bool) {
    rows == [] || (EdgedRow(rows[0], first) && Edged(rows[1..], false))
  }

  lemma EdgedOfCons(row: seq<string>, rows: seq<seq<string>>, first: bool)
    ensures Edged([row] + rows, first) <==> EdgedRow(row, first) && Edged(rows, false)
  {
    assert ([row] + rows)[1..] == rows;
  }

  /** Dropping the first token of a line: a gap costs no ink, and a solid token stands behind it. */
  lemma DroppedInk(tokens: seq<string>, first: bool)
    requires Plain(tokens)
    ensures Plain(Dropped(tokens, first))
    ensures Ink(Concat(Dropped(tokens, first))) <= Ink(Concat(tokens))
    ensures Ink(Concat(Dropped(tokens, first))) == Ink(Concat(tokens)) && !first && Dropped(tokens, first) != []
      ==> IsSolid(Dropped(tokens, first)[0])
  {
    DroppedIsPlain(tokens, first);
    if tokens != [] {
      InkConcat(tokens[0], Concat(tokens[1..]));
      PlainTokenKinds(tokens[0]);
      if IsSolid(tokens[0]) {
        InkOfSolid(tokens[0]);
      }
      if |tokens| > 1 {
        NextKinds(tokens, 0);
      }
    }
  }

  lemma TrimmedInk(line: seq<string>)
    requires Plain(line)
    ensures Ink(Concat(Trimmed(line))) <= Ink(Concat(line))
    ensures Ink(Concat(Trimmed(line))) == Ink(Concat(line)) && Trimmed(line) != []
      ==> IsSolid(Trimmed(line)[|Trimmed(line)| - 1])
  {
    if line != [] {
      var init, last := line[..|line| - 1], line[|line| - 1];
      assert line == init + [last];
      ConcatOfSnoc(init, last);
      InkConcat(Concat(init), last);
      PlainTokenKinds(last);
      if IsSolid(last) {
        InkOfSolid(last);
      }
      if |line| > 1 {
        NextKinds(line, |line| - 2);
      }
    }
  }

  lemma LineInk(tokens: seq<string>, first: bool)
    requires Plain(tokens)
    ensures var line, left := Line(tokens, first), Left(tokens, first);
      && Plain(left)
      && Ink(Concat(line)) + Ink(Concat(left)) <= Ink(Concat(tokens))
      && (Ink(Concat(line)) + Ink(Concat(left)) == Ink(Concat(tokens)) && line != [] ==> EdgedRow(line, first))
  {
    var ts := Dropped(tokens, first);
    var taken, left := ts[..Taken(ts)], ts[Taken(ts)..];
    LineIsPlain(tokens, first);
    DroppedInk(tokens, first);
    PlainSlice(ts, 0, Taken(ts));
    assert ts[0..Taken(ts)] == taken && ts == taken + left;
    ConcatOfConcat(taken, left);
    InkConcat(Concat(taken), Concat(left));
    TrimmedInk(taken);
    TrimmedIsPlain(taken);
  }

  /** The rows hold no more ink than the tokens, and if they hold as much, no row starts or ends in
      white space that wrapping cuts at. */
  lemma {:induction false} WrappedInk(tokens: seq<string>, first: bool)
    requires Plain(tokens)
    ensures RowsInk(Rows(tokens, first)) <= Ink(Concat(tokens))
    ensures RowsInk(Rows(tokens, first)) == Ink(Concat(tokens)) ==> Edged(Rows(tokens, first), first)
    decreases |tokens|
  {
    if tokens != [] {
      var line, left := Line(tokens, first), Left(tokens, first);
      LineInk(tokens, first);
      if line == [] {
        WrappedInk(left, first);
      } else {
        WrappedInk(left, false);
        RowsInkOfCons(line, Rows(left, false));
        EdgedOfCons(line, Rows(left, false), first);
      }
    }
  }

  // ----- Stripping loses the ink at the edges

  lemma {:induction false} StripAddsNoInk(s: string)
    ensures Ink(Strip(s)) <= Ink(s)
    decreases |s|
  {
    if s != "" {
      var init, last := s[..|s| - 1], s[|s| - 1];
      assert s == init + [last];
      InkConcat(init, [last]);
      if IsSpace(s[0]) {
        StripAddsNoInk(s[1..]);
      } else if IsSpace(last) {
        StripAddsNoInk(init);
      }
    }
  }

  lemma {:induction false} StripLosesEnd(s: string)
    requires s != "" && IsSpace(s[|s| - 1]) && s[|s| - 1] != ' '
    ensures Ink(Strip(s)) < Ink(s)
    decreases |s|
  {
    var init, last := s[..|s| - 1], s[|s| - 1];
    assert s == init + [last];
    InkConcat(init, [last]);
    if IsSpace(s[0]) {
      if |s| == 1 {
        assert s[1..] == "";
      } else {
        StripLosesEnd(s[1..]);
      }
    } else {
      StripAddsNoInk(init);
    }
  }

  lemma StripLosesStart(s: string)
    requires s != "" && IsSpace(s[0]) && s[0] != ' '
    ensures Ink(Strip("  " + s)) < Ink("  " + s)
  {
    StripOfSpace(s);
    StripOfSpace(" " + s);
    assert "  " + s == " " + (" " + s);
    InkConcat("  ", s);
    InkOfGap("  ");
    StripAddsNoInk(s[1..]);
  }

  /** A printed row that loses no ink when it is stripped has no white space at its edges at all. */
  lemma StrippedRow(row: seq<string>, first: bool)
    requires PlainRow(row)
    ensures var line := Indent(first) + Concat(row);
      Ink(Strip(line)) <= Ink(line) && (Ink(Strip(line)) == Ink(line) && EdgedRow(row, first) ==> GoodRow(row, first))
  {
    var line := Indent(first) + Concat(row);
    RowEdges(row);
    StripAddsNoInk(line);
    if EdgedRow(row, first) {
      PlainTokenKinds(row[0]);
      var last := row[|row| - 1];
      assert last[|last| - 1] in last;
      if !EndsWord(last) {
        StripLosesEnd(line);
      }
      if !first && !StartsWord(row[0]) {
        StripLosesStart(Concat(row));
      }
    }
  }

  function LinesInk(lines: seq<string>): nat {
    if lines == [] then 0 else Ink(lines[0]) + LinesInk(lines[1..])
  }

  lemma {:induction false} SpacedInk(parts: seq<string>)
    ensures Ink(Spaced(parts)) == LinesInk(parts)
  {
    if |parts| > 1 {
      SpacedInk(parts[1..]);
      InkConcat(parts[0], " " + Spaced(parts[1..]));
      InkConcat(" ", Spaced(parts[1..]));
      SpacedOfCons(parts[0], parts[1..]);
      assert parts == [parts[0]] + parts[1..];
    }
  }

  lemma KeptInkOfCons(line: string, lines: seq<string>)
    ensures LinesInk(Kept([line] + lines)) == Ink(Strip(line)) + LinesInk(Kept(lines))
  {
    assert ([line] + lines)[1..] == lines;
    if Strip(line) == "" {
      assert [] + Kept(lines) == Kept(lines);
    } else {
      assert ([Strip(line)] + Kept(lines))[1..] == Kept(lines);
    }
  }

  /** Stripping printed rows adds no ink, and loses none only if no row starts or ends in white space. */
  lemma {:induction false} KeptInk(rows: seq<seq<string>>, first: bool)
    requires PlainRows(rows)
    ensures var kept, printed := LinesInk(Kept(Printed(rows, first))), RowsInk(rows) + |Bullet(first && rows != [])|;
      kept <= printed && (kept == printed && Edged(rows, first) ==> GoodRows(rows, first))
    decreases |rows|
  {
    if rows != [] {
      var row, rest := rows[0], rows[1..];
      var line := Indent(first) + Concat(row);
      assert rows == [row] + rest;
      PlainRowsOfCons(row, rest);
      PrintedOfCons(row, rest, first);
      KeptInkOfCons(line, Printed(rest, false));
      StrippedRow(row, first);
      InkConcat(Indent(first), Concat(row));
      assert Ink(Indent(first)) == |Bullet(first)| by { IndentInk(first); }
      KeptInk(rest, false);
    }
  }

  lemma IndentInk(first: bool)
    ensures Ink(Indent(first)) == |Bullet(first)|
  {
    if first {
      InkConcat("*", " ");
      assert "* " == "*" + " ";
    } else {
      InkOfGap("  ");
    }
  }

  // ----- The exact condition

  lemma KeptWords(lines: seq<string>)
    ensures Words(Spaced(Kept(lines))) == Words(Join(lines))
  {
    WordsOfKept(lines);
    WordsOfSpaced(Kept(lines));
    WordsOfJoin(lines);
  }

  lemma KeptStart(first: string, others: seq<string>)
    requires IsBullet(first)
    ensures var text := Spaced(Kept([first] + others));
      text == "*" || IsBullet(text)
  {
    StripOfBullet(first);
    KeptOfCons(first, others);
    BulletOfSpaced(Kept([first] + others));
  }

  /** Flattened lines start with the bullet. */
  lemma KeptBullet(s: string)
    requires Words(s) != []
    ensures IsBullet(Spaced(Kept(Wrap(s))))
  {
    var lines := Wrap(s);
    WrappedWords(s);
    LinesAreIndented(Tokens(Munge(s, 0)), true);
    assert lines == [lines[0]] + lines[1..];
    KeptStart(lines[0], lines[1..]);
    KeptWords(lines);
    OneWord("*");
  }

  lemma RereadInk(s: string)
    requires Words(s) != []
    ensures Ink(Reread(s)) + 1 == LinesInk(Kept(Wrap(s)))
  {
    var text := Spaced(Kept(Wrap(s)));
    KeptBullet(s);
    SpacedInk(Kept(Wrap(s)));
    assert text == Indent(true) + text[2..];
    InkConcat(Indent(true), text[2..]);
    IndentInk(true);
  }

  /** Lines that come back are tidy. */
  lemma ComingBackIsTidy(s: string)
    requires Words(s) != [] && Wrap(Reread(s)) == Wrap(s)
    ensures Tidy(Wrap(s), true)
  {
    var rows, again := RowsOf(s), Munge(Reread(s), 0);
    RowsOfArePlain(s);
    RowsOfArePlain(Reread(s));
    WrappedWords(s);
    PrintingIsInjective(RowsOf(Reread(s)), rows, true);
    WrappedInk(Tokens(again), true);
    TokensAlternate(again);
    MungeAddsNoInk(Reread(s), 0);
    RereadInk(s);
    KeptInk(rows, true);
    TidyRows(rows, true);
  }

  /** Wrapping what was wrapped gives the same lines exactly when no line starts or ends in white space
      and no line had room for the first token of the next. */
  lemma WrappingAgain(s: string)
    requires Words(s) != []
    ensures Wrap(Reread(s)) == Wrap(s) <==> Tidy(Wrap(s), true) && Full(Wrap(s))
  {
    if Tidy(Wrap(s), true) {
      TidyLinesComeBack(s);
    } else if Wrap(Reread(s)) == Wrap(s) {
      ComingBackIsTidy(s);
    }
  }
}
