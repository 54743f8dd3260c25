/** Wrapping text that was wrapped before. A wrapped text is a list of rows of tokens. Where no row
    starts or ends in white space, flattening puts a single space between rows, and the rows come back
    exactly when no row could have taken the first token of the next. */
module WrapAgain {
  import opened Sequences
  import opened TextLines
  import opened TextWords
  import opened TextWrap
  import opened TextRewrap
  import opened HeaderReflow

  // ----- Tokens of texts that are cut at spaces only

  /** The white space at which wrapping cuts. */
  predicate IsWrapSpace(c: char) {
    c in {' ', '\t', '\n', '\r', '\U{b}', '\U{c}'}
  }

  /** A token that is no gap; it can hold other white space, such as a no-break space. */
  predicate IsSolid(token: string) {
    token != "" && forall c | c in token :: !IsWrapSpace(c)
  }

  predicate IsGap(token: string) {
    token != "" && forall c | c in token :: c == ' '
  }

  /** Solid tokens and gaps in turn. */
  predicate Plain(tokens: seq<string>) {
    && (forall i | 0 <= i < |tokens| :: IsSolid(tokens[i]) || IsGap(tokens[i]))
    && (forall i | 0 < i < |tokens| :: IsSolid(tokens[i]) <==> IsGap(tokens[i - 1]))
  }

  predicate PlainText(s: string) {
    forall c | c in s && IsWrapSpace(c) :: c == ' '
  }

  lemma PlainTokenKinds(token: string)
    requires IsSolid(token) || IsGap(token)
    ensures IsSolid(token) <==> !IsGap(token)
    ensures IsGap(token) <==> token[0] == ' '
    ensures IsGap(token) ==> Blank(token)
  {
    assert token[0] in token;
    if IsGap(token) {
      NoWords(token);
      StripIsBlank(token);
    }
  }

  lemma PlainOfCons(token: string, rest: seq<string>)
    requires Plain(rest) && (IsSolid(token) || IsGap(token))
    requires rest != [] ==> (IsSolid(rest[0]) <==> IsGap(token))
    ensures Plain([token] + rest)
  {
    var all := [token] + rest;
    forall i | 0 < i < |all|
      ensures IsSolid(all[i]) <==> IsGap(all[i - 1])
    {
      assert i > 1 ==> all[i] == rest[i - 1] && all[i - 1] == rest[i - 2];
    }
  }

  lemma PlainSlice(tokens: seq<string>, from: nat, to: nat)
    requires Plain(tokens) && from <= to <= |tokens|
    ensures Plain(tokens[from..to])
  {
    var part := tokens[from..to];
    forall i | 0 < i < |part|
      ensures IsSolid(part[i]) <==> IsGap(part[i - 1])
    {
      assert part[i] == tokens[from + i] && part[i - 1] == tokens[from + i - 1];
    }
  }

  lemma PlainTextOfCons(c: char, s: string)
    ensures PlainText([c] + s) <==> (IsWrapSpace(c) ==> c == ' ') && PlainText(s)
  {
    assert c in [c] + s && forall d | d in s :: d in [c] + s;
  }

  lemma LongerToken(c: char, token: string)
    requires (IsSolid(token) && !IsWrapSpace(c)) || (IsGap(token) && c == ' ')
    ensures if c == ' ' then IsGap([c] + token) else IsSolid([c] + token)
  {
  }

  lemma LongerTokens(c: char, token: string, rest: seq<string>)
    requires token != "" && Plain([token] + rest) && (IsWrapSpace(c) ==> c == ' ') && (token[0] == ' ' <==> c == ' ')
    ensures Plain([[c] + token] + rest)
  {
    var all := [token] + rest;
    assert all[0] == token && forall i | 0 <= i < |rest| :: all[i + 1] == rest[i];
    PlainTokenKinds(token);
    LongerToken(c, token);
    PlainTokenKinds([c] + token);
    assert all[1..] == rest;
    PlainSlice(all, 1, |all|);
    PlainOfCons([c] + token, rest);
  }

  lemma OneMoreToken(c: char, rest: seq<string>)
    requires Plain(rest) && (IsWrapSpace(c) ==> c == ' ') && (rest != [] ==> (rest[0][0] == ' ' <==> c != ' '))
    ensures Plain([[c]] + rest)
  {
    PlainTokenKinds([c]);
    if rest != [] {
      PlainTokenKinds(rest[0]);
    }
    PlainOfCons([c], rest);
  }

  lemma {:induction false} TokensArePlain(s: string)
    requires PlainText(s)
    ensures Plain(Tokens(s))
  {
    if s != "" {
      var c, rest := s[0], Tokens(s[1..]);
      assert s == [c] + s[1..];
      PlainTextOfCons(c, s[1..]);
      TokensArePlain(s[1..]);
      if rest != [] && (rest[0][0] == ' ' <==> c == ' ') {
        assert rest == [rest[0]] + rest[1..];
        LongerTokens(c, rest[0], rest[1..]);
      } else {
        OneMoreToken(c, rest);
      }
    }
  }

  lemma {:induction false} TokensOfGap(gap: string, rest: string)
    requires IsGap(gap) && (rest == "" || rest[0] != ' ')
    ensures Tokens(gap + rest) == [gap] + Tokens(rest)
  {
    assert gap == [gap[0]] + gap[1..] && gap[0] in gap;
    assert (gap + rest)[0] == gap[0] && (gap + rest)[1..] == gap[1..] + rest;
    if |gap| == 1 {
      assert gap[1..] + rest == rest && [gap[0]] == gap;
    } else {
      assert gap[1] in gap && forall c | c in gap[1..] :: c in gap;
      TokensOfGap(gap[1..], rest);
      assert ([gap[1..]] + Tokens(rest))[1..] == Tokens(rest);
    }
  }

  lemma ConcatStarts(tokens: seq<string>)
    requires Plain(tokens) && tokens != []
    ensures Concat(tokens) == tokens[0] + Concat(tokens[1..]) && Concat(tokens) != ""
    ensures Concat(tokens)[0] == ' ' <==> IsGap(tokens[0])
  {
    PlainTokenKinds(tokens[0]);
  }

  lemma NextKind(tokens: seq<string>)
    requires Plain(tokens) && |tokens| > 1
    ensures IsGap(tokens[1]) <==> IsSolid(tokens[0])
  {
    PlainTokenKinds(tokens[0]);
    PlainTokenKinds(tokens[1]);
  }

  lemma FirstTokenIsCut(token: string, rest: string)
    requires IsSolid(token) || IsGap(token)
    requires rest != "" ==> (rest[0] == ' ' <==> IsSolid(token))
    ensures Tokens(token + rest) == [token] + Tokens(rest)
  {
    if IsSolid(token) {
      TokensOfWord(token, rest);
    } else {
      TokensOfGap(token, rest);
    }
  }

  /** Plain tokens are what their text is cut into. */
  lemma {:induction false} TokensOfPlain(tokens: seq<string>)
    requires Plain(tokens)
    ensures Tokens(Concat(tokens)) == tokens
  {
    if tokens != [] {
      var rest := tokens[1..];
      PlainSlice(tokens, 1, |tokens|);
      TokensOfPlain(rest);
      if rest != [] {
        ConcatStarts(rest);
        NextKind(tokens);
      }
      FirstTokenIsCut(tokens[0], Concat(rest));
      assert [tokens[0]] + rest == tokens;
    }
  }

  lemma {:induction false} PlainTokensArePlainText(tokens: seq<string>)
    requires Plain(tokens)
    ensures PlainText(Concat(tokens))
  {
    if tokens != [] {
      PlainSlice(tokens, 1, |tokens|);
      PlainTokensArePlainText(tokens[1..]);
    }
  }

  // ----- Rows

  /** The tokens of the wrapped lines. */
  function Rows(tokens: seq<string>, first: bool): seq<seq<string>>
    decreases |tokens|
  {
    if tokens == [] then []
    else if Line(tokens, first) == [] then Rows(Left(tokens, first), first)
    else [Line(tokens, first)] + Rows(Left(tokens, first), false)
  }

  function Printed(rows: seq<seq<string>>, first: bool): seq<string> {
    if rows == [] then [] else [Indent(first) + Concat(rows[0])] + Printed(rows[1..], false)
  }

  lemma PrintedOfCons(row: seq<string>, rows: seq<seq<string>>, first: bool)
    ensures Printed([row] + rows, first) == [Indent(first) + Concat(row)] + Printed(rows, false)
  {
    assert ([row] + rows)[1..] == rows;
  }

  lemma {:induction false} WrapPrintsRows(tokens: seq<string>, first: bool)
    ensures WrapFrom(tokens, first) == Printed(Rows(tokens, first), first)
    decreases |tokens|
  {
    if tokens != [] {
      var line, left := Line(tokens, first), Left(tokens, first);
      if line == [] {
        WrapPrintsRows(left, first);
      } else {
        WrapPrintsRows(left, false);
        PrintedOfCons(line, Rows(left, false), first);
      }
    }
  }

  /** What every row is: it fits or is one token. */
  predicate PlainRow(row: seq<string>) {
    row != [] && Plain(row) && (|Concat(row)| <= ROOM || |row| == 1)
  }

  predicate PlainRows(rows: seq<seq<string>>) {
    forall row | row in rows :: PlainRow(row)
  }

  /** A row that does not end in white space, nor starts with any unless it is the very first. */
  predicate GoodRow(row: seq<string>, first: bool) {
    PlainRow(row) && EndsWord(row[|row| - 1]) && (first || StartsWord(row[0]))
  }

  predicate GoodRows(rows: seq<seq<string>>, first: bool) {
    rows == [] || (GoodRow(rows[0], first) && GoodRows(rows[1..], false))
  }

  lemma GoodRowsOfCons(row: seq<string>, rows: seq<seq<string>>, first: bool)
    ensures GoodRows([row] + rows, first) <==> GoodRow(row, first) && GoodRows(rows, false)
  {
    assert ([row] + rows)[1..] == rows;
  }

  lemma GoodEnds(row: seq<string>, first: bool)
    requires GoodRow(row, first)
    ensures IsSolid(row[|row| - 1]) && (!first ==> IsSolid(row[0]) && !Blank(row[0])) && !Blank(row[|row| - 1])
  {
    var a, b := row[0], row[|row| - 1];
    assert b[|b| - 1] in b && a[0] in a;
    StripIsBlank(a);
    StripIsBlank(b);
    NoWords(a);
    NoWords(b);
  }

  lemma PlainRowsOfCons(row: seq<string>, rows: seq<seq<string>>)
    ensures PlainRows([row] + rows) <==> PlainRow(row) && PlainRows(rows)
  {
    assert row in [row] + rows && forall r | r in rows :: r in [row] + rows;
    assert forall r | r in [row] + rows :: r == row || r in rows;
  }

  lemma DroppedIsPlain(tokens: seq<string>, first: bool)
    requires Plain(tokens)
    ensures Plain(Dropped(tokens, first))
  {
    if tokens != [] {
      PlainSlice(tokens, 1, |tokens|);
    }
  }

  lemma TrimmedIsPlain(line: seq<string>)
    requires Plain(line)
    ensures Plain(Trimmed(line)) && Trimmed(line) <= line
  {
    if line != [] {
      PlainSlice(line, 0, |line| - 1);
      assert line[0..|line| - 1] == line[..|line| - 1];
    }
  }

  lemma TakenFits(ts: seq<string>)
    ensures |Concat(Trimmed(ts[..Taken(ts)]))| <= ROOM || |Trimmed(ts[..Taken(ts)])| <= 1
  {
    if ts != [] && Fit(ts, ROOM) > 0 {
      FitIsNarrow(ts, ROOM);
      PrefixIsNarrower(ts[..Taken(ts)]);
    }
  }

  lemma LineIsPlain(tokens: seq<string>, first: bool)
    requires Plain(tokens)
    ensures Line(tokens, first) != [] ==> PlainRow(Line(tokens, first))
    ensures Plain(Left(tokens, first))
  {
    var ts := Dropped(tokens, first);
    DroppedIsPlain(tokens, first);
    PlainSlice(ts, 0, Taken(ts));
    PlainSlice(ts, Taken(ts), |ts|);
    assert ts[0..Taken(ts)] == ts[..Taken(ts)] && ts[Taken(ts)..|ts|] == ts[Taken(ts)..];
    TrimmedIsPlain(ts[..Taken(ts)]);
    TakenFits(ts);
  }

  lemma {:induction false} RowsArePlain(tokens: seq<string>, first: bool)
    requires Plain(tokens)
    ensures PlainRows(Rows(tokens, first))
    decreases |tokens|
  {
    if tokens != [] {
      var line, left := Line(tokens, first), Left(tokens, first);
      LineIsPlain(tokens, first);
      if line == [] {
        RowsArePlain(left, first);
      } else {
        RowsArePlain(left, false);
        PlainRowsOfCons(line, Rows(left, false));
      }
    }
  }

  /** Good rows are plain. */
  lemma {:induction false} GoodIsPlain(rows: seq<seq<string>>, first: bool)
    requires GoodRows(rows, first)
    ensures PlainRows(rows)
  {
    if rows != [] {
      GoodIsPlain(rows[1..], false);
      assert rows == [rows[0]] + rows[1..];
      PlainRowsOfCons(rows[0], rows[1..]);
    }
  }

  // ----- Rows put together again

  /** The rows with a single space between them. */
  function Rejoined(rows: seq<seq<string>>): seq<string> {
    if rows == [] then []
    else if |rows| == 1 then rows[0]
    else rows[0] + ([" "] + Rejoined(rows[1..]))
  }

  lemma RejoinedOfCons(row: seq<string>, rows: seq<seq<string>>)
    requires rows != []
    ensures Rejoined([row] + rows) == row + ([" "] + Rejoined(rows))
  {
    assert ([row] + rows)[1..] == rows;
  }

  lemma PlainConcat(a: seq<string>, b: seq<string>)
    requires Plain(a) && Plain(b)
    requires a != [] && b != [] ==> (IsSolid(b[0]) <==> IsGap(a[|a| - 1]))
    ensures Plain(a + b)
  {
    var all := a + b;
    forall i | 0 < i < |all|
      ensures IsSolid(all[i]) <==> IsGap(all[i - 1])
    {
      assert i < |a| ==> all[i] == a[i] && all[i - 1] == a[i - 1];
      assert i > |a| ==> all[i] == b[i - |a|] && all[i - 1] == b[i - 1 - |a|];
    }
  }

  lemma {:induction false} RejoinedIsPlain(rows: seq<seq<string>>, first: bool)
    requires GoodRows(rows, first)
    ensures Plain(Rejoined(rows))
    ensures rows != [] ==> Rejoined(rows) != [] && Rejoined(rows)[0] == rows[0][0]
  {
    if rows != [] {
      var row, rest := rows[0], rows[1..];
      RejoinedIsPlain(rest, false);
      if rest != [] {
        assert rows == [row] + rest;
        RejoinedOfCons(row, rest);
        GoodEnds(row, first);
        GoodEnds(rest[0], false);
        PlainTokenKinds(row[|row| - 1]);
        PlainTokenKinds(rest[0][0]);
        PlainTokenKinds(" ");
        PlainOfCons(" ", Rejoined(rest));
        PlainConcat(row, [" "] + Rejoined(rest));
      }
    }
  }

  function FirstToken(row: seq<string>): string {
    if row == [] then "" else row[0]
  }

  /** No row could have taken the first word of the next after a single space. */
  predicate Tight(rows: seq<seq<string>>) {
    |rows| <= 1 || (|Concat(rows[0])| + 1 + |FirstToken(rows[1])| > ROOM && Tight(rows[1..]))
  }

  lemma {:induction false} FitPast(a: seq<string>, b: seq<string>, room: int)
    requires |Concat(a)| <= room
    ensures Fit(a + b, room) == |a| + Fit(b, room - |Concat(a)|)
    decreases |a|
  {
    if a == [] {
      assert a + b == b;
    } else {
      assert (a + b)[1..] == a[1..] + b && (a + b)[0] == a[0];
      FitPast(a[1..], b, room - |a[0]|);
    }
  }

  lemma FitOfSpaceAndWord(rest: seq<string>, room: int)
    requires rest != []
    ensures 1 + |rest[0]| > room ==> Fit([" "] + rest, room) == if room < 1 then 0 else 1
    ensures 1 + |rest[0]| <= room ==> Fit([" "] + rest, room) >= 2
  {
    assert ([" "] + rest)[1..] == rest;
  }

  lemma TrimmedAtWord(row: seq<string>, first: bool)
    requires GoodRow(row, first)
    ensures Trimmed(row) == row && Trimmed(row + [" "]) == row
  {
    GoodEnds(row, first);
    SpaceIsBlank();
    assert (row + [" "])[..|row|] == row;
  }

  lemma DroppedAtRow(row: seq<string>, rest: seq<string>, first: bool, gap: bool)
    requires GoodRow(row, first) && !(first && gap)
    ensures Dropped(Gap(gap) + (row + rest), first) == row + rest
  {
    SpaceIsBlank();
    GoodEnds(row, first);
    var tokens := Gap(gap) + (row + rest);
    if gap {
      assert tokens[0] == " " && tokens[1..] == row + rest;
    } else {
      assert tokens == row + rest && tokens[0] == row[0];
    }
  }

  lemma LongRow(row: seq<string>)
    requires |row| == 1
    ensures Concat(row) == row[0]
  {
    assert Concat(row[1..]) == "";
  }

  lemma LastTaken(row: seq<string>)
    requires row != [] && (|Concat(row)| <= ROOM || |row| == 1)
    ensures Taken(row) == |row|
  {
    if |Concat(row)| <= ROOM {
      FitPast(row, [], ROOM);
      assert row + [] == row;
    } else {
      LongRow(row);
    }
  }

  lemma TightTaken(row: seq<string>, rest: seq<string>)
    requires row != [] && (|Concat(row)| <= ROOM || |row| == 1) && rest != []
    requires |Concat(row)| + 1 + |rest[0]| > ROOM
    ensures Taken(row + ([" "] + rest)) in {|row|, |row| + 1}
  {
    if |Concat(row)| <= ROOM {
      FitPast(row, [" "] + rest, ROOM);
      FitOfSpaceAndWord(rest, ROOM - |Concat(row)|);
    } else {
      LongRow(row);
    }
  }

  /** The last row comes back whole. */
  lemma LastRow(row: seq<string>, first: bool, gap: bool)
    requires GoodRow(row, first) && !(first && gap)
    ensures Line(Gap(gap) + row, first) == row && Left(Gap(gap) + row, first) == []
  {
    DroppedAtRow(row, [], first, gap);
    assert row + [] == row;
    LastTaken(row);
    assert row[..|row|] == row;
    TrimmedAtWord(row, first);
  }

  lemma RowSlices(row: seq<string>, rest: seq<string>)
    ensures (row + ([" "] + rest))[..|row|] == row && (row + ([" "] + rest))[|row|..] == Gap(true) + rest
    ensures (row + ([" "] + rest))[..|row| + 1] == row + [" "]
    ensures (row + ([" "] + rest))[|row| + 1..] == Gap(false) + rest
  {
  }

  /** A row in front of others comes back whole when it cannot take the next word. */
  lemma RowComesBack(row: seq<string>, rest: seq<string>, first: bool, gap: bool) returns (more: bool)
    requires GoodRow(row, first) && !(first && gap) && rest != []
    requires |Concat(row)| + 1 + |rest[0]| > ROOM
    ensures Line(Gap(gap) + (row + ([" "] + rest)), first) == row
    ensures Left(Gap(gap) + (row + ([" "] + rest)), first) == Gap(more) + rest
  {
    DroppedAtRow(row, [" "] + rest, first, gap);
    TightTaken(row, rest);
    TrimmedAtWord(row, first);
    RowSlices(row, rest);
    more := Taken(row + ([" "] + rest)) == |row|;
  }

  /** A row that can take the next word does. */
  lemma RowGrows(row: seq<string>, rest: seq<string>, first: bool, gap: bool)
    requires GoodRow(row, first) && !(first && gap) && rest != []
    requires |Concat(row)| + 1 + |rest[0]| <= ROOM
    ensures |Line(Gap(gap) + (row + ([" "] + rest)), first)| > |row|
  {
    DroppedAtRow(row, [" "] + rest, first, gap);
    FitPast(row, [" "] + rest, ROOM);
    FitOfSpaceAndWord(rest, ROOM - |Concat(row)|);
  }

  lemma TightOfCons(row: seq<string>, rest: seq<seq<string>>)
    requires rest != []
    ensures Tight([row] + rest) <==> |Concat(row)| + 1 + |FirstToken(rest[0])| > ROOM && Tight(rest)
  {
    assert ([row] + rest)[1..] == rest;
  }

  lemma RowsStep(tokens: seq<string>, first: bool)
    requires tokens != [] && Line(tokens, first) != []
    ensures Rows(tokens, first) == [Line(tokens, first)] + Rows(Left(tokens, first), false)
  {
  }

  /** Wrapping the rejoined rows gives the same rows exactly when they are tight. */
  lemma {:induction false} RowsComeBack(rows: seq<seq<string>>, first: bool, gap: bool)
    requires GoodRows(rows, first) && !(first && gap) && !(rows == [] && gap)
    ensures Rows(Gap(gap) + Rejoined(rows), first) == rows <==> Tight(rows)
    decreases |rows|
  {
    if rows != [] {
      var row, rest := rows[0], rows[1..];
      var tokens := Gap(gap) + Rejoined(rows);
      assert rows == [row] + rest;
      if rest == [] {
        LastRow(row, first, gap);
        RowsStep(tokens, first);
        assert [row] + [] == rows;
      } else {
        RejoinedOfCons(row, rest);
        RejoinedIsPlain(rest, false);
        TightOfCons(row, rest);
        if |Concat(row)| + 1 + |rest[0][0]| > ROOM {
          var more := RowComesBack(row, Rejoined(rest), first, gap);
          RowsComeBack(rest, false, more);
          RowsStep(tokens, first);
        } else {
          RowGrows(row, Rejoined(rest), first, gap);
          RowsStep(tokens, first);
        }
      }
    }
  }

  // ----- Flattening the printed rows

  lemma {:induction false} ConcatOfSnoc(tokens: seq<string>, token: string)
    ensures Concat(tokens + [token]) == Concat(tokens) + token
  {
    if tokens == [] {
      assert tokens + [token] == [token] && Concat([token][1..]) == "";
    } else {
      assert (tokens + [token])[1..] == tokens[1..] + [token];
      ConcatOfSnoc(tokens[1..], token);
    }
  }

  lemma {:induction false} ConcatOfConcat(a: seq<string>, b: seq<string>)
    ensures Concat(a + b) == Concat(a) + Concat(b)
  {
    if a == [] {
      assert a + b == b;
    } else {
      assert (a + b)[1..] == a[1..] + b;
      ConcatOfConcat(a[1..], b);
      Associate(a[0], Concat(a[1..]), Concat(b));
    }
  }

  lemma ConcatEnds(init: seq<string>, last: string)
    requires last != ""
    ensures var text := Concat(init + [last]); text != "" && text[|text| - 1] == last[|last| - 1]
  {
    ConcatOfSnoc(init, last);
  }

  lemma RowEdges(row: seq<string>)
    requires PlainRow(row)
    ensures var text, last := Concat(row), row[|row| - 1];
      text != "" && text[0] == row[0][0] && text[|text| - 1] == last[|last| - 1]
  {
    ConcatStarts(row);
    ConcatEnds(row[..|row| - 1], row[|row| - 1]);
    assert row == row[..|row| - 1] + [row[|row| - 1]];
  }

  lemma RowStrips(row: seq<string>, first: bool)
    requires GoodRow(row, first)
    ensures Strip(Indent(first) + Concat(row)) == Lead(first) + Concat(row) && Lead(first) + Concat(row) != ""
  {
    RowEdges(row);
    if first {
      StripOfTight("* " + Concat(row));
    } else {
      StripOfIndented(Concat(row), false);
    }
  }

  lemma TextOfRejoined(row: seq<string>, rest: seq<seq<string>>)
    requires rest != []
    ensures Concat(Rejoined([row] + rest)) == Concat(row) + (" " + Concat(Rejoined(rest)))
  {
    RejoinedOfCons(row, rest);
    ConcatOfConcat(row, [" "] + Rejoined(rest));
    assert ([" "] + Rejoined(rest))[1..] == Rejoined(rest);
  }

  /** Stripping printed rows and joining them with spaces gives the rejoined rows. */
  lemma {:induction false} PrintedRowsFlatten(rows: seq<seq<string>>, first: bool)
    requires rows != [] && GoodRows(rows, first)
    ensures Kept(Printed(rows, first)) != []
    ensures Spaced(Kept(Printed(rows, first))) == Lead(first) + Concat(Rejoined(rows))
    ensures var lines := Printed(rows, first); lines != [] && EndsWord(lines[|lines| - 1])
    decreases |rows|
  {
    var row, rest := rows[0], rows[1..];
    assert rows == [row] + rest;
    PrintedOfCons(row, rest, first);
    RowEdges(row);
    RowStrips(row, first);
    KeptOfCons(Indent(first) + Concat(row), Printed(rest, false));
    if rest == [] {
      assert Rejoined(rows) == row && Kept([]) == [];
      assert [Lead(first) + Concat(row)] + [] == [Lead(first) + Concat(row)];
    } else {
      PrintedRowsFlatten(rest, false);
      TextOfRejoined(row, rest);
      SpacedOfCons(Lead(first) + Concat(row), Kept(Printed(rest, false)));
      assert "" + Concat(Rejoined(rest)) == Concat(Rejoined(rest));
      Associate(Lead(first), Concat(row), " " + Concat(Rejoined(rest)));
    }
  }

  /** Printed rows determine the rows. */
  lemma {:induction false} PrintingIsInjective(a: seq<seq<string>>, b: seq<seq<string>>, first: bool)
    requires PlainRows(a) && PlainRows(b) && Printed(a, first) == Printed(b, first)
    ensures a == b
    decreases |a|
  {
    if a != [] && b != [] {
      assert a == [a[0]] + a[1..] && b == [b[0]] + b[1..];
      PlainRowsOfCons(a[0], a[1..]);
      PlainRowsOfCons(b[0], b[1..]);
      PrintedOfCons(a[0], a[1..], first);
      PrintedOfCons(b[0], b[1..], first);
      assert Printed(a, first)[0] == Printed(b, first)[0];
      assert (Indent(first) + Concat(a[0]))[2..] == Concat(a[0]);
      assert (Indent(first) + Concat(b[0]))[2..] == Concat(b[0]);
      TokensOfPlain(a[0]);
      TokensOfPlain(b[0]);
      assert Printed(a, first)[1..] == Printed(a[1..], false) && Printed(b, first)[1..] == Printed(b[1..], false);
      PrintingIsInjective(a[1..], b[1..], false);
    }
  }

  // ----- The condition, on the lines themselves

  /** The first token of a line, behind its indent. */
  function LineToken(line: string): string {
    if |line| <= 2 then "" else Tokens(line[2..])[0]
  }

  /** No line had room for the first token of the next after a single space. */
  predicate Full(lines: seq<string>) {
    |lines| <= 1 || (|lines[0]| + 1 + |LineToken(lines[1])| > WIDTH && Full(lines[1..]))
  }

  /** No line ends in white space, and behind the two spaces of its indent none goes on with any. */
  predicate Tidy(lines: seq<string>, first: bool) {
    lines == []
    || (EndsWord(lines[0]) && |lines[0]| > 2 && (first || !IsSpace(lines[0][2])) && Tidy(lines[1..], false))
  }

  lemma FullOfCons(line: string, lines: seq<string>)
    ensures Full([line] + lines)
       <==> (lines != [] ==> |line| + 1 + |LineToken(lines[0])| > WIDTH) && Full(lines)
  {
    assert ([line] + lines)[1..] == lines;
  }

  lemma TokenOfRow(row: seq<string>)
    requires PlainRow(row)
    ensures LineToken("  " + Concat(row)) == row[0]
  {
    assert ("  " + Concat(row))[2..] == Concat(row);
    ConcatStarts(row);
    TokensOfPlain(row);
  }

  lemma TidyRow(row: seq<string>, first: bool)
    requires PlainRow(row)
    ensures var line := Indent(first) + Concat(row);
      GoodRow(row, first) <==> EndsWord(line) && |line| > 2 && (first || !IsSpace(line[2]))
  {
    var text := Concat(row);
    RowEdges(row);
    assert (Indent(first) + text)[2] == text[0];
  }

  /** Rows are good exactly when their lines are tidy. */
  lemma {:induction false} TidyRows(rows: seq<seq<string>>, first: bool)
    requires PlainRows(rows)
    ensures GoodRows(rows, first) <==> Tidy(Printed(rows, first), first)
    decreases |rows|
  {
    if rows != [] {
      var row, rest := rows[0], rows[1..];
      assert rows == [row] + rest;
      PlainRowsOfCons(row, rest);
      PrintedOfCons(row, rest, first);
      TidyRow(row, first);
      TidyRows(rest, false);
      assert Printed(rows, first)[1..] == Printed(rest, false);
    }
  }

  /** Rows are tight exactly when their lines are full. */
  lemma {:induction false} TightRowsPrintFull(rows: seq<seq<string>>, first: bool)
    requires GoodRows(rows, first)
    ensures Tight(rows) <==> Full(Printed(rows, first))
    decreases |rows|
  {
    if rows != [] {
      var row, rest := rows[0], rows[1..];
      assert rows == [row] + rest;
      PrintedOfCons(row, rest, first);
      FullOfCons(Indent(first) + Concat(row), Printed(rest, false));
      TightRowsPrintFull(rest, false);
      if rest != [] {
        TightOfCons(row, rest);
        PrintedOfCons(rest[0], rest[1..], false);
        assert rest == [rest[0]] + rest[1..];
        TokenOfRow(rest[0]);
      }
    }
  }

  // ----- Texts

  lemma {:induction false} MungeIsPlain(s: string, column: nat)
    ensures PlainText(Munge(s, column))
    decreases |s|
  {
    if s != "" {
      if s[0] == '\t' {
        MungeIsPlain(s[1..], column + (TAB_SIZE - column % TAB_SIZE));
      } else if s[0] in {'\n', '\r'} {
        MungeIsPlain(s[1..], 0);
      } else {
        MungeIsPlain(s[1..], column + 1);
      }
    }
  }

  function RowsOf(s: string): seq<seq<string>> {
    Rows(Tokens(Munge(s, 0)), true)
  }

  /** What the wrapped text flattens to. */
  function Reread(s: string): string {
    WithoutBullet(Spaced(Kept(Wrap(s))))
  }

  lemma RowsOfArePlain(s: string)
    ensures Plain(Tokens(Munge(s, 0)))
    ensures PlainRows(RowsOf(s)) && Wrap(s) == Printed(RowsOf(s), true)
  {
    MungeIsPlain(s, 0);
    TokensArePlain(Munge(s, 0));
    RowsArePlain(Tokens(Munge(s, 0)), true);
    WrapPrintsRows(Tokens(Munge(s, 0)), true);
  }

  /** Stripping tidy lines and joining them with spaces gives their rows with single spaces between. */
  lemma WrappedLinesFlatten(s: string)
    requires Words(s) != [] && Tidy(Wrap(s), true)
    ensures GoodRows(RowsOf(s), true) && Reread(s) == Concat(Rejoined(RowsOf(s)))
  {
    RowsOfArePlain(s);
    TidyRows(RowsOf(s), true);
    WrappedWords(s);
    PrintedRowsFlatten(RowsOf(s), true);
    var text := Concat(Rejoined(RowsOf(s)));
    assert ("* " + text)[2..] == text;
  }

  /** Wrapping what tidy lines flatten to gives the same lines exactly when every line was full. */
  lemma TidyLinesComeBack(s: string)
    requires Words(s) != [] && Tidy(Wrap(s), true)
    ensures Wrap(Reread(s)) == Wrap(s) <==> Full(Wrap(s))
  {
    var rows := RowsOf(s);
    RowsOfArePlain(s);
    RowsOfArePlain(Reread(s));
    WrappedLinesFlatten(s);
    RejoinedIsPlain(rows, true);
    RereadRows(s);
    RowsComeBack(rows, true, false);
    assert Gap(false) + Rejoined(rows) == Rejoined(rows);
    TightRowsPrintFull(rows, true);
    if Wrap(Reread(s)) == Wrap(s) {
      PrintingIsInjective(RowsOf(Reread(s)), rows, true);
    }
  }

  lemma RereadRows(s: string)
    requires GoodRows(RowsOf(s), true) && Reread(s) == Concat(Rejoined(RowsOf(s)))
    ensures RowsOf(Reread(s)) == Rows(Rejoined(RowsOf(s)), true)
  {
    var tokens := Rejoined(RowsOf(s));
    RejoinedIsPlain(RowsOf(s), true);
    PlainTokensArePlainText(tokens);
    MungeIsIdle(Reread(s), 0);
    TokensOfPlain(tokens);
  }

  // ----- Texts whose white space is all cut at

  /** Wrapping cuts at every white space of the text. */
  predicate CutsEverywhere(s: string) {
    forall c | c in s && IsSpace(c) :: IsWrapSpace(c)
  }

  predicate AllWordsOrGaps(tokens: seq<string>) {
    forall token | token in tokens :: IsWord(token) || IsGap(token)
  }

  lemma WordEnds(token: string)
    requires IsWord(token) || IsGap(token)
    ensures Blank(token) <==> IsGap(token)
    ensures !IsGap(token) ==> StartsWord(token) && EndsWord(token)
  {
    assert token[0] in token && token[|token| - 1] in token;
    StripIsBlank(token);
    NoWords(token);
  }

  lemma WordEdges(w: string)
    requires IsWord(w)
    ensures StartsWord(w) && EndsWord(w) && ' ' !in w
  {
    assert w[0] in w && w[|w| - 1] in w;
  }

  lemma NextKinds(tokens: seq<string>, i: nat)
    requires Plain(tokens) && i + 1 < |tokens|
    ensures IsGap(tokens[i + 1]) <==> !IsGap(tokens[i])
  {
    PlainTokenKinds(tokens[i]);
    PlainTokenKinds(tokens[i + 1]);
  }

  lemma DroppedOfWords(tokens: seq<string>, first: bool)
    requires Plain(tokens) && AllWordsOrGaps(tokens)
    ensures !first && Dropped(tokens, first) != [] ==> StartsWord(Dropped(tokens, first)[0])
  {
    if tokens != [] {
      WordEnds(tokens[0]);
    }
    if |tokens| > 1 {
      WordEnds(tokens[1]);
      NextKinds(tokens, 0);
    }
  }

  lemma TrimmedOfWords(line: seq<string>)
    requires Plain(line) && AllWordsOrGaps(line)
    ensures Trimmed(line) != [] ==> EndsWord(Trimmed(line)[|Trimmed(line)| - 1])
  {
    var k := |line| - 1;
    if line != [] {
      WordEnds(line[k]);
    }
    if |line| > 1 {
      WordEnds(line[k - 1]);
      NextKinds(line, k - 1);
    }
  }

  lemma LineOfWordsIsGood(tokens: seq<string>, first: bool)
    requires Plain(tokens) && AllWordsOrGaps(tokens)
    ensures Line(tokens, first) != [] ==> GoodRow(Line(tokens, first), first)
    ensures Plain(Left(tokens, first)) && AllWordsOrGaps(Left(tokens, first))
  {
    var ts := Dropped(tokens, first);
    LineIsPlain(tokens, first);
    DroppedOfWords(tokens, first);
    DroppedIsPlain(tokens, first);
    PlainSlice(ts, 0, Taken(ts));
    assert ts[0..Taken(ts)] == ts[..Taken(ts)];
    TrimmedOfWords(ts[..Taken(ts)]);
    TrimmedIsPlain(ts[..Taken(ts)]);
  }

  lemma {:induction false} RowsOfWordsAreGood(tokens: seq<string>, first: bool)
    requires Plain(tokens) && AllWordsOrGaps(tokens)
    ensures GoodRows(Rows(tokens, first), first)
    decreases |tokens|
  {
    if tokens != [] {
      var line, left := Line(tokens, first), Left(tokens, first);
      LineOfWordsIsGood(tokens, first);
      if line == [] {
        RowsOfWordsAreGood(left, first);
      } else {
        RowsOfWordsAreGood(left, false);
        GoodRowsOfCons(line, Rows(left, false), first);
      }
    }
  }

  lemma {:induction false} MungeCuts(s: string, column: nat)
    requires CutsEverywhere(s)
    ensures forall c | c in Munge(s, column) && IsSpace(c) :: c == ' '
    decreases |s|
  {
    if s != "" {
      assert s[0] in s && forall c | c in s[1..] :: c in s;
      if s[0] == '\t' {
        MungeCuts(s[1..], column + (TAB_SIZE - column % TAB_SIZE));
      } else if s[0] in {'\n', '\r'} {
        MungeCuts(s[1..], 0);
      } else {
        MungeCuts(s[1..], column + 1);
      }
    }
  }

  lemma {:induction false} TokensWithin(tokens: seq<string>)
    ensures forall token, c | token in tokens && c in token :: c in Concat(tokens)
  {
    if tokens != [] {
      TokensWithin(tokens[1..]);
    }
  }

  /** Where wrapping cuts at all white space, its lines are tidy. */
  lemma CutLinesAreTidy(s: string)
    requires CutsEverywhere(s)
    ensures Tidy(Wrap(s), true)
  {
    var tokens := Tokens(Munge(s, 0));
    RowsOfArePlain(s);
    MungeCuts(s, 0);
    TokensAlternate(Munge(s, 0));
    TokensWithin(tokens);
    forall token | token in tokens
      ensures IsWord(token) || IsGap(token)
    {
      assert IsSolid(token) || IsGap(token);
    }
    RowsOfWordsAreGood(tokens, true);
    TidyRows(RowsOf(s), true);
  }

  // ----- Single-spaced texts

  lemma TokenOfGreedy(line: string, ws: seq<string>, j: nat)
    requires AreWords(ws) && 1 <= j <= |ws| && GreedyLine(line, ws, j, false)
    ensures LineToken(line) == ws[0]
  {
    assert line[2..] == Spaced(ws[..j]);
    SpacedStarts(ws[..j]);
    TokensOfSpaced(ws[..j]);
  }

  lemma GreedyLineIsFull(line: string, ws: seq<string>, j: nat, first: bool)
    requires 1 <= j < |ws| && GreedyLine(line, ws, j, first)
    ensures |line| + 1 + |ws[j]| > WIDTH
  {
    SpacedOfSnoc(ws[..j], ws[j]);
    assert ws[..j + 1] == ws[..j] + [ws[j]];
  }

  lemma FirstGreedyWord(lines: seq<string>, ws: seq<string>)
    requires Greedy(lines, ws, false) && AreWords(ws) && ws != []
    ensures lines != [] && LineToken(lines[0]) == ws[0]
  {
    var k :| 1 <= k <= |ws| && GreedyLine(lines[0], ws, k, false) && Greedy(lines[1..], ws[k..], false);
    TokenOfGreedy(lines[0], ws, k);
  }

  /** Greedy lines of single-spaced words are full. */
  lemma {:induction false} GreedyIsFull(lines: seq<string>, ws: seq<string>, first: bool)
    requires Greedy(lines, ws, first) && AreWords(ws)
    ensures Full(lines)
    decreases |ws|
  {
    if ws != [] {
      var j :| 1 <= j <= |ws| && GreedyLine(lines[0], ws, j, first) && Greedy(lines[1..], ws[j..], false);
      assert forall w | w in ws[j..] :: w in ws;
      assert lines == [lines[0]] + lines[1..];
      FullOfCons(lines[0], lines[1..]);
      GreedyIsFull(lines[1..], ws[j..], false);
      if j < |ws| {
        GreedyLineIsFull(lines[0], ws, j, first);
        FirstGreedyWord(lines[1..], ws[j..]);
      }
    }
  }

  lemma {:induction false} SpacedOfSnoc(ws: seq<string>, w: string)
    requires ws != []
    ensures |Spaced(ws + [w])| == |Spaced(ws)| + 1 + |w|
  {
    if |ws| == 1 {
      assert (ws + [w])[1..] == [w];
    } else {
      assert (ws + [w])[1..] == ws[1..] + [w];
      SpacedOfSnoc(ws[1..], w);
    }
  }
}
