/** Re-flowing a header that was re-flowed before: exactly when it changes nothing. */
module ReflowAgain {
  import opened TextLines
  import opened TextWords
  import opened TextWrap
  import opened TextRewrap
  import opened WrapAgain
  import opened WrapLoss
  import opened HeaderReflow

  predicate SingleSpaced(chunk: string) {
    var flat := Flat(chunk);
    flat == Spaced(Words(flat))
  }

  lemma {:induction false} TrimOfTrailing(text: string, trailing: string)
    requires (text != "" ==> text[|text| - 1] != '\n') && forall c | c in trailing :: c == '\n'
    ensures WithoutTrailingNewlines(text + trailing) == text
    decreases |trailing|
  {
    var whole := text + trailing;
    if trailing == "" {
      assert whole == text;
    } else {
      var shorter := trailing[..|trailing| - 1];
      assert whole[|whole| - 1] == trailing[|trailing| - 1] && trailing[|trailing| - 1] in trailing;
      assert whole[..|whole| - 1] == text + shorter;
      assert forall c | c in shorter :: c in trailing;
      TrimOfTrailing(text, shorter);
    }
  }

  lemma {:induction false} JoinEnds(lines: seq<string>)
    requires lines != [] && lines[|lines| - 1] != ""
    ensures var last, text := lines[|lines| - 1], Join(lines);
      text != "" && text[|text| - 1] == last[|last| - 1]
  {
    if |lines| > 1 {
      JoinEnds(lines[1..]);
    }
  }

  lemma TrailingAgain(text: string, trailing: string)
    requires text != "" && text[|text| - 1] != '\n' && (trailing == "\n" || trailing == "\n\n")
    ensures Trailing(text + trailing) == trailing
  {
    var whole := text + trailing;
    if trailing == "\n" {
      assert whole[|whole| - 2..][0] == text[|text| - 1];
    } else {
      assert whole[|whole| - 2..] == trailing;
    }
  }

  lemma FlattenedFrom(text: string, trailing: string, lines: seq<string>)
    requires WithoutTrailingNewlines(text + trailing) == text && SplitLines(text) == lines
    ensures Flattened(text + trailing) == Spaced(Kept(lines))
  {
  }

  lemma JoinEndsInNoBreak(lines: seq<string>)
    requires lines != [] && AllUnbroken(lines) && lines[|lines| - 1] != ""
    ensures Join(lines) != "" && Join(lines)[|Join(lines)| - 1] != '\n'
  {
    var last := lines[|lines| - 1];
    JoinEnds(lines);
    assert Unbroken(last) && last[|last| - 1] in last;
  }

  lemma TextComesBack(text: string, lines: seq<string>, trailing: string)
    requires text != "" && text[|text| - 1] != '\n' && SplitLines(text) == lines
    requires trailing == "\n" || trailing == "\n\n"
    ensures Flattened(text + trailing) == Spaced(Kept(lines)) && Trailing(text + trailing) == trailing
  {
    TrimOfTrailing(text, trailing);
    FlattenedFrom(text, trailing, lines);
    TrailingAgain(text, trailing);
  }

  /** Lines come back from their join. */
  lemma JoinComesBack(lines: seq<string>, trailing: string)
    requires lines != [] && AllUnbroken(lines) && lines[|lines| - 1] != ""
    requires trailing == "\n" || trailing == "\n\n"
    ensures Flattened(Join(lines) + trailing) == Spaced(Kept(lines))
    ensures Trailing(Join(lines) + trailing) == trailing
  {
    JoinEndsInNoBreak(lines);
    SplitOfJoin(lines);
    TextComesBack(Join(lines), lines, trailing);
  }

  lemma FlattenedAgain(chunk: string)
    requires IsBullet(chunk)
    ensures Flat(Rewrapped(chunk)) == Reread(Flat(chunk)) && Trailing(Rewrapped(chunk)) == Trailing(chunk)
  {
    var lines := Wrap(Flat(chunk));
    RewrappedText(chunk);
    LinesAreIndented(Tokens(Munge(Flat(chunk), 0)), true);
    JoinComesBack(lines, Trailing(chunk));
  }

  lemma JoinedLinesDiffer(a: seq<string>, b: seq<string>, trailing: string)
    requires a != [] && b != [] && AllUnbroken(a) && AllUnbroken(b)
    ensures Join(a) + trailing == Join(b) + trailing <==> a == b
  {
    if Join(a) + trailing == Join(b) + trailing {
      assert (Join(a) + trailing)[..|Join(a)|] == Join(a) && (Join(b) + trailing)[..|Join(b)|] == Join(b);
      LinesOfJoin(a);
      LinesOfJoin(b);
    }
  }

  lemma RewrappedText(chunk: string)
    requires IsBullet(chunk)
    ensures Rewrapped(chunk) == Join(Wrap(Flat(chunk))) + Trailing(chunk)
    ensures Wrap(Flat(chunk)) != [] && AllUnbroken(Wrap(Flat(chunk)))
  {
    FlatHasWords(chunk);
    FlatIsUnbroken(chunk);
    WrapIsUnbroken(Flat(chunk));
    WrappedWords(Flat(chunk));
  }

  /** The lines of a re-wrapped bullet: none starts or ends in white space behind its indent, and none
      had room for the first token of the next. */
  predicate Settled(lines: seq<string>) {
    Tidy(lines, true) && Full(lines)
  }

  /** Re-wrapping a bullet a second time changes nothing exactly when the first pass left settled
      lines. */
  lemma RewrappingIsStableIff(chunk: string)
    requires IsBullet(chunk)
    ensures Rewrapped(Rewrapped(chunk)) == Rewrapped(chunk) <==> Settled(Wrap(Flat(chunk)))
  {
    var again := Rewrapped(chunk);
    RewrappedOpens(chunk);
    FlattenedAgain(chunk);
    RewrappedText(chunk);
    RewrappedText(again);
    JoinedLinesDiffer(Wrap(Flat(again)), Wrap(Flat(chunk)), Trailing(chunk));
    FlatHasWords(chunk);
    WrappingAgain(Flat(chunk));
  }

  predicate Stable(chunk: string) {
    IsBullet(chunk) ==> Settled(Wrap(Flat(chunk)))
  }

  lemma ProcessIsStableIff(chunk: string)
    ensures Process(Process(chunk)) == Process(chunk) <==> Stable(chunk)
  {
    if IsBullet(chunk) {
      RewrappingIsStableIff(chunk);
      RewrappedOpens(chunk);
    }
  }

  lemma {:induction false} ProcessAllIsStableIff(chunks: seq<string>)
    ensures ProcessAll(ProcessAll(chunks)) == ProcessAll(chunks) <==> forall chunk | chunk in chunks :: Stable(chunk)
  {
    if chunks != [] {
      var head, tail := chunks[0], chunks[1..];
      assert head in chunks && forall chunk | chunk in tail :: chunk in chunks;
      assert forall chunk | chunk in chunks :: chunk == head || chunk in tail;
      ProcessIsStableIff(head);
      ProcessAllIsStableIff(tail);
      ProcessTwice(head, tail);
    }
  }

  lemma ProcessTwice(head: string, tail: seq<string>)
    ensures ProcessAll(ProcessAll([head] + tail)) == ProcessAll([head] + tail)
       <==> Process(Process(head)) == Process(head) && ProcessAll(ProcessAll(tail)) == ProcessAll(tail)
  {
    var once := [Process(head)] + ProcessAll(tail);
    assert ([head] + tail)[1..] == tail && once[1..] == ProcessAll(tail);
    var twice := [Process(Process(head))] + ProcessAll(ProcessAll(tail));
    assert twice[1..] == ProcessAll(ProcessAll(tail)) && twice[0] == Process(Process(head));
  }

  /** For every text: re-flowing a second time changes nothing exactly when the first pass left settled
      lines in every bullet. */
  lemma ReflowIsIdempotentIff(text: string)
    ensures Reflow(Reflow(text)) == Reflow(text)
       <==> forall chunk | chunk in Chunks(text, true) && IsBullet(chunk) :: Settled(Wrap(Flat(chunk)))
  {
    var chunks := Chunks(text, true);
    ReflowedChunks(text);
    ReflowedChunks(Reflow(text));
    ProcessAllIsStableIff(chunks);
    assert (forall chunk | chunk in chunks :: Stable(chunk))
      == (forall chunk | chunk in chunks && IsBullet(chunk) :: Settled(Wrap(Flat(chunk))));
  }

  lemma SingleSpacedIsStable(chunk: string)
    requires IsBullet(chunk) && SingleSpaced(chunk)
    ensures Settled(Wrap(Flat(chunk)))
  {
    var ws := Words(Flat(chunk));
    FlatHasWords(chunk);
    WordsAreWords(Flat(chunk));
    SpacedHasOnlySpaces(ws);
    CutLinesAreTidy(Flat(chunk));
    WrapIsGreedy(ws);
    GreedyIsFull(Wrap(Flat(chunk)), ws, true);
  }

  /** In particular re-flowing is idempotent on texts whose bullets are single-spaced. */
  lemma ReflowIsIdempotent(text: string)
    requires forall chunk | chunk in Chunks(text, true) && IsBullet(chunk) :: SingleSpaced(chunk)
    ensures Reflow(Reflow(text)) == Reflow(text)
  {
    forall chunk | chunk in Chunks(text, true) && IsBullet(chunk)
      ensures Settled(Wrap(Flat(chunk)))
    {
      SingleSpacedIsStable(chunk);
    }
    ReflowIsIdempotentIff(text);
  }

  /** White space at which wrapping or line splitting cuts. */
  predicate IsUsualSpace(c: char) {
    IsWrapSpace(c) || IsLineBreak(c)
  }

  /** The lines of a bullet with only usual white space are tidy, so fullness alone decides. */
  lemma UsualSpaceIsTidy(chunk: string)
    requires forall c | c in chunk && IsSpace(c) :: IsUsualSpace(c)
    ensures Tidy(Wrap(Flat(chunk)), true)
  {
    var text, flat := WithoutTrailingNewlines(chunk), Flattened(chunk);
    TrimmedWithin(chunk);
    SplitLinesWithin(text, chunk);
    KeptWithin(SplitLines(text), chunk);
    SpacedWithin(Kept(SplitLines(text)), chunk);
    FlatIsUnbroken(chunk);
    forall c | c in Flat(chunk) && IsSpace(c)
      ensures IsWrapSpace(c)
    {
      assert c in flat;
    }
    CutLinesAreTidy(Flat(chunk));
  }

  // ----- An unstable bullet

  /** Two words and a gap that breaks between them: the first word and the gap fit, the second word
      does not fit behind them. */
  predicate BreaksAtGap(a: string, gap: string, b: string) {
    && IsWord(a) && IsGap(gap) && IsWord(b)
    && |a| + |gap| <= ROOM < |a| + |gap| + |b| && |b| <= ROOM
  }

  lemma GapTokens(a: string, gap: string, b: string)
    requires BreaksAtGap(a, gap, b)
    ensures PlainText(a + (gap + b)) && Tokens(Munge(a + (gap + b), 0)) == [a, gap, b]
  {
    var tokens := [a, gap, b];
    PlainTokenKinds(a);
    PlainTokenKinds(gap);
    PlainTokenKinds(b);
    assert tokens[1..] == [gap, b] && [gap, b][1..] == [b] && [b][1..] == [];
    assert Concat([b]) == b + "" == b && Concat([gap, b]) == gap + Concat([b]);
    assert Concat(tokens) == a + Concat([gap, b]);
    TokensOfPlain(tokens);
    PlainTokensArePlainText(tokens);
    MungeIsIdle(a + (gap + b), 0);
  }

  lemma FirstLineAtGap(a: string, gap: string, b: string)
    requires BreaksAtGap(a, gap, b)
    ensures Line([a, gap, b], true) == [a] && Left([a, gap, b], true) == [b]
  {
    var tokens := [a, gap, b];
    PlainTokenKinds(gap);
    assert tokens[1..] == [gap, b] && [gap, b][1..] == [b];
    assert Fit([b], ROOM - |a| - |gap|) == 0;
    assert Fit([gap, b], ROOM - |a|) == 1;
    assert Taken(tokens) == 2;
    assert tokens[..2] == [a, gap] && tokens[2..] == [b] && [a, gap][..1] == [a];
  }

  lemma LastLineAtGap(b: string)
    requires IsWord(b) && |b| <= ROOM
    ensures Line([b], false) == [b] && Left([b], false) == []
  {
    PlainTokenKinds(b);
    assert [b][1..] == [];
    assert Taken([b]) == 1 && [b][..1] == [b];
  }

  /** The first pass breaks at the gap. */
  lemma LinesAtGap(a: string, gap: string, b: string)
    requires BreaksAtGap(a, gap, b)
    ensures Wrap(a + (gap + b)) == ["* " + a, "  " + b]
  {
    GapTokens(a, gap, b);
    FirstLineAtGap(a, gap, b);
    LastLineAtGap(b);
    assert [a][1..] == [] && [b][1..] == [];
    assert Concat([a]) == a && Concat([b]) == b;
    assert WrapFrom([b], false) == ["  " + b] + [];
  }

  function GapBullet(a: string, gap: string, b: string): string {
    "* " + (a + (gap + b)) + "\n"
  }

  lemma WordIsUnbroken(w: string)
    requires IsWord(w) || IsGap(w)
    ensures Unbroken(w)
  {
    forall c | c in w
      ensures !IsLineBreak(c)
    {
      assert IsLineBreak(c) ==> IsSpace(c) && c != ' ';
    }
  }

  lemma GapLineIsUnbroken(a: string, gap: string, b: string)
    requires BreaksAtGap(a, gap, b)
    ensures Unbroken("* " + (a + (gap + b)))
  {
    WordIsUnbroken(a);
    WordIsUnbroken(gap);
    WordIsUnbroken(b);
    UnbrokenConcat(gap, b);
    UnbrokenConcat(a, gap + b);
    UnbrokenConcat("* ", a + (gap + b));
  }

  /** One line without white space at its end flattens to itself. */
  lemma OneLineFlattens(line: string)
    requires StartsWord(line) && EndsWord(line) && Unbroken(line)
    ensures Flattened(line + "\n") == line
  {
    TrimOfTrailing(line, "\n");
    SplitOfOne(line);
    FlattenedFrom(line, "\n", [line]);
    StripOfTight(line);
    KeptOfCons(line, []);
    assert [line] + [] == [line] && Kept([line]) == [line];
  }

  lemma GapBulletIsFlat(a: string, gap: string, b: string)
    requires BreaksAtGap(a, gap, b)
    ensures Flat(GapBullet(a, gap, b)) == a + (gap + b)
  {
    var line := "* " + (a + (gap + b));
    WordEdges(b);
    assert line[|line| - 1] == b[|b| - 1];
    GapLineIsUnbroken(a, gap, b);
    OneLineFlattens(line);
    assert line[2..] == a + (gap + b);
  }

  lemma OneLineIsChunk(line: string)
    requires IsBullet(line) && Unbroken(line)
    ensures Chunks(line + "\n", true) == ["", line + "\n"]
  {
    var text := line + "\n";
    assert text == line + ("\n" + "");
    BulletLineOpens(line, "");
    var chunks := ["", text];
    assert chunks[1..] == [text] && Concat(chunks[1..]) == text + Concat(chunks[1..][1..]);
    ChunksOfTiled(chunks);
    assert Concat(chunks) == text;
  }

  lemma OneBulletIsStableIff(line: string)
    requires IsBullet(line) && Unbroken(line)
    ensures Reflow(Reflow(line + "\n")) == Reflow(line + "\n") <==> Settled(Wrap(Flat(line + "\n")))
  {
    var text := line + "\n";
    OneLineIsChunk(line);
    assert ["", text][1] == text && !IsBullet("");
    assert forall chunk | chunk in ["", text] && IsBullet(chunk) :: chunk == text;
    ReflowIsIdempotentIff(text);
  }

  lemma TidyAtGap(a: string, b: string)
    requires IsWord(a) && IsWord(b)
    ensures Tidy(["* " + a, "  " + b], true)
  {
    WordEdges(a);
    WordEdges(b);
    var first, second := "* " + a, "  " + b;
    assert EndsWord(first) && EndsWord(second) && second[2] == b[0];
    assert [first, second][1..] == [second];
  }

  lemma FullAtGap(a: string, b: string)
    requires IsWord(b)
    ensures Full(["* " + a, "  " + b]) <==> |a| + 1 + |b| > ROOM
  {
    WordEdges(b);
    TokensOfWord(b, "");
    assert b + "" == b && ("  " + b)[2..] == b;
    FullOfCons("* " + a, ["  " + b]);
    assert ["* " + a] + ["  " + b] == ["* " + a, "  " + b];
  }

  /** A bullet of two words that breaks at the gap between them is re-flowed differently the second
      time exactly when the words fit on one line with a single space. */
  lemma GapDecides(a: string, gap: string, b: string)
    requires BreaksAtGap(a, gap, b)
    ensures Reflow(Reflow(GapBullet(a, gap, b))) != Reflow(GapBullet(a, gap, b)) <==> |a| + 1 + |b| <= ROOM
  {
    var line := "* " + (a + (gap + b));
    GapTokens(a, gap, b);
    GapBulletIsFlat(a, gap, b);
    GapLineIsUnbroken(a, gap, b);
    OneBulletIsStableIff(line);
    LinesAtGap(a, gap, b);
    TidyAtGap(a, b);
    FullAtGap(a, b);
  }

  /** 44 and 45 letters with two spaces between them make two lines, and then one. */
  lemma ReflowIsNotIdempotent()
    ensures var text := GapBullet(seq(44, _ => 'a'), "  ", seq(45, _ => 'b'));
      Reflow(Reflow(text)) != Reflow(text)
  {
    GapDecides(seq(44, _ => 'a'), "  ", seq(45, _ => 'b'));
  }
}
