/** What re-flowing a header does to its structure, in terms of lines alone: where a line starts with
    `## `, `### ` or `* `, and what stands between such lines. */
module HeaderOutline {
  import opened TextLines
  import opened TextWords
  import opened TextWrap
  import opened HeaderReflow
  import opened ReflowAgain

  predicate HeadingLine(s: string) {
    "## " <= s || "### " <= s
  }

  predicate BulletLine(s: string) {
    "* " <= s
  }

  /** A line, or a text whose first line it is, that starts a section. */
  predicate StartsSection(s: string) {
    HeadingLine(s) || BulletLine(s)
  }

  // ----- The outline

  /** A heading stands for itself, a bullet for its marker. */
  function OutlineOf(line: string): seq<string> {
    if HeadingLine(line) then [line] else if BulletLine(line) then ["* "] else []
  }

  /** The headings and bullets of some lines, in order. */
  function Outline(lines: seq<string>): seq<string> {
    if lines == [] then [] else OutlineOf(lines[0]) + Outline(lines[1..])
  }

  lemma OutlineOfCons(line: string, lines: seq<string>)
    ensures Outline([line] + lines) == OutlineOf(line) + Outline(lines)
  {
    assert ([line] + lines)[1..] == lines;
  }

  /** The entries of the chunks' first lines. */
  function Starts(chunks: seq<string>): seq<string> {
    if chunks == [] then [] else OutlineOf(Lines(chunks[0])[0]) + Starts(chunks[1..])
  }

  lemma StartsOfCons(chunk: string, chunks: seq<string>)
    ensures Starts([chunk] + chunks) == OutlineOf(Lines(chunk)[0]) + Starts(chunks)
  {
    assert ([chunk] + chunks)[1..] == chunks;
  }

  /** A text starts a section exactly when its first line does. */
  lemma FirstLineStarts(text: string)
    ensures HeadingLine(text) <==> HeadingLine(Lines(text)[0])
    ensures BulletLine(text) <==> BulletLine(Lines(text)[0])
  {
    FirstLineStartsWith(text, "## ");
    FirstLineStartsWith(text, "### ");
    FirstLineStartsWith(text, "* ");
  }

  lemma MarkerStarts(text: string)
    ensures Marker(text) <==> OutlineOf(Lines(text)[0]) != []
  {
    FirstLineStarts(text);
  }

  /** The lines that begin in the text, its first one only if the text begins a line. */
  function Begun(text: string, bol: bool): seq<string> {
    if bol then Lines(text) else Lines(text)[1..]
  }

  lemma FirstChunkOf(text: string, chunks: seq<string>)
    requires text != "" && chunks == Chunks(text[1..], text[0] == '\n')
    ensures text == ([text[0]] + chunks[0]) + Concat(chunks[1..])
    ensures chunks[1..] != [] ==> Ended([text[0]] + chunks[0])
  {
    ChunksTile(text[1..], text[0] == '\n');
    FirstOfTiled(text[0], chunks);
    assert text == [text[0]] + text[1..] && text[1..] == chunks[0] + Concat(chunks[1..]);
  }

  lemma FirstLineIsLocal(first: string, rest: string)
    requires rest == "" || Ended(first)
    ensures Lines(first + rest)[0] == Lines(first)[0]
  {
    if rest == "" {
      assert first + rest == first;
    } else {
      var line := first[..|first| - 1];
      assert first == line + ("\n" + "") && first + rest == line + ("\n" + rest);
      LinesOfJoined(line, "");
      LinesOfJoined(line, rest);
    }
  }

  lemma FirstLineIsFirstChunk(text: string)
    requires text != "" && text[0] != '\n'
    ensures Lines([text[0]] + Chunks(text[1..], false)[0])[0] == Lines(text)[0]
  {
    var chunks := Chunks(text[1..], false);
    FirstChunkOf(text, chunks);
    assert chunks[1..] == [] ==> Concat(chunks[1..]) == "";
    FirstLineIsLocal([text[0]] + chunks[0], Concat(chunks[1..]));
  }

  lemma LineStartsChunk(text: string)
    requires text != "" && text[0] != '\n'
    requires Outline(Lines(text[1..])[1..]) == Starts(Chunks(text[1..], false)[1..])
    ensures Outline(Lines(text)) == Starts(Chunks(text, true)[1..])
  {
    var lines, chunks := Lines(text[1..])[1..], Chunks(text[1..], false);
    var line, first := Lines(text)[0], [text[0]] + chunks[0];
    assert Lines(text) == [line] + lines;
    FirstLineIsFirstChunk(text);
    OutlineOfCons(line, lines);
    MarkerStarts(text);
    if Marker(text) {
      StartsOfCons(first, chunks[1..]);
      assert ([""] + ([first] + chunks[1..]))[1..] == [first] + chunks[1..];
    } else {
      assert [] + Outline(lines) == Outline(lines);
      assert ([first] + chunks[1..])[1..] == chunks[1..];
    }
  }

  /** The outline of a text is that of its chunks. */
  lemma {:induction false} OutlineStartsChunks(text: string, bol: bool)
    ensures Outline(Begun(text, bol)) == Starts(Chunks(text, bol)[1..])
    decreases |text|
  {
    if text == "" {
      assert [""][1..] == [] && Outline([""]) == [] + Outline([]);
    } else {
      var c, rest := text[0], text[1..];
      OutlineStartsChunks(rest, c == '\n');
      if c == '\n' {
        assert Lines(text) == [""] + Lines(rest) && !Marker(text);
        OutlineOfCons("", Lines(rest));
        assert [] + Outline(Lines(rest)) == Outline(Lines(rest));
      } else if bol {
        LineStartsChunk(text);
      }
    }
  }

  lemma ProcessKeepsOutline(chunk: string)
    ensures OutlineOf(Lines(Process(chunk))[0]) == OutlineOf(Lines(chunk)[0])
  {
    if IsBullet(chunk) {
      RewrappedOpens(chunk);
      FirstLineStarts(chunk);
      FirstLineStarts(Rewrapped(chunk));
    }
  }

  lemma {:induction false} ProcessAllKeepsStarts(chunks: seq<string>)
    ensures Starts(ProcessAll(chunks)) == Starts(chunks)
  {
    if chunks != [] {
      ProcessKeepsOutline(chunks[0]);
      ProcessAllKeepsStarts(chunks[1..]);
      StartsOfCons(Process(chunks[0]), ProcessAll(chunks[1..]));
    }
  }

  /** For every text: re-flowing keeps its headings as they are and in place between the bullets, and
      makes or loses no line that starts as a bullet. */
  lemma OutlineSurvives(text: string)
    ensures Outline(Lines(Reflow(text))) == Outline(Lines(text))
  {
    var chunks := Chunks(text, true);
    OutlineStartsChunks(text, true);
    OutlineStartsChunks(Reflow(text), true);
    ReflowedChunks(text);
    assert ProcessAll(chunks)[1..] == ProcessAll(chunks[1..]);
    ProcessAllKeepsStarts(chunks[1..]);
  }

  // ----- Sections

  predicate EndsLine(text: string) {
    text == "" || text[|text| - 1] == '\n'
  }

  lemma {:induction false} ConcatChunks(a: seq<string>, b: seq<string>)
    ensures Concat(a + b) == Concat(a) + Concat(b)
  {
    if a == [] {
      assert a + b == b;
    } else {
      assert (a + b)[1..] == a[1..] + b;
      ConcatChunks(a[1..], b);
      assert a[0] + (Concat(a[1..]) + Concat(b)) == (a[0] + Concat(a[1..])) + Concat(b);
    }
  }

  lemma {:induction false} ProcessAllConcat(a: seq<string>, b: seq<string>)
    ensures ProcessAll(a + b) == ProcessAll(a) + ProcessAll(b)
  {
    if a == [] {
      assert a + b == b;
    } else {
      assert (a + b)[1..] == a[1..] + b;
      ProcessAllConcat(a[1..], b);
    }
  }

  lemma {:induction false} LastChunkEnds(chunks: seq<string>)
    requires chunks != [] && chunks[|chunks| - 1] != "" && EndsLine(Concat(chunks))
    ensures Ended(chunks[|chunks| - 1])
  {
    if |chunks| == 1 {
      assert Concat(chunks) == chunks[0] + "";
    } else {
      LastChunkEnds(chunks[1..]);
    }
  }

  lemma TailConcat(a: seq<string>, b: seq<string>)
    requires Tail(a) && Tail(b) && (a != [] && b != [] ==> Ended(a[|a| - 1]))
    ensures Tail(a + b)
  {
    var all := a + b;
    forall i | 0 <= i < |all|
      ensures Opens(all[i]) && (i < |all| - 1 ==> Ended(all[i]))
    {
      assert i < |a| ==> all[i] == a[i];
      assert i >= |a| ==> all[i] == b[i - |a|];
    }
  }

  lemma TiledConcat(a: seq<string>, b: seq<string>)
    requires Tiled(a, true) && EndsLine(Concat(a)) && Tail(b)
    ensures Tiled(a + b, true)
  {
    TiledEnds(a);
    TailConcat(a[1..], b);
    assert (a + b)[1..] == a[1..] + b && (a + b)[0] == a[0];
  }

  /** The last chunk of a text that ends in a newline does too, unless it is the empty first one. */
  lemma TiledEnds(a: seq<string>)
    requires Tiled(a, true) && EndsLine(Concat(a))
    ensures a[1..] != [] ==> Ended(a[1..][|a[1..]| - 1])
    ensures a[1..] == [] ==> a[0] == "" || Ended(a[0])
  {
    if |a| > 1 {
      assert a[|a| - 1] == a[1..][|a| - 2] && Opens(a[1..][|a| - 2]);
      LastChunkEnds(a);
    } else {
      ConcatOfOne(a[0]);
      assert a == [a[0]];
    }
  }

  /** A text that starts a section has an empty first chunk. */
  lemma SectionChunks(text: string)
    requires StartsSection(text)
    ensures Chunks(text, true)[0] == "" && Concat(Chunks(text, true)[1..]) == text
    ensures Tail(Chunks(text, true)[1..])
  {
    var chunks := Chunks(text, true);
    ChunksTile(text, true);
    assert Marker(text);
    assert chunks == [""] + chunks[1..];
    ConcatOfTail("", chunks[1..]);
  }

  lemma ChunksOfSections(a: string, b: string)
    requires EndsLine(a) && StartsSection(b)
    ensures Chunks(a + b, true) == Chunks(a, true) + Chunks(b, true)[1..]
  {
    var first, second := Chunks(a, true), Chunks(b, true)[1..];
    ChunksTile(a, true);
    SectionChunks(b);
    TiledConcat(first, second);
    ConcatChunks(first, second);
    ChunksOfTiled(first + second);
  }

  lemma ProcessedConcat(a: seq<string>, b: seq<string>)
    ensures Concat(ProcessAll(a + b)) == Concat(ProcessAll(a)) + Concat(ProcessAll(b))
  {
    ProcessAllConcat(a, b);
    ConcatChunks(ProcessAll(a), ProcessAll(b));
  }

  lemma ConcatOfOne(chunk: string)
    ensures Concat([chunk]) == chunk
  {
    ConcatOfTail(chunk, []);
    assert [chunk] + [] == [chunk];
  }

  lemma ProcessedOne(chunk: string)
    ensures Concat(ProcessAll([chunk])) == Process(chunk)
  {
    assert ProcessAll([chunk]) == [Process(chunk)] + [];
    ConcatOfOne(Process(chunk));
  }

  lemma ProcessedBehindNothing(chunks: seq<string>)
    ensures Concat(ProcessAll([""] + chunks)) == Concat(ProcessAll(chunks))
  {
    ProcessedConcat([""], chunks);
    ProcessedOne("");
    assert Process("") == "" && "" + Concat(ProcessAll(chunks)) == Concat(ProcessAll(chunks));
  }

  /** Sections are re-flowed one by one: a text cut anywhere in front of a line that starts a section
      is re-flowed in the two pieces. */
  lemma ReflowOfSections(a: string, b: string)
    requires EndsLine(a) && StartsSection(b)
    ensures Reflow(a + b) == Reflow(a) + Reflow(b)
  {
    var second := Chunks(b, true);
    ChunksOfSections(a, b);
    ProcessedConcat(Chunks(a, true), second[1..]);
    SectionChunks(b);
    ProcessedBehindNothing(second[1..]);
    assert second == [""] + second[1..];
  }

  /** No line but perhaps the first starts a section. */
  predicate OneSection(text: string) {
    forall line | line in Lines(text)[1..] :: !StartsSection(line)
  }

  lemma {:induction false} NoEntries(lines: seq<string>)
    requires forall line | line in lines :: !StartsSection(line)
    ensures Outline(lines) == []
  {
    if lines != [] {
      assert lines[0] in lines;
      NoEntries(lines[1..]);
    }
  }

  /** Every chunk behind the first contributes an entry. */
  lemma {:induction false} StartsCount(chunks: seq<string>)
    requires forall chunk | chunk in chunks :: Marker(chunk)
    ensures |Starts(chunks)| == |chunks|
  {
    if chunks != [] {
      assert chunks[0] in chunks;
      MarkerStarts(chunks[0]);
      StartsCount(chunks[1..]);
    }
  }

  /** So the number of chunks behind the first is the number of entries. */
  lemma SectionCount(text: string)
    requires OneSection(text)
    ensures |Chunks(text, true)| == if StartsSection(text) then 2 else 1
  {
    var lines, chunks := Lines(text), Chunks(text, true);
    ChunksTile(text, true);
    OutlineStartsChunks(text, true);
    assert lines == [lines[0]] + lines[1..];
    OutlineOfCons(lines[0], lines[1..]);
    NoEntries(lines[1..]);
    FirstLineStarts(text);
    StartsCount(chunks[1..]);
  }

  lemma OnlyChunk(chunks: seq<string>, text: string)
    requires |chunks| == 1 && Concat(chunks) == text
    ensures chunks == [text]
  {
    ConcatOfOne(chunks[0]);
    assert [chunks[0]] == chunks;
  }

  lemma SectionIsChunk(text: string)
    requires OneSection(text)
    ensures Chunks(text, true) == if StartsSection(text) then ["", text] else [text]
  {
    var chunks := Chunks(text, true);
    SectionCount(text);
    ChunksTile(text, true);
    if StartsSection(text) {
      SectionChunks(text);
      OnlyChunk(chunks[1..], text);
      assert chunks == [""] + chunks[1..];
    } else {
      OnlyChunk(chunks, text);
    }
  }

  lemma SectionIsProcessed(text: string)
    requires OneSection(text)
    ensures Reflow(text) == Process(text)
  {
    SectionIsChunk(text);
    ProcessedOne(text);
    if StartsSection(text) {
      ProcessedBehindNothing([text]);
      assert [""] + [text] == ["", text];
    }
  }

  /** A section under a heading, and a text before any section, stand as they are. */
  lemma HeadingSectionStands(text: string)
    requires OneSection(text) && !BulletLine(text)
    ensures Reflow(text) == text
  {
    SectionIsProcessed(text);
  }

  /** Wherever it stands, the text from a heading line up to the next line that starts a section comes
      out unchanged between what stands before and after it. */
  lemma HeadingSectionIsKept(before: string, section: string, after: string)
    requires EndsLine(before) && HeadingLine(section) && OneSection(section)
    requires after == "" || (EndsLine(section) && StartsSection(after))
    ensures Reflow(before + (section + after)) == Reflow(before) + (section + Reflow(after))
  {
    assert section[0] == '#';
    HeadingSectionStands(section);
    if after == "" {
      assert section + after == section && section + Reflow("") == section by { EmptyReflows(); }
      ReflowOfSections(before, section);
    } else {
      ReflowOfSections(section, after);
      assert StartsSection(section + after);
      ReflowOfSections(before, section + after);
    }
  }

  lemma EmptyReflows()
    ensures Reflow("") == ""
  {
    assert Lines("")[1..] == [];
    HeadingSectionStands("");
  }

  /** A bullet's section comes out as the re-wrapped bullet, and keeps whether a blank line follows. */
  lemma BulletSectionIsRewrapped(text: string)
    requires BulletLine(text) && OneSection(text)
    ensures Reflow(text) == Rewrapped(text)
    ensures EndsLine(Reflow(text)) && (EndsWith(Reflow(text), "\n\n") <==> EndsWith(text, "\n\n"))
  {
    SectionIsProcessed(text);
    RewrappedEnds(text);
  }

  lemma RewrappedEnds(chunk: string)
    requires IsBullet(chunk)
    ensures EndsLine(Rewrapped(chunk)) && (EndsWith(Rewrapped(chunk), "\n\n") <==> EndsWith(chunk, "\n\n"))
  {
    RewrappedText(chunk);
    var lines := Wrap(Flat(chunk));
    LinesAreIndented(Tokens(Munge(Flat(chunk), 0)), true);
    JoinEndsInNoBreak(lines);
    var text := Join(lines);
    if EndsWith(chunk, "\n\n") {
      assert (text + "\n\n")[|text|..] == "\n\n";
    } else {
      assert (text + "\n")[|text| - 1] == text[|text| - 1];
    }
  }

  lemma RewrappedLines(chunk: string)
    requires IsBullet(chunk)
    ensures var lines := Wrap(Flat(chunk));
      lines != [] && Lines(Rewrapped(chunk)) == lines + Lines(Trailing(chunk)[1..])
  {
    var lines, trailing := Wrap(Flat(chunk)), Trailing(chunk);
    RewrappedText(chunk);
    LinesOfJoin(lines);
    assert Join(lines) + trailing == Join(lines) + ("\n" + trailing[1..]);
    LinesOfJoined(Join(lines), trailing[1..]);
  }

  /** In a bullet's section the first line keeps the marker, and every other line that is not blank is
      indented by two spaces. */
  lemma BulletSectionIsIndented(text: string)
    requires BulletLine(text) && OneSection(text)
    ensures var lines := Lines(Reflow(text));
      BulletLine(lines[0]) && forall line | line in lines[1..] :: line == "" || "  " <= line
  {
    var wrapped, blank := Wrap(Flat(text)), Lines(Trailing(text)[1..]);
    SectionIsProcessed(text);
    RewrappedLines(text);
    LinesAreIndented(Tokens(Munge(Flat(text), 0)), true);
    LinesOfTrailing(Trailing(text));
    assert (wrapped + blank)[1..] == wrapped[1..] + blank;
    forall line | line in wrapped[1..]
      ensures "  " <= line
    {
      var i :| 0 <= i < |wrapped[1..]| && wrapped[1..][i] == line;
      assert wrapped[i + 1] == line;
    }
  }
}
