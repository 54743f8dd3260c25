/** Re-wrapping the bullets of the handover header. */
module HeaderReflow {
  import opened TextLines
  import opened TextWords
  import opened TextWrap

  // ----- Bullets and headings start chunks

  predicate Marker(s: string) {
    "* " <= s || "## " <= s || "### " <= s
  }

  /** The text cut in front of every marker at the beginning of a line; `bol` says whether the text
      itself begins a line. */
  function Chunks(text: string, bol: bool): (chunks: seq<string>)
    ensures chunks != []
  {
    if text == "" then [""]
    else
      var rest := Chunks(text[1..], text[0] == '\n');
      var joined := [[text[0]] + rest[0]] + rest[1..];
      if bol && Marker(text) then [""] + joined else joined
  }

  // ----- One chunk

  predicate IsBullet(chunk: string) {
    "* " <= chunk
  }

  function Flattened(chunk: string): string {
    Spaced(Kept(SplitLines(WithoutTrailingNewlines(chunk))))
  }

  function WithoutBullet(flat: string): string {
    if "* " <= flat then flat[2..] else flat
  }

  /** The text of a bullet, on one line and without its marker. */
  function Flat(chunk: string): string {
    WithoutBullet(Flattened(chunk))
  }

  function Trailing(chunk: string): string {
    if EndsWith(chunk, "\n\n") then "\n\n" else "\n"
  }

  function Rewrapped(chunk: string): string {
    Join(Wrap(Flat(chunk))) + Trailing(chunk)
  }

  function Process(chunk: string): string {
    if IsBullet(chunk) then Rewrapped(chunk) else chunk
  }

  function ProcessAll(chunks: seq<string>): (all: seq<string>)
    ensures |all| == |chunks|
  {
    if chunks == [] then [] else [Process(chunks[0])] + ProcessAll(chunks[1..])
  }

  function Reflow(text: string): string {
    Concat(ProcessAll(Chunks(text, true)))
  }

  lemma {:induction false} ProcessAllOfSnoc(chunks: seq<string>, chunk: string)
    ensures ProcessAll(chunks + [chunk]) == ProcessAll(chunks) + [Process(chunk)]
  {
    if chunks == [] {
      assert chunks + [chunk] == [chunk];
    } else {
      assert (chunks + [chunk])[1..] == chunks[1..] + [chunk];
      ProcessAllOfSnoc(chunks[1..], chunk);
    }
  }

  method ReflowHeader(text: string) returns (result: string)
    ensures result == Reflow(text)
  {
    var out: seq<string> := [];
    var chunks := Chunks(text, true);
    for i := 0 to |chunks|
      invariant out == ProcessAll(chunks[..i])
    {
      var chunk := chunks[i];
      assert chunks[..i + 1] == chunks[..i] + [chunk];
      ProcessAllOfSnoc(chunks[..i], chunk);
      if !("* " <= chunk) {
        out := out + [chunk];
        continue;
      }
      var trailing := Trailing(chunk);
      var flat := Flattened(chunk);
      if "* " <= flat {
        flat := flat[2..];
      }
      out := out + [Join(Wrap(flat)) + trailing];
    }
    assert chunks[..|chunks|] == chunks;
    result := Concat(out);
  }

  // ----- The words of one chunk

  lemma {:induction false} BulletSurvivesTrim(chunk: string)
    requires IsBullet(chunk)
    ensures IsBullet(WithoutTrailingNewlines(chunk))
  {
    if chunk[|chunk| - 1] == '\n' {
      BulletSurvivesTrim(chunk[..|chunk| - 1]);
    }
  }

  lemma {:induction false} StripOfBullet(line: string)
    requires IsBullet(line)
    ensures Strip(line) == "*" || IsBullet(Strip(line))
  {
    if IsSpace(line[|line| - 1]) {
      if |line| == 2 {
        assert line[..1] == "*";
      } else {
        StripOfBullet(line[..|line| - 1]);
      }
    }
  }

  lemma {:induction false} KeptEndInWords(parts: seq<string>)
    ensures forall part | part in Kept(parts) :: StartsWord(part) && EndsWord(part)
  {
    if parts != [] {
      StripEnds(parts[0]);
      KeptEndInWords(parts[1..]);
    }
  }

  lemma {:induction false} SpacedEndsInWord(parts: seq<string>)
    requires parts != [] && forall part | part in parts :: EndsWord(part)
    ensures EndsWord(Spaced(parts))
  {
    if |parts| == 1 {
      assert parts[0] in parts;
    } else {
      SpacedEndsInWord(parts[1..]);
    }
  }

  /** A flattened bullet keeps its words and starts with the bullet. */
  lemma FlattenedBullet(chunk: string)
    requires IsBullet(chunk)
    ensures Words(Flattened(chunk)) == Words(chunk) && EndsWord(Flattened(chunk))
    ensures Flattened(chunk) == "*" || IsBullet(Flattened(chunk))
  {
    var text := WithoutTrailingNewlines(chunk);
    var lines := SplitLines(text);
    var parts := Kept(lines);
    BulletSurvivesTrim(chunk);
    FirstLineIsBullet(text);
    StripOfBullet(lines[0]);
    assert parts == [Strip(lines[0])] + Kept(lines[1..]);
    KeptEndInWords(lines);
    SpacedEndsInWord(parts);
    WordsWithoutTrailingNewlines(chunk);
    WordsOfSplitLines(text);
    WordsOfKept(lines);
    WordsOfSpaced(parts);
    BulletOfSpaced(parts);
  }

  lemma FirstLineIsBullet(text: string)
    requires IsBullet(text)
    ensures SplitLines(text) != [] && IsBullet(SplitLines(text)[0])
  {
    var rest := SplitLines(text[1..]);
    assert rest[0] != "" && rest[0][0] == ' ';
    assert SplitLines(text)[0] == [text[0]] + rest[0];
  }

  lemma BulletOfSpaced(parts: seq<string>)
    requires parts != [] && (parts[0] == "*" || IsBullet(parts[0]))
    ensures Spaced(parts) == "*" || IsBullet(Spaced(parts))
  {
  }

  /** A bullet with nothing behind its marker. */
  predicate Bare(chunk: string) {
    IsBullet(chunk) && |Words(chunk)| == 1
  }

  lemma WordsOfTrailing(text: string, chunk: string)
    ensures Words(text + Trailing(chunk)) == Words(text)
  {
    NoWords(Trailing(chunk));
    WordsConcat(text, Trailing(chunk));
    assert Words(text) + [] == Words(text);
  }

  lemma BulletAlone()
    ensures Words("*") == ["*"]
  {
    OneWord("*");
  }

  /** The words of a flattened bullet are the marker and the words behind it. */
  lemma WordsBehindBullet(flat: string)
    requires IsBullet(flat) && EndsWord(flat)
    ensures Words(flat) == ["*"] + Words(flat[2..]) && Words(flat[2..]) != []
  {
    assert flat == "*" + ([' '] + flat[2..]);
    WordsBreak("*", ' ', flat[2..]);
    BulletAlone();
    NoWords(flat[2..]);
    assert flat[|flat| - 1] in flat[2..];
  }

  /** Re-wrapping a bullet keeps its words, and doubles the marker of a bare one. */
  lemma BulletWords(chunk: string)
    requires IsBullet(chunk)
    ensures Words(Rewrapped(chunk)) == if Bare(chunk) then ["*", "*"] else Words(chunk)
  {
    var flat := Flattened(chunk);
    FlattenedBullet(chunk);
    BulletAlone();
    if flat == "*" {
      WrappedWords("*");
    } else {
      WordsBehindBullet(flat);
      WrappedWords(flat[2..]);
    }
    WordsOfTrailing(Join(Wrap(WithoutBullet(flat))), chunk);
  }

  // ----- How chunks tile a text

  /** No line that begins in the text, past its start unless `bol`, begins with a marker. */
  predicate NoMarker(s: string, bol: bool) {
    s == "" || (!(bol && Marker(s)) && NoMarker(s[1..], s[0] == '\n'))
  }

  predicate Opens(chunk: string) {
    Marker(chunk) && NoMarker(chunk[1..], false)
  }

  predicate Ended(chunk: string) {
    chunk != "" && chunk[|chunk| - 1] == '\n'
  }

  predicate Tail(chunks: seq<string>) {
    && (forall i | 0 <= i < |chunks| :: Opens(chunks[i]))
    && forall i | 0 <= i < |chunks| - 1 :: Ended(chunks[i])
  }

  predicate Tiled(chunks: seq<string>, bol: bool) {
    && chunks != [] && NoMarker(chunks[0], bol) && Tail(chunks[1..])
    && (|chunks| > 1 ==> Ended(chunks[0]) || (chunks[0] == "" && bol))
  }

  lemma MarkerIsLocal(s: string, rest: string)
    requires s != "" && (rest == "" || Ended(s))
    ensures Marker(s + rest) <==> Marker(s)
  {
    if rest == "" {
      assert s + rest == s;
    } else if |s| < 4 {
      assert (s + rest)[|s| - 1] == '\n';
    }
  }

  lemma {:induction false} ConcatOfTail(first: string, rest: seq<string>)
    ensures Concat([first] + rest) == first + Concat(rest)
  {
    assert ([first] + rest)[1..] == rest;
  }

  lemma LongerFirst(c: char, first: string, others: seq<string>)
    ensures Concat([[c] + first] + others) == [c] + Concat([first] + others)
  {
    ConcatOfTail([c] + first, others);
    ConcatOfTail(first, others);
  }

  lemma MarkerOfFirst(first: string, others: seq<string>)
    requires first != "" && (others != [] ==> Ended(first))
    ensures Marker(first + Concat(others)) <==> Marker(first)
  {
    assert others == [] ==> Concat(others) == "";
    MarkerIsLocal(first, Concat(others));
  }

  lemma TailOfCons(first: string, others: seq<string>)
    requires Opens(first) && Tail(others) && (others != [] ==> Ended(first))
    ensures Tail([first] + others)
  {
    var all := [first] + others;
    forall i | 0 <= i < |all|
      ensures Opens(all[i]) && (i < |all| - 1 ==> Ended(all[i]))
    {
      assert i > 0 ==> all[i] == others[i - 1];
    }
  }

  lemma TileCut(first: string, others: seq<string>)
    requires Marker(first) && NoMarker(first[1..], first[0] == '\n')
    requires Tail(others) && (others != [] ==> Ended(first))
    ensures Tiled([""] + ([first] + others), true)
  {
    TailOfCons(first, others);
    assert ([""] + ([first] + others))[1..] == [first] + others;
  }

  lemma TileGrow(first: string, others: seq<string>, bol: bool)
    requires first != "" && !(bol && Marker(first)) && NoMarker(first[1..], first[0] == '\n')
    requires Tail(others) && (others != [] ==> Ended(first))
    ensures Tiled([first] + others, bol)
  {
    assert ([first] + others)[1..] == others;
  }

  lemma FirstOfTiled(c: char, rest: seq<string>)
    requires Tiled(rest, c == '\n')
    ensures ([c] + rest[0])[1..] == rest[0] && NoMarker(rest[0], c == '\n')
    ensures Tail(rest[1..]) && (rest[1..] != [] ==> Ended([c] + rest[0]))
  {
  }

  /** One more character in front of chunks, and a cut before it if a marker starts there. */
  function Extended(c: char, chunks: seq<string>, cut: bool): seq<string>
    requires chunks != []
  {
    var joined := [[c] + chunks[0]] + chunks[1..];
    if cut then [""] + joined else joined
  }

  lemma ChunksOfCons(c: char, rest: string, bol: bool)
    ensures Chunks([c] + rest, bol) == Extended(c, Chunks(rest, c == '\n'), bol && Marker([c] + rest))
  {
    assert ([c] + rest)[1..] == rest;
  }

  lemma ExtendedHead(c: char, head: string, chunks: seq<string>, cut: bool)
    ensures Extended(c, [head] + chunks, cut) == (if cut then [""] else []) + ([[c] + head] + chunks)
  {
    assert ([head] + chunks)[1..] == chunks;
  }

  lemma Regrouped(s: string, rest: string)
    requires s != ""
    ensures s == [s[0]] + s[1..] && s + rest == [s[0]] + (s[1..] + rest)
  {
  }

  /** One more character keeps the tiling. */
  lemma ExtendedTiles(c: char, chunks: seq<string>, bol: bool)
    requires Tiled(chunks, c == '\n')
    ensures var text := [c] + Concat(chunks);
      var more := Extended(c, chunks, bol && Marker(text));
      Concat(more) == text && Tiled(more, bol)
  {
    var first, others := [c] + chunks[0], chunks[1..];
    var text := [c] + Concat(chunks);
    assert chunks == [chunks[0]] + others;
    LongerFirst(c, chunks[0], others);
    ConcatOfTail(first, others);
    FirstOfTiled(c, chunks);
    MarkerOfFirst(first, others);
    if bol && Marker(text) {
      ConcatOfTail("", [first] + others);
      TileCut(first, others);
    } else {
      TileGrow(first, others, bol);
    }
  }

  /** Cutting loses nothing, and cuts exactly in front of the markers. */
  lemma {:induction false} ChunksTile(text: string, bol: bool)
    ensures Concat(Chunks(text, bol)) == text && Tiled(Chunks(text, bol), bol)
    decreases |text|
  {
    if text == "" {
      assert Concat([""]) == "";
    } else {
      var c, rest := text[0], text[1..];
      assert text == [c] + rest;
      ChunksTile(rest, c == '\n');
      ChunksOfCons(c, rest, bol);
      ExtendedTiles(c, Chunks(rest, c == '\n'), bol);
    }
  }

  lemma TailOfTail(chunks: seq<string>)
    requires chunks != [] && Tail(chunks)
    ensures Tail(chunks[1..]) && Opens(chunks[0]) && (|chunks| > 1 ==> Ended(chunks[0]))
  {
  }

  /** A text without markers, in front of chunks, is cut off whole. */
  lemma {:induction false} CutAfter(first: string, chunks: seq<string>, bol: bool)
    requires NoMarker(first, bol) && Tail(chunks)
    requires chunks != [] ==> Ended(first) || (first == "" && bol)
    ensures Chunks(first + Concat(chunks), bol) == [first] + chunks
    decreases |chunks|, |first| + 1
  {
    var rest := Concat(chunks);
    if first == "" {
      assert first + rest == rest;
      if chunks != [] {
        TailOfTail(chunks);
        CutBefore(chunks);
      }
    } else {
      Regrouped(first, rest);
      assert chunks == [] ==> rest == "";
      MarkerIsLocal(first, rest);
      CutAfter(first[1..], chunks, first[0] == '\n');
      ChunksOfCons(first[0], first[1..] + rest, bol);
      ExtendedHead(first[0], first[1..], chunks, false);
    }
  }

  lemma {:induction false} CutBefore(chunks: seq<string>)
    requires chunks != [] && Tail(chunks)
    ensures Chunks(Concat(chunks), true) == [""] + chunks
    decreases |chunks|, 0
  {
    var head, others := chunks[0], chunks[1..];
    var after := Concat(others);
    TailOfTail(chunks);
    Regrouped(head, after);
    assert others == [] ==> after == "";
    MarkerIsLocal(head, after);
    CutAfter(head[1..], others, false);
    ChunksOfCons(head[0], head[1..] + after, true);
    ExtendedHead(head[0], head[1..], others, true);
    assert [head] + others == chunks;
  }

  /** Chunks that tile are what their text is cut into. */
  lemma ChunksOfTiled(chunks: seq<string>)
    requires Tiled(chunks, true)
    ensures Chunks(Concat(chunks), true) == chunks
  {
    CutAfter(chunks[0], chunks[1..], true);
    assert chunks == [chunks[0]] + chunks[1..];
  }

  // ----- Processing keeps the tiling

  lemma {:induction false} NoMarkerInLine(line: string, rest: string, bol: bool)
    requires Unbroken(line) && NoMarker(rest, true) && !(bol && Marker(line + ("\n" + rest)))
    ensures NoMarker(line + ("\n" + rest), bol)
    decreases |line|
  {
    var text := line + ("\n" + rest);
    if line == "" {
      assert text == "\n" + rest && text[1..] == rest;
    } else {
      assert line == [line[0]] + line[1..] && line[0] in line;
      UnbrokenConcat([line[0]], line[1..]);
      assert text[0] == line[0] && text[1..] == line[1..] + ("\n" + rest);
      NoMarkerInLine(line[1..], rest, false);
    }
  }

  lemma NoMarkerInTrailing(trailing: string)
    requires trailing == "\n" || trailing == "\n\n"
    ensures NoMarker(trailing, false) && NoMarker(trailing[1..], true)
  {
    assert "\n"[1..] == "" && "\n\n"[1..] == "\n";
  }

  lemma IndentedIsUnmarked(line: string, rest: string)
    requires "  " <= line
    ensures !Marker(line + rest)
  {
    assert (line + rest)[0] == ' ';
  }

  /** What follows the first line break after some lines. */
  function AfterLine(others: seq<string>, trailing: string): string
    requires trailing != ""
  {
    if others == [] then trailing[1..] else Join(others) + trailing
  }

  lemma JoinedLines(first: string, others: seq<string>, trailing: string)
    requires trailing != "" && trailing[0] == '\n'
    ensures Join([first] + others) + trailing == first + ("\n" + AfterLine(others, trailing))
  {
    assert trailing == "\n" + trailing[1..];
    if others != [] {
      assert ([first] + others)[1..] == others;
      assert first + ("\n" + Join(others)) + trailing == first + ("\n" + (Join(others) + trailing));
    }
  }

  /** Continuation lines hide their markers behind two spaces. */
  lemma {:induction false} NoMarkerInContinuation(lines: seq<string>, trailing: string)
    requires AllUnbroken(lines) && forall i | 0 <= i < |lines| :: "  " <= lines[i]
    requires trailing == "\n" || trailing == "\n\n"
    ensures NoMarker(AfterLine(lines, trailing), true)
  {
    NoMarkerInTrailing(trailing);
    if lines != [] {
      var first, others := lines[0], lines[1..];
      assert lines == [first] + others;
      AllUnbrokenOfCons(first, others);
      JoinedLines(first, others, trailing);
      NoMarkerInContinuation(others, trailing);
      IndentedIsUnmarked(first, "\n" + AfterLine(others, trailing));
      NoMarkerInLine(first, AfterLine(others, trailing), true);
    }
  }

  lemma BulletLineOpens(first: string, rest: string)
    requires Unbroken(first) && "* " <= first && NoMarker(rest, true)
    ensures Opens(first + ("\n" + rest)) && IsBullet(first + ("\n" + rest))
  {
    var text := first + ("\n" + rest);
    assert first == [first[0]] + first[1..];
    UnbrokenConcat([first[0]], first[1..]);
    NoMarkerInLine(first[1..], rest, false);
    assert text[1..] == first[1..] + ("\n" + rest);
  }

  lemma WrappedOpens(first: string, others: seq<string>, trailing: string)
    requires Unbroken(first) && "* " <= first
    requires AllUnbroken(others) && forall i | 0 <= i < |others| :: "  " <= others[i]
    requires trailing == "\n" || trailing == "\n\n"
    ensures Opens(Join([first] + others) + trailing) && IsBullet(Join([first] + others) + trailing)
  {
    JoinedLines(first, others, trailing);
    NoMarkerInContinuation(others, trailing);
    BulletLineOpens(first, AfterLine(others, trailing));
  }

  lemma TrailingEnds(text: string, chunk: string)
    ensures Ended(text + Trailing(chunk))
  {
  }

  lemma RewrappedOpens(chunk: string)
    requires IsBullet(chunk)
    ensures Opens(Rewrapped(chunk)) && Ended(Rewrapped(chunk)) && IsBullet(Rewrapped(chunk))
  {
    var flat := Flat(chunk);
    FlatIsUnbroken(chunk);
    WrapIsUnbroken(flat);
    LinesAreIndented(Tokens(Munge(flat, 0)), true);
    FlatHasWords(chunk);
    WrappedWords(flat);
    var lines := Wrap(flat);
    var first, others := lines[0], lines[1..];
    assert lines == [first] + others;
    AllUnbrokenOfCons(first, others);
    WrappedOpens(first, others, Trailing(chunk));
    TrailingEnds(Join(lines), chunk);
  }

  lemma FlatHasWords(chunk: string)
    requires IsBullet(chunk)
    ensures Words(Flat(chunk)) != []
  {
    FlattenedBullet(chunk);
    BulletAlone();
    if Flattened(chunk) != "*" {
      WordsBehindBullet(Flattened(chunk));
    }
  }

  lemma FlatIsUnbroken(chunk: string)
    ensures Unbroken(Flat(chunk))
  {
    var text := WithoutTrailingNewlines(chunk);
    SplitLinesAreUnbroken(text);
    KeptAreUnbroken(SplitLines(text));
    SpacedIsUnbroken(Kept(SplitLines(text)));
    var flat := Flattened(chunk);
    if "* " <= flat {
      assert flat == flat[..2] + flat[2..];
      UnbrokenConcat(flat[..2], flat[2..]);
    }
  }

  lemma ProcessOpens(chunk: string)
    requires Opens(chunk)
    ensures Opens(Process(chunk)) && (Ended(chunk) ==> Ended(Process(chunk)))
  {
    if IsBullet(chunk) {
      RewrappedOpens(chunk);
    }
  }

  lemma {:induction false} ProcessAllAt(chunks: seq<string>, i: nat)
    requires i < |chunks|
    ensures ProcessAll(chunks)[i] == Process(chunks[i])
  {
    if i > 0 {
      ProcessAllAt(chunks[1..], i - 1);
    }
  }

  lemma ProcessTail(chunks: seq<string>)
    requires Tail(chunks)
    ensures Tail(ProcessAll(chunks))
  {
    forall i | 0 <= i < |chunks|
      ensures Opens(ProcessAll(chunks)[i]) && (i < |chunks| - 1 ==> Ended(ProcessAll(chunks)[i]))
    {
      ProcessAllAt(chunks, i);
      ProcessOpens(chunks[i]);
    }
  }

  lemma ProcessTiled(chunks: seq<string>)
    requires Tiled(chunks, true)
    ensures Tiled(ProcessAll(chunks), true)
  {
    assert !IsBullet(chunks[0]);
    assert ProcessAll(chunks) == [chunks[0]] + ProcessAll(chunks[1..]);
    ProcessTail(chunks[1..]);
  }

  /** The chunks of the result are the processed chunks: headings stay as they are, and no
      re-wrapped bullet merges or splits. */
  lemma ReflowedChunks(text: string)
    ensures Chunks(Reflow(text), true) == ProcessAll(Chunks(text, true))
    ensures forall i | 0 <= i < |Chunks(text, true)| && !IsBullet(Chunks(text, true)[i]) ::
      Chunks(Reflow(text), true)[i] == Chunks(text, true)[i]
  {
    var chunks := Chunks(text, true);
    ChunksTile(text, true);
    ProcessTiled(chunks);
    ChunksOfTiled(ProcessAll(chunks));
    forall i | 0 <= i < |chunks|
      ensures ProcessAll(chunks)[i] == Process(chunks[i])
    {
      ProcessAllAt(chunks, i);
    }
  }

  // ----- The words of the whole text

  lemma {:induction false} WordsOfTail(chunks: seq<string>)
    requires forall i | 0 <= i < |chunks| - 1 :: !EndsWord(chunks[i])
    ensures Words(Concat(chunks)) == AllWords(chunks)
  {
    if chunks != [] {
      WordsOfTail(chunks[1..]);
      WordsConcat(chunks[0], Concat(chunks[1..]));
    }
  }

  lemma WordsOfTiled(chunks: seq<string>)
    requires Tiled(chunks, true)
    ensures Words(Concat(chunks)) == AllWords(chunks)
  {
    forall i | 0 <= i < |chunks| - 1
      ensures !EndsWord(chunks[i])
    {
      assert i > 0 ==> chunks[i] == chunks[1..][i - 1] && Ended(chunks[1..][i - 1]);
    }
    WordsOfTail(chunks);
  }

  function BareBullets(chunks: seq<string>): nat {
    if chunks == [] then 0 else (if Bare(chunks[0]) then 1 else 0) + BareBullets(chunks[1..])
  }

  lemma ProcessWords(chunk: string)
    ensures |Words(Process(chunk))| == |Words(chunk)| + if Bare(chunk) then 1 else 0
    ensures !Bare(chunk) ==> Words(Process(chunk)) == Words(chunk)
  {
    if IsBullet(chunk) {
      BulletWords(chunk);
    }
  }

  lemma {:induction false} ProcessAllWords(chunks: seq<string>)
    ensures |AllWords(ProcessAll(chunks))| == |AllWords(chunks)| + BareBullets(chunks)
    ensures BareBullets(chunks) == 0 ==> AllWords(ProcessAll(chunks)) == AllWords(chunks)
  {
    if chunks != [] {
      ProcessWords(chunks[0]);
      ProcessAllWords(chunks[1..]);
      AllWordsOfCons(Process(chunks[0]), ProcessAll(chunks[1..]));
    }
  }

  lemma {:induction false} NoBareBullets(chunks: seq<string>)
    ensures BareBullets(chunks) == 0 <==> forall chunk | chunk in chunks :: !Bare(chunk)
  {
    if chunks != [] {
      NoBareBullets(chunks[1..]);
      assert chunks[0] in chunks && forall chunk | chunk in chunks[1..] :: chunk in chunks;
      assert forall chunk | chunk in chunks :: chunk == chunks[0] || chunk in chunks[1..];
    }
  }

  /** Re-flowing keeps the exact word sequence of a text exactly when no bullet is bare. */
  lemma WordsSurvive(text: string)
    ensures Words(Reflow(text)) == Words(text) <==> forall chunk | chunk in Chunks(text, true) :: !Bare(chunk)
  {
    var chunks := Chunks(text, true);
    ChunksTile(text, true);
    ProcessTiled(chunks);
    WordsOfTiled(chunks);
    WordsOfTiled(ProcessAll(chunks));
    ProcessAllWords(chunks);
    NoBareBullets(chunks);
  }

  /** A bullet without a word gets its marker doubled. */
  lemma BareBulletIsDoubled()
    ensures Words(Reflow("* \n")) != Words("* \n")
  {
    var text := "* \n";
    var chunks := ["", text];
    assert text[1..] == " \n" && " \n"[1..] == "\n" && "\n"[1..] == "";
    assert chunks[1..] == [text] && Opens(text);
    assert Concat(chunks[1..]) == text + Concat(chunks[1..][1..]);
    ChunksOfTiled(chunks);
    assert Concat(chunks) == text && chunks[1] == text;
    assert text == "*" + ([' '] + "\n");
    WordsBreak("*", ' ', "\n");
    BulletAlone();
    NoWords("\n");
    assert text in Chunks(text, true) && Bare(text);
    WordsSurvive(text);
  }

  // ----- The lines of a re-wrapped bullet

  lemma {:induction false} LinesOfJoin(lines: seq<string>)
    requires lines != [] && AllUnbroken(lines)
    ensures Lines(Join(lines)) == lines
  {
    assert lines == [lines[0]] + lines[1..];
    AllUnbrokenOfCons(lines[0], lines[1..]);
    assert '\n' !in lines[0] by {
      assert IsLineBreak('\n');
    }
    SingleLine(lines[0]);
    if |lines| > 1 {
      LinesOfJoined(lines[0], Join(lines[1..]));
      LinesOfJoin(lines[1..]);
    }
  }

  lemma LinesOfTrailing(trailing: string)
    requires trailing == "\n" || trailing == "\n\n"
    ensures forall line | line in Lines(trailing[1..]) :: line == ""
  {
    assert "\n"[1..] == "" && "\n\n"[1..] == "\n" && "\n" == "" + ("\n" + "");
    LinesOfJoined("", "");
    SingleLine("");
  }

  /** No line of a re-wrapped bullet is wider than 92 columns unless it holds one longer token. */
  lemma BulletIsNarrow(chunk: string)
    requires IsBullet(chunk)
    ensures var tokens := Tokens(Munge(Flat(chunk), 0));
      forall line | line in Lines(Rewrapped(chunk)) :: Fits(line, tokens)
  {
    var flat, trailing := Flat(chunk), Trailing(chunk);
    FlatIsUnbroken(chunk);
    WrapIsUnbroken(flat);
    FlatHasWords(chunk);
    WrappedWords(flat);
    WrappedWidth(flat);
    LinesOfJoin(Wrap(flat));
    assert Join(Wrap(flat)) + trailing == Join(Wrap(flat)) + ("\n" + trailing[1..]);
    LinesOfJoined(Join(Wrap(flat)), trailing[1..]);
    LinesOfTrailing(trailing);
  }
}
