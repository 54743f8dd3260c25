/** The handover document as `main` assembles it: a re-flowed header in front of the blocks. */
module HandoverAssembly {
  import opened TextLines
  import opened TextWords
  import opened HeaderReflow
  import opened HeaderOutline
  import opened HandoverDocument
  import opened HandoverIndex

  // ----- Fences

  predicate StartsFence(w: string) {
    "```" <= w || "~~~" <= w
  }

  predicate FenceFree(text: string) {
    forall w | w in Words(text) :: !StartsFence(w)
  }

  lemma {:induction false} WordOfPart(parts: seq<string>, part: string, w: string)
    requires part in parts && w in Words(part)
    ensures w in AllWords(parts)
  {
    if part != parts[0] {
      WordOfPart(parts[1..], part, w);
    }
  }

  lemma FirstWordStarts(a: char, b: char, c: char, rest: string)
    requires !IsSpace(a) && !IsSpace(b) && !IsSpace(c)
    ensures Words([a, b, c] + rest) != [] && [a, b, c] <= Words([a, b, c] + rest)[0]
  {
    assert [a, b, c] + rest == [a] + ([b] + ([c] + rest));
    WordsOfCons(c, rest);
    WordsOfCons(b, [c] + rest);
    WordsOfCons(a, [b] + ([c] + rest));
  }

  lemma IndentHasNoWords(line: string)
    ensures Words(line) == Words(Unindented(line))
  {
    RunIsShort(line, ' ');
    var indent := line[..Run(line, ' ')];
    assert line == indent + Unindented(line);
    NoWords(indent);
    WordsConcat(indent, Unindented(line));
  }

  lemma RunStartsFence(s: string)
    requires s != "" && s[0] in {'`', '~'} && Run(s, s[0]) >= 3
    ensures Words(s) != [] && StartsFence(Words(s)[0])
  {
    var c := s[0];
    RunIsShort(s, c);
    assert s == [c, c, c] + s[3..];
    FirstWordStarts(c, c, c, s[3..]);
  }

  /** A line that opens a fence starts with a word that does. */
  lemma OpeningStartsFence(line: string)
    requires Opening(line).Open?
    ensures exists w | w in Words(line) :: StartsFence(w)
  {
    IndentHasNoWords(line);
    RunStartsFence(Unindented(line));
  }

  lemma FenceFreeIsQuiet(text: string)
    requires FenceFree(text)
    ensures Quiet(Lines(text))
  {
    JoinOfLines(text);
    WordsOfJoin(Lines(text));
    forall line | line in Lines(text)
      ensures Opening(line).Closed?
    {
      if Opening(line).Open? {
        OpeningStartsFence(line);
        var w :| w in Words(line) && StartsFence(w);
        WordOfPart(Lines(text), line, w);
        assert false;
      }
    }
  }

  lemma {:induction false} ProcessedWords(chunks: seq<string>, w: string)
    requires w in AllWords(ProcessAll(chunks))
    ensures w == "*" || w in AllWords(chunks)
  {
    if chunks != [] {
      ProcessWords(chunks[0]);
      AllWordsOfCons(Process(chunks[0]), ProcessAll(chunks[1..]));
      if Bare(chunks[0]) {
        BulletWords(chunks[0]);
      }
      if w !in Words(Process(chunks[0])) {
        ProcessedWords(chunks[1..], w);
      }
    }
  }

  /** Re-flowing brings no word to a line that could open a fence if none was there. */
  lemma ReflowKeepsFenceFree(text: string)
    requires FenceFree(text)
    ensures FenceFree(Reflow(text))
  {
    var chunks := Chunks(text, true);
    ChunksTile(text, true);
    ProcessTiled(chunks);
    WordsOfTiled(chunks);
    WordsOfTiled(ProcessAll(chunks));
    forall w | w in Words(Reflow(text))
      ensures !StartsFence(w)
    {
      ProcessedWords(chunks, w);
    }
  }

  // ----- Heading-like lines

  /** The lines that look like a file heading, in order. */
  function Marked(lines: seq<string>): seq<string> {
    if lines == [] then [] else (if FILE_MARK <= lines[0] then [lines[0]] else []) + Marked(lines[1..])
  }

  lemma {:induction false} NoneMarked(lines: seq<string>)
    ensures Marked(lines) == [] <==> forall line | line in lines :: !(FILE_MARK <= line)
  {
    if lines != [] {
      NoneMarked(lines[1..]);
      assert lines[0] in lines && forall line | line in lines[1..] :: line in lines;
      assert forall line | line in lines :: line == lines[0] || line in lines[1..];
    }
  }

  lemma MarkedIsHeading(line: string)
    requires FILE_MARK <= line
    ensures HeadingLine(line)
  {
    assert line[0] == FILE_MARK[0] && line[1] == FILE_MARK[1] && line[2] == FILE_MARK[2];
  }

  lemma MarkedOfCons(line: string, lines: seq<string>)
    ensures Marked([line] + lines) == (if FILE_MARK <= line then [line] else []) + Marked(lines)
  {
    assert ([line] + lines)[1..] == lines;
  }

  /** The heading-like lines can be told from the outline. */
  lemma {:induction false} MarkedInOutline(lines: seq<string>)
    ensures Marked(Outline(lines)) == Marked(lines)
  {
    if lines != [] {
      var line, rest := lines[0], Outline(lines[1..]);
      MarkedInOutline(lines[1..]);
      if FILE_MARK <= line {
        MarkedIsHeading(line);
      }
      NotMarked("* ");
      if OutlineOf(line) == [] {
        assert [] + rest == rest;
      } else {
        MarkedOfCons(OutlineOf(line)[0], rest);
        assert OutlineOf(line) == [OutlineOf(line)[0]];
      }
    }
  }

  /** Re-flowing keeps the heading-like lines as they are, in order, and makes no new ones. */
  lemma ReflowKeepsHeadings(text: string)
    ensures Marked(Lines(Reflow(text))) == Marked(Lines(text))
  {
    OutlineSurvives(text);
    MarkedInOutline(Lines(text));
    MarkedInOutline(Lines(Reflow(text)));
  }

  lemma ReflowKeepsProseFree(text: string)
    ensures ProseIsFree(Reflow(text)) <==> ProseIsFree(text)
  {
    ReflowKeepsHeadings(text);
    NoneMarked(Lines(text));
    NoneMarked(Lines(Reflow(text)));
  }

  // ----- The assembled document

  /** What `main` writes. */
  function Assembled(header: string, created: seq<SourceFile>, modified: seq<SourceFile>): string {
    Document(Reflow(header), created, modified)
  }

  lemma {:induction false} BlocksConcat(a: seq<SourceFile>, b: seq<SourceFile>)
    ensures Blocks(a + b) == Blocks(a) + Blocks(b)
  {
    if a == [] {
      assert a + b == b;
    } else {
      assert (a + b)[1..] == a[1..] + b;
      BlocksConcat(a[1..], b);
    }
  }

  lemma BlocksOfPrefix(files: seq<SourceFile>, i: nat)
    requires i < |files|
    ensures Blocks(files[..i + 1]) == Blocks(files[..i]) + [Block(files[i])]
  {
    assert files[..i + 1] == files[..i] + [files[i]];
    BlocksConcat(files[..i], [files[i]]);
    BlocksOfCons(files[i], []);
    assert [files[i]] + [] == [files[i]];
  }

  /** One block for each file, in order. */
  method PrintBlocks(files: seq<SourceFile>) returns (blocks: seq<string>)
    ensures blocks == Blocks(files)
  {
    blocks := [];
    for i := 0 to |files|
      invariant blocks == Blocks(files[..i])
    {
      BlocksOfPrefix(files, i);
      blocks := blocks + [Block(files[i])];
    }
    assert files[..|files|] == files;
  }

  /** The parts pushed in order, joined, and counted. */
  method Assemble(header: string, created: seq<SourceFile>, modified: seq<SourceFile>)
    returns (text: string, ok: bool)
    ensures text == Assembled(header, created, modified)
    ensures ok <==> Emitted(text) == |created| + |modified|
  {
    var prose := ReflowHeader(header);
    var parts := [prose, CREATED + "\n"];
    var blocks := PrintBlocks(created);
    parts := parts + blocks;
    parts := parts + [MODIFIED + "\n"];
    blocks := PrintBlocks(modified);
    parts := parts + blocks;
    text := Join(parts);
    ok := Count(text, "\n" + FILE_MARK) == |created| + |modified|;
  }

  /** A header that opens no fence once re-flowed, and has no line that looks like a file heading,
      gives a document that reads back exactly when no body closes its own fence, and passes the
      emission check exactly when no text holds a heading-like line. */
  lemma AssembledRoundTrip(header: string, created: seq<SourceFile>, modified: seq<SourceFile>)
    requires Quiet(Lines(Reflow(header))) && ProseIsFree(header)
    requires AllPrintable(created) && AllPrintable(modified)
    ensures ReadDocument(Assembled(header, created, modified)) == Expected(created + modified)
       <==> NoneBreaks(created + modified)
    ensures Emitted(Assembled(header, created, modified)) == |created| + |modified|
       <==> forall file | file in created + modified :: !HoldsHeading(file)
  {
    ReflowKeepsProseFree(header);
    DocumentRoundTrip(Reflow(header), created, modified);
    EmissionCheck(Reflow(header), created, modified);
  }

  /** In particular a header none of whose words starts a fence. */
  lemma FenceFreeRoundTrip(header: string, created: seq<SourceFile>, modified: seq<SourceFile>)
    requires FenceFree(header) && ProseIsFree(header) && AllPrintable(created) && AllPrintable(modified)
    ensures ReadDocument(Assembled(header, created, modified)) == Expected(created + modified)
       <==> NoneBreaks(created + modified)
    ensures Emitted(Assembled(header, created, modified)) == |created| + |modified|
       <==> forall file | file in created + modified :: !HoldsHeading(file)
  {
    ReflowKeepsFenceFree(header);
    FenceFreeIsQuiet(Reflow(header));
    AssembledRoundTrip(header, created, modified);
  }

  /** An assembled document that passes the emission check, with distinct indexable paths, is indexed
      as exactly its printed line counts, in front of whatever older documents record. */
  lemma AssembledIsIndexed(header: string, created: seq<SourceFile>, modified: seq<SourceFile>, older: seq<Handover>)
    requires ProseIsFree(header) && AllPrintable(created) && AllPrintable(modified)
    requires Emitted(Assembled(header, created, modified)) == |created| + |modified|
    requires DistinctPaths(EntriesOf(created + modified))
    requires forall file | file in created + modified :: Indexable(file.path)
    ensures var document := Handover(Assembled(header, created, modified));
      && Records(Table([document]), EntriesOf(created + modified))
      && Table([document] + older) == Table(older) + Table([document])
  {
    ReflowKeepsProseFree(header);
    IndexRoundTrip(Reflow(header), created, modified, older);
  }
}
