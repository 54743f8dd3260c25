/** The handover document: how source files are printed into Markdown, and what a reader who
    follows section 4.5 (fenced code blocks) of the CommonMark Spec gets back. */
module HandoverDocument {
  import opened TextLines
  import opened Folding

  datatype SourceFile = SourceFile(path: string, note: string, text: string)

  const FILE_MARK: string := "## FILE: "
  const CREATED: string := "## Created in Part 22 (full files)"
  const MODIFIED: string := "## Modified in Part 22 " + "(full files, prior content " + "preserved inside)"

  // ----- The printer

  /** `s.rsplit(c, 1)[-1]` */
  function AfterLast(s: string, c: char): string {
    if c !in s then s else AfterLast(s[1..], c)
  }

  function Extension(path: string): string {
    var name := AfterLast(path, '/');
    if '.' in name then "." + AfterLast(name, '.') else ""
  }

  type Letters = s: string | forall c | c in s :: 'a' <= c <= 'z'

  datatype Known = Known(extension: Letters, language: Letters)

  const PROGRAMS: seq<Known> := [
    Known("py", "python"), Known("ts", "typescript"), Known("tsx", "tsx"), Known("sql", "sql"),
    Known("json", "json"), Known("prisma", "prisma")]

  const TEXTS: seq<Known> := [
    Known("toml", "toml"), Known("yml", "yaml"), Known("yaml", "yaml"), Known("mjs", "javascript"),
    Known("txt", "text"), Known("md", "markdown")]

  const LANGUAGES: seq<Known> := PROGRAMS + TEXTS

  /** The language listed for an extension, or else the given one. */
  function Lookup(table: seq<Known>, extension: string, otherwise: Letters): Letters {
    if table == [] then otherwise
    else if extension == "." + table[0].extension then table[0].language
    else Lookup(table[1..], extension, otherwise)
  }

  /** The language of a path that has none of the listed extensions. */
  function OtherLanguage(path: string): Letters {
    var name := AfterLast(path, '/');
    if name == ".env.example" then "dotenv" else if EndsWith(name, "Dockerfile") then "yaml" else ""
  }

  /** The info string for a path. */
  function Language(path: string): (lang: string)
    ensures '`' !in lang && '\n' !in lang
  {
    Lookup(LANGUAGES, Extension(path), OtherLanguage(path))
  }

  function Body(file: SourceFile): string {
    WithoutTrailingNewlines(file.text)
  }

  /** Four backticks when the text contains three. */
  function Ticks(file: SourceFile): string {
    if Contains(file.text, "```") then "````" else "```"
  }

  function Info(file: SourceFile): string {
    if Contains(file.text, "```") then "text" else Language(file.path)
  }

  /** The opening line, the body, the closing line, and the newline after it. */
  function Fence(file: SourceFile): string {
    Join([Ticks(file) + Info(file), Body(file), Ticks(file), ""])
  }

  function Heading(file: SourceFile): string {
    FILE_MARK + file.path + " (" + Decimal(|SplitLines(file.text)|) + " lines)"
  }

  /** The heading, the note in italics and the fence, with a blank line after each. */
  function Block(file: SourceFile): string {
    Join([Heading(file), "", "*" + file.note + "*", "", Fence(file), ""])
  }

  function Blocks(files: seq<SourceFile>): seq<string> {
    if files == [] then [] else [Block(files[0])] + Blocks(files[1..])
  }

  function Parts(prose: string, created: seq<SourceFile>, modified: seq<SourceFile>): seq<string> {
    [prose, CREATED + "\n"] + Blocks(created) + [MODIFIED + "\n"] + Blocks(modified)
  }

  function Document(prose: string, created: seq<SourceFile>, modified: seq<SourceFile>): string {
    Join(Parts(prose, created, modified))
  }

  // ----- The reader

  datatype Open = Closed | Open(mark: char, length: nat, indent: nat)
  datatype Recovered = Recovered(path: string, text: string)
  datatype Reader = Reader(open: Open, path: string, content: string, out: seq<Recovered>)

  const START: Reader := Reader(Closed, "", "", [])

  /** How many times `c` is repeated at the start. */
  function Run(s: string, c: char): nat {
    if s != "" && s[0] == c then 1 + Run(s[1..], c) else 0
  }

  lemma {:induction false} RunIsShort(s: string, c: char)
    ensures Run(s, c) <= |s|
    ensures forall i | 0 <= i < Run(s, c) :: s[i] == c
  {
    if s != "" && s[0] == c {
      RunIsShort(s[1..], c);
    }
  }

  function Unindented(line: string): string {
    RunIsShort(line, ' ');
    line[Run(line, ' ')..]
  }

  function AfterRun(s: string, c: char): string {
    RunIsShort(s, c);
    s[Run(s, c)..]
  }

  /** The fence that a line opens. */
  function Opening(line: string): Open {
    var s := Unindented(line);
    if Run(line, ' ') > 3 || s == "" || s[0] !in {'`', '~'} || Run(s, s[0]) < 3 then Closed
    else if s[0] == '`' && '`' in AfterRun(s, '`') then Closed
    else Open(s[0], Run(s, s[0]), Run(line, ' '))
  }

  predicate Closes(line: string, mark: char, length: nat) {
    var s := Unindented(line);
    && Run(line, ' ') <= 3
    && Run(s, mark) >= length
    && forall c | c in AfterRun(s, mark) :: c in {' ', '\t'}
  }

  /** A content line loses at most the fence's own indentation. */
  function DropIndent(line: string, indent: nat): string {
    if indent > 0 && line != "" && line[0] == ' ' then DropIndent(line[1..], indent - 1) else line
  }

  function WithoutTrailingDigits(s: string): string {
    if s != "" && IsDigit(s[|s| - 1]) then WithoutTrailingDigits(s[..|s| - 1]) else s
  }

  /** The path on a file heading: what stands before the final ` (digits lines)`. */
  function HeadingPath(line: string): (path: seq<string>)
    ensures |path| <= 1
  {
    if FILE_MARK <= line && EndsWith(line, " lines)") then
      var s := line[..|line| - 7];
      var bare := WithoutTrailingDigits(s);
      if bare != s && EndsWith(bare, " (") && |FILE_MARK| <= |bare| - 2 then
        [bare[|FILE_MARK|..|bare| - 2]]
      else []
    else []
  }

  function Step(r: Reader, line: string): Reader {
    if r.open.Open? then
      if Closes(line, r.open.mark, r.open.length) then
        Reader(Closed, "", "", r.out + [Recovered(r.path, r.content)])
      else r.(content := r.content + DropIndent(line, r.open.indent) + "\n")
    else if Opening(line).Open? then r.(open := Opening(line), content := "")
    else if HeadingPath(line) != [] then r.(path := HeadingPath(line)[0])
    else r
  }

  const READER: System<Reader, string, Recovered> :=
    System(Step, (r: Reader) => r.open.Closed?, (r: Reader) => r.out)

  function Read(r: Reader, lines: seq<string>): Reader {
    Fold(READER, r, lines)
  }

  /** A fence left open is closed by the end of the document. */
  function Finish(r: Reader): seq<Recovered> {
    if r.open.Open? then r.out + [Recovered(r.path, r.content)] else r.out
  }

  function ReadDocument(text: string): seq<Recovered> {
    Finish(Read(START, Lines(text)))
  }

  // ----- Reading in pieces

  lemma ReaderIsMonotone()
    ensures Monotone(READER)
  {
  }

  ghost predicate Quiet(lines: seq<string>) {
    forall line | line in lines :: Opening(line).Closed?
  }

  lemma {:induction false} ReadQuiet(r: Reader, lines: seq<string>)
    requires r.open.Closed? && Quiet(lines)
    ensures Read(r, lines).open.Closed? && Read(r, lines).out == r.out
    decreases |lines|
  {
    if lines != [] {
      assert lines[0] in lines;
      ReadQuiet(Step(r, lines[0]), lines[1..]);
    }
  }

  function Terminated(lines: seq<string>): string {
    if lines == [] then "" else lines[0] + "\n" + Terminated(lines[1..])
  }

  lemma {:induction false} ReadContent(r: Reader, lines: seq<string>)
    requires r.open.Open? && r.open.indent == 0
    requires forall line | line in lines :: !Closes(line, r.open.mark, r.open.length)
    ensures Read(r, lines) == r.(content := r.content + Terminated(lines))
    decreases |lines|
  {
    if lines == [] {
      assert r.content + "" == r.content;
    } else {
      assert lines[0] in lines;
      ReadContent(Step(r, lines[0]), lines[1..]);
      assert r.content + lines[0] + "\n" + Terminated(lines[1..])
          == r.content + (lines[0] + "\n" + Terminated(lines[1..]));
    }
  }

  lemma {:induction false} TerminatedIsJoin(lines: seq<string>)
    requires lines != []
    ensures Terminated(lines) == Join(lines) + "\n"
  {
    if |lines| == 1 {
      assert Terminated(lines[1..]) == "";
    } else {
      TerminatedIsJoin(lines[1..]);
      assert lines[0] + "\n" + (Join(lines[1..]) + "\n") == lines[0] + ("\n" + Join(lines[1..])) + "\n";
    }
  }

  // ----- One block

  /** What a body must not contain for its block to be read back: a line that closes its fence. */
  predicate Breaks(file: SourceFile) {
    Contains(file.text, "```") && exists line | line in Lines(Body(file)) :: Closes(line, '`', 4)
  }

  predicate Printable(file: SourceFile) {
    '\n' !in file.path && '\n' !in file.note
  }

  function Normalised(file: SourceFile): Recovered {
    Recovered(file.path, Body(file) + "\n")
  }

  lemma {:induction false} RunOfPrefixed(n: nat, s: string, c: char)
    requires s == "" || s[0] != c
    ensures Run(seq(n, _ => c) + s, c) == n
  {
    if n == 0 {
      assert seq(n, _ => c) + s == s;
    } else {
      assert (seq(n, _ => c) + s)[1..] == seq(n - 1, _ => c) + s;
      RunOfPrefixed(n - 1, s, c);
    }
  }

  lemma RunOfTicks(file: SourceFile, rest: string)
    requires '`' !in rest
    ensures Run(Ticks(file) + rest, '`') == |Ticks(file)|
    ensures Run(Ticks(file) + rest, ' ') == 0
  {
    var n := |Ticks(file)|;
    assert Ticks(file) == seq(n, _ => '`');
    RunOfPrefixed(n, rest, '`');
  }

  lemma OpeningLine(file: SourceFile)
    ensures Opening(Ticks(file) + Info(file)) == Open('`', |Ticks(file)|, 0)
    ensures '\n' !in Ticks(file) + Info(file)
  {
    RunOfTicks(file, Info(file));
    var line := Ticks(file) + Info(file);
    assert Unindented(line) == line;
    assert AfterRun(line, '`') == Info(file);
  }

  lemma ClosingLine(file: SourceFile)
    ensures Closes(Ticks(file), '`', |Ticks(file)|)
  {
    RunOfTicks(file, "");
    var line := Ticks(file);
    assert line + "" == line;
    assert Unindented(line) == line && AfterRun(line, '`') == "";
  }

  lemma {:induction false} DigitsTrimmed(s: string, digits: string)
    requires s != "" && !IsDigit(s[|s| - 1]) && forall c | c in digits :: IsDigit(c)
    ensures WithoutTrailingDigits(s + digits) == s
  {
    var whole := s + digits;
    if digits == "" {
      assert whole == s;
    } else {
      assert whole[|whole| - 1] in digits;
      assert whole[..|whole| - 1] == s + digits[..|digits| - 1];
      DigitsTrimmed(s, digits[..|digits| - 1]);
    }
  }

  /** A file heading gives its path back, whatever the path contains. */
  lemma HeadingRoundTrip(file: SourceFile)
    ensures HeadingPath(Heading(file)) == [file.path]
  {
    var digits := Decimal(|SplitLines(file.text)|);
    DecimalRoundTrip(|SplitLines(file.text)|);
    var bare := FILE_MARK + file.path + " (";
    var line := Heading(file);
    assert line == bare + digits + " lines)";
    assert line[|line| - 7..] == " lines)" && line[..|line| - 7] == bare + digits;
    assert FILE_MARK <= line;
    DigitsTrimmed(bare, digits);
    assert bare[|bare| - 2..] == " (";
    assert bare[|FILE_MARK|..|bare| - 2] == file.path;
  }

  lemma HashIsQuiet(line: string)
    requires line != "" && line[0] == '#'
    ensures Opening(line).Closed?
  {
    assert Run(line, ' ') == 0 && Unindented(line) == line;
  }

  lemma NoteIsQuiet(note: string)
    ensures Opening("*" + note + "*").Closed? && HeadingPath("*" + note + "*") == []
  {
    var line := "*" + note + "*";
    assert line[0] == '*' && Run(line, ' ') == 0 && Unindented(line) == line;
    assert FILE_MARK[0] == '#';
  }

  function Front(file: SourceFile): seq<string> {
    [Heading(file), "", "*" + file.note + "*", "", Ticks(file) + Info(file)]
  }

  lemma HeadingIsOneLine(file: SourceFile)
    requires Printable(file)
    ensures '\n' !in Heading(file)
  {
    DecimalRoundTrip(|SplitLines(file.text)|);
    forall c | c in Decimal(|SplitLines(file.text)|)
      ensures c != '\n'
    {
      assert '0' <= c <= '9';
    }
  }

  lemma JoinStep(first: string, rest: seq<string>)
    requires rest != []
    ensures Join([first] + rest) == first + ("\n" + Join(rest))
  {
    assert ([first] + rest)[1..] == rest;
  }

  lemma LinesStep(first: string, rest: seq<string>)
    requires rest != []
    ensures Lines(Join([first] + rest)) == Lines(first) + Lines(Join(rest))
  {
    JoinStep(first, rest);
    LinesOfJoined(first, Join(rest));
  }

  lemma JoinOfTwo(a: string, b: string)
    ensures Lines(Join([a, b])) == Lines(a) + Lines(b)
  {
    LinesStep(a, [b]);
    assert [a] + [b] == [a, b];
  }

  lemma JoinOfFour(a: string, b: string, c: string, d: string)
    ensures Lines(Join([a, b, c, d])) == Lines(a) + (Lines(b) + (Lines(c) + Lines(d)))
  {
    LinesStep(a, [b, c, d]);
    LinesStep(b, [c, d]);
    JoinOfTwo(c, d);
    assert [a] + [b, c, d] == [a, b, c, d] && [b] + [c, d] == [b, c, d];
  }

  lemma JoinOfSix(a: string, b: string, c: string, d: string, e: string, f: string)
    ensures Lines(Join([a, b, c, d, e, f]))
         == Lines(a) + (Lines(b) + (Lines(c) + (Lines(d) + (Lines(e) + Lines(f)))))
  {
    LinesStep(a, [b, c, d, e, f]);
    LinesStep(b, [c, d, e, f]);
    JoinOfFour(c, d, e, f);
    assert [a] + [b, c, d, e, f] == [a, b, c, d, e, f] && [b] + [c, d, e, f] == [b, c, d, e, f];
  }

  lemma RegroupFence(first: string, body: seq<string>, last: string)
    ensures [first] + (body + ([last] + [""])) == [first] + body + [last, ""]
  {
  }

  lemma FenceLines(file: SourceFile)
    ensures Lines(Fence(file)) == [Ticks(file) + Info(file)] + Lines(Body(file)) + [Ticks(file), ""]
  {
    var first, body, last := Ticks(file) + Info(file), Body(file), Ticks(file);
    OpeningLine(file);
    JoinOfFour(first, body, last, "");
    SingleLine(first);
    SingleLine(last);
    SingleLine("");
    RegroupFence(first, Lines(body), last);
  }

  lemma BlockLines(file: SourceFile)
    requires Printable(file)
    ensures Lines(Block(file)) == Front(file) + (Lines(Body(file)) + [Ticks(file), "", ""])
  {
    var heading, note, fence := Heading(file), "*" + file.note + "*", Fence(file);
    HeadingIsOneLine(file);
    JoinOfSix(heading, "", note, "", fence, "");
    SingleLine(heading);
    SingleLine(note);
    SingleLine("");
    FenceLines(file);
    Regroup(heading, note, Ticks(file) + Info(file), Lines(Body(file)), Ticks(file));
  }

  lemma Regroup(heading: string, note: string, open: string, body: seq<string>, close: string)
    ensures [heading] + ([""] + ([note] + ([""] + (([open] + body + [close, ""]) + [""]))))
         == [heading, "", note, "", open] + (body + [close, "", ""])
  {
  }

  lemma {:induction false} BodyIsPrefix(text: string)
    ensures WithoutTrailingNewlines(text) <= text
  {
    if text != "" && text[|text| - 1] == '\n' {
      BodyIsPrefix(text[..|text| - 1]);
    }
  }

  lemma ContainsPrefix(text: string, prefix: string, part: string)
    requires prefix <= text && Contains(prefix, part)
    ensures Contains(text, part)
  {
    var i :| 0 <= i <= |prefix| && OccursAt(prefix, part, i);
    assert part <= prefix[i..] && prefix[i..] <= text[i..];
    assert OccursAt(text, part, i);
  }

  /** A line that closes a fence of `n` backticks contains them. */
  lemma ClosingContains(line: string, n: nat)
    requires Closes(line, '`', n)
    ensures Contains(line, seq(n, _ => '`'))
  {
    var i, s, ticks := Run(line, ' '), Unindented(line), seq(n, _ => '`');
    RunIsShort(line, ' ');
    RunIsShort(s, '`');
    assert ticks <= s;
    assert s == line[i..];
    assert OccursAt(line, ticks, i);
  }

  lemma BodyLineContains(file: SourceFile, line: string, part: string)
    requires line in Lines(Body(file)) && Contains(line, part)
    ensures Contains(file.text, part)
  {
    var k :| 0 <= k < |Lines(Body(file))| && Lines(Body(file))[k] == line;
    LineContains(Body(file), k, part);
    BodyIsPrefix(file.text);
    ContainsPrefix(file.text, Body(file), part);
  }

  /** Only a block whose body breaks it can be closed early. */
  lemma BodyStaysInside(file: SourceFile)
    ensures Breaks(file) <==> exists line | line in Lines(Body(file)) :: Closes(line, '`', |Ticks(file)|)
  {
    if !Contains(file.text, "```") {
      forall line | line in Lines(Body(file))
        ensures !Closes(line, '`', 3)
      {
        if Closes(line, '`', 3) {
          ClosingContains(line, 3);
          assert seq(3, _ => '`') == "```";
          BodyLineContains(file, line, "```");
        }
      }
    }
  }

  /** A text without four backticks in a row never breaks its block. */
  lemma NoRunOfFourIsSafe(file: SourceFile)
    requires !Contains(file.text, "````")
    ensures !Breaks(file)
  {
    if Breaks(file) {
      var line :| line in Lines(Body(file)) && Closes(line, '`', 4);
      ClosingContains(line, 4);
      assert seq(4, _ => '`') == "````";
      BodyLineContains(file, line, "````");
      assert false;
    }
  }

  lemma ReadFront(r: Reader, file: SourceFile)
    requires r.open.Closed? && Printable(file)
    ensures Read(r, Front(file)) == Reader(Open('`', |Ticks(file)|, 0), file.path, "", r.out)
  {
    assert Heading(file)[0] == '#';
    HashIsQuiet(Heading(file));
    HeadingRoundTrip(file);
    NoteIsQuiet(file.note);
    OpeningLine(file);
    ReadFive(r, Heading(file), "*" + file.note + "*", Ticks(file) + Info(file), file.path);
  }

  lemma ReadFive(r: Reader, heading: string, note: string, open: string, path: string)
    requires r.open.Closed?
    requires Opening(heading).Closed? && HeadingPath(heading) == [path]
    requires Opening(note).Closed? && HeadingPath(note) == []
    requires Opening(open).Open?
    ensures Read(r, [heading, "", note, "", open]) == Reader(Opening(open), path, "", r.out)
  {
    var named := r.(path := path);
    FoldOne(READER, r, heading, ["", note, "", open]);
    FoldOne(READER, named, "", [note, "", open]);
    FoldOne(READER, named, note, ["", open]);
    FoldOne(READER, named, "", [open]);
    FoldOne(READER, named, open, []);
    assert Opening("").Closed? && HeadingPath("") == [];
    assert [heading] + ["", note, "", open] == [heading, "", note, "", open];
    assert [""] + [note, "", open] == ["", note, "", open];
    assert [note] + ["", open] == [note, "", open];
    assert [""] + [open] == ["", open];
    assert [open] + [] == [open];
  }

  lemma ReadBack(r: Reader, close: string)
    requires r.open.Open? && Closes(close, r.open.mark, r.open.length)
    ensures Read(r, [close, "", ""]) == Reader(Closed, "", "", r.out + [Recovered(r.path, r.content)])
  {
    var after := Step(r, close);
    FoldOne(READER, r, close, ["", ""]);
    FoldOne(READER, after, "", [""]);
    FoldOne(READER, after, "", []);
    assert [close] + ["", ""] == [close, "", ""] && [""] + [""] == ["", ""] && [""] + [] == [""];
    assert Opening("").Closed? && HeadingPath("") == [];
  }

  lemma ReadInside(r: Reader, body: seq<string>, close: string)
    requires r.open.Open? && r.open.indent == 0
    requires forall line | line in body :: !Closes(line, r.open.mark, r.open.length)
    requires Closes(close, r.open.mark, r.open.length)
    ensures Read(r, body + [close, "", ""])
         == Reader(Closed, "", "", r.out + [Recovered(r.path, r.content + Terminated(body))])
  {
    FoldConcat(READER, r, body, [close, "", ""]);
    ReadContent(r, body);
    ReadBack(r.(content := r.content + Terminated(body)), close);
  }

  // ----- Pieces that read as expected, and pieces that do not

  lemma BlockYields(file: SourceFile)
    requires Printable(file) && !Breaks(file)
    ensures Yields(READER, Lines(Block(file)), [Normalised(file)])
  {
    var body, back := Lines(Body(file)), [Ticks(file), "", ""];
    BlockLines(file);
    BodyStaysInside(file);
    ClosingLine(file);
    TerminatedIsJoin(body);
    JoinOfLines(Body(file));
    forall r: Reader | r.open.Closed?
      ensures Read(r, Front(file) + (body + back))
           == Reader(Closed, "", "", r.out + [Recovered(file.path, "" + Terminated(body))])
    {
      FoldConcat(READER, r, Front(file), body + back);
      ReadFront(r, file);
      ReadInside(Read(r, Front(file)), body, Ticks(file));
    }
    assert "" + Terminated(body) == Body(file) + "\n";
  }

  lemma {:induction false} FirstClosing(lines: seq<string>, n: nat) returns (k: nat)
    requires exists line | line in lines :: Closes(line, '`', n)
    ensures k < |lines| && Closes(lines[k], '`', n)
    ensures forall line | line in lines[..k] :: !Closes(line, '`', n)
  {
    if Closes(lines[0], '`', n) {
      k := 0;
    } else {
      k := FirstClosing(lines[1..], n);
      assert lines[..k + 1] == [lines[0]] + lines[1..][..k];
      k := k + 1;
    }
  }

  lemma {:induction false} TerminatedGrows(a: seq<string>, b: seq<string>)
    requires b != []
    ensures |Terminated(a + b)| > |Terminated(a)|
  {
    if a == [] {
      assert a + b == b;
    } else {
      assert (a + b)[1..] == a[1..] + b;
      TerminatedGrows(a[1..], b);
    }
  }

  /** Content that is closed early is shorter than the body. */
  lemma ReadEarly(r: Reader, before: seq<string>, closing: string, after: seq<string>)
    requires r.open.Open? && r.open.indent == 0
    requires forall line | line in before :: !Closes(line, r.open.mark, r.open.length)
    requires Closes(closing, r.open.mark, r.open.length)
    ensures r.out + [Recovered(r.path, r.content + Terminated(before))]
         <= Read(r, before + ([closing] + after)).out
  {
    FoldConcat(READER, r, before, [closing] + after);
    ReadContent(r, before);
    var full := r.(content := r.content + Terminated(before));
    FoldOne(READER, full, closing, after);
    ReaderIsMonotone();
    OutGrows(READER, Step(full, closing), after);
  }

  lemma ReadPart(r: Reader, body: seq<string>, k: nat, back: seq<string>)
    requires r.open.Open? && r.open.indent == 0
    requires k < |body| && Closes(body[k], r.open.mark, r.open.length)
    requires forall line | line in body[..k] :: !Closes(line, r.open.mark, r.open.length)
    ensures r.out + [Recovered(r.path, r.content + Terminated(body[..k]))] <= Read(r, body + back).out
  {
    assert body + back == body[..k] + ([body[k]] + (body[k + 1..] + back));
    ReadEarly(r, body[..k], body[k], body[k + 1..] + back);
  }

  lemma ReadPastFront(r: Reader, file: SourceFile, rest: seq<string>)
    requires r.open.Closed? && Printable(file)
    ensures Read(r, Front(file) + rest) == Read(Reader(Open('`', |Ticks(file)|, 0), file.path, "", r.out), rest)
  {
    FoldConcat(READER, r, Front(file), rest);
    ReadFront(r, file);
  }

  /** The first thing put out after a block whose body closes the fence at line `k`. */
  lemma ReadClosedEarly(r: Reader, file: SourceFile, k: nat)
    requires Printable(file) && r.open.Closed?
    requires k < |Lines(Body(file))| && Closes(Lines(Body(file))[k], '`', |Ticks(file)|)
    requires forall line | line in Lines(Body(file))[..k] :: !Closes(line, '`', |Ticks(file)|)
    ensures r.out + [Recovered(file.path, "" + Terminated(Lines(Body(file))[..k]))]
         <= Read(r, Lines(Block(file))).out
  {
    var body, back := Lines(Body(file)), [Ticks(file), "", ""];
    BlockLines(file);
    ReadPastFront(r, file, body + back);
    ReadPart(Reader(Open('`', |Ticks(file)|, 0), file.path, "", r.out), body, k, back);
  }

  lemma PartOfBodyIsShorter(file: SourceFile, k: nat)
    requires k < |Lines(Body(file))|
    ensures |Terminated(Lines(Body(file))[..k])| < |Body(file) + "\n"|
  {
    var body := Lines(Body(file));
    TerminatedGrows(body[..k], body[k..]);
    assert body[..k] + body[k..] == body;
    TerminatedIsJoin(body);
    JoinOfLines(Body(file));
  }

  lemma SpoiledBy(lines: seq<string>, early: Recovered, expected: Recovered)
    requires early != expected
    requires forall r: Reader {:trigger Read(r, lines)} | r.open.Closed? :: r.out + [early] <= Read(r, lines).out
    ensures Spoils(READER, lines, expected)
  {
    forall r: Reader | READER.idle(r)
      ensures |READER.out(Fold(READER, r, lines))| > |READER.out(r)|
      ensures READER.out(Fold(READER, r, lines))[|READER.out(r)|] != expected
    {
      assert r.out + [early] <= Read(r, lines).out;
      assert (r.out + [early])[|r.out|] == early;
    }
  }

  lemma BlockSpoils(file: SourceFile)
    requires Printable(file) && Breaks(file)
    ensures Spoils(READER, Lines(Block(file)), Normalised(file))
  {
    var body := Lines(Body(file));
    var k := FirstClosing(body, |Ticks(file)|);
    var early := Recovered(file.path, "" + Terminated(body[..k]));
    PartOfBodyIsShorter(file, k);
    forall r: Reader | r.open.Closed?
      ensures r.out + [early] <= Read(r, Lines(Block(file))).out
    {
      ReadClosedEarly(r, file, k);
    }
    SpoiledBy(Lines(Block(file)), early, Normalised(file));
  }

  lemma QuietYields(lines: seq<string>)
    requires Quiet(lines)
    ensures Yields(READER, lines, [])
  {
    forall r: Reader | r.open.Closed?
      ensures Read(r, lines).open.Closed? && Read(r, lines).out == r.out + []
    {
      ReadQuiet(r, lines);
      assert r.out + [] == r.out;
    }
  }

  lemma SectionYields(section: string)
    requires section != "" && section[0] == '#' && '\n' !in section
    ensures Yields(READER, Lines(section + "\n"), [])
  {
    assert section + "\n" == section + ("\n" + "");
    LinesOfJoined(section, "");
    SingleLine(section);
    SingleLine("");
    HashIsQuiet(section);
    assert [section] + [""] == [section, ""];
    EmptyIsQuiet();
    QuietYields([section, ""]);
  }

  lemma EmptyIsQuiet()
    ensures Opening("").Closed? && HeadingPath("") == []
  {
  }

  lemma CreatedIsOneLine()
    ensures '\n' !in CREATED
  {
  }

  lemma ModifiedIsOneLine()
    ensures '\n' !in MODIFIED
  {
    assert '\n' !in "## Modified in Part 22 ";
    assert '\n' !in "(full files, prior content ";
    assert '\n' !in "preserved inside)";
  }

  lemma SectionsYield()
    ensures Yields(READER, Lines(CREATED + "\n"), [])
    ensures Yields(READER, Lines(MODIFIED + "\n"), [])
  {
    CreatedIsOneLine();
    ModifiedIsOneLine();
    SectionYields(CREATED);
    SectionYields(MODIFIED);
  }

  // ----- The whole document

  ghost predicate AllPrintable(files: seq<SourceFile>) {
    forall file | file in files :: Printable(file)
  }

  ghost predicate NoneBreaks(files: seq<SourceFile>) {
    forall file | file in files :: !Breaks(file)
  }

  function Expected(files: seq<SourceFile>): seq<Recovered> {
    if files == [] then [] else [Normalised(files[0])] + Expected(files[1..])
  }

  type DocumentPiece = Piece<string, Recovered>

  function FilePiece(file: SourceFile): DocumentPiece {
    Piece(Lines(Block(file)), [Normalised(file)])
  }

  function FilePieces(files: seq<SourceFile>): seq<DocumentPiece> {
    if files == [] then [] else [FilePiece(files[0])] + FilePieces(files[1..])
  }

  function SectionPiece(text: string): DocumentPiece {
    Piece(Lines(text), [])
  }

  lemma BlockDecides(file: SourceFile)
    requires Printable(file)
    ensures GoodPiece(READER, FilePiece(file)) || BadPiece(READER, FilePiece(file))
    ensures GoodPiece(READER, FilePiece(file)) <==> !Breaks(file)
  {
    if Breaks(file) {
      BlockSpoils(file);
      GoodIsNotBad(Lines(Block(file)), Normalised(file));
    } else {
      BlockYields(file);
    }
  }

  lemma GoodIsNotBad(lines: seq<string>, expected: Recovered)
    requires Spoils(READER, lines, expected)
    ensures !Yields(READER, lines, [expected])
  {
    assert READER.idle(START);
    var out := READER.out(Fold(READER, START, lines));
    assert out[0] != expected;
    assert READER.out(START) + [expected] == [expected];
  }

  lemma {:induction false} FilePiecesDecide(files: seq<SourceFile>)
    requires AllPrintable(files)
    ensures Decided(READER, FilePieces(files)) && AllExpected(FilePieces(files)) == Expected(files)
    ensures NoneBreaks(files) <==> AllGood(READER, FilePieces(files))
  {
    if files != [] {
      var head, tail := FilePiece(files[0]), FilePieces(files[1..]);
      assert files[0] in files;
      FilePiecesDecide(files[1..]);
      BlockDecides(files[0]);
      AllOfCons(head, tail);
      DecideCons(head, tail);
      assert NoneBreaks(files) <==> !Breaks(files[0]) && NoneBreaks(files[1..]) by {
        assert forall file | file in files :: file == files[0] || file in files[1..];
      }
    }
  }

  lemma DecideCons(head: DocumentPiece, tail: seq<DocumentPiece>)
    ensures Decided(READER, [head] + tail)
       <==> (GoodPiece(READER, head) || BadPiece(READER, head)) && Decided(READER, tail)
    ensures AllGood(READER, [head] + tail) <==> GoodPiece(READER, head) && AllGood(READER, tail)
  {
    var all := [head] + tail;
    assert all[0] == head && forall i | 0 <= i < |tail| :: all[i + 1] == tail[i];
  }

  function DocumentPieces(prose: string, created: seq<SourceFile>, modified: seq<SourceFile>): seq<DocumentPiece> {
    [SectionPiece(prose)] + Chapters(CREATED + "\n", created, MODIFIED + "\n", modified)
  }

  function Chapter(section: string, files: seq<SourceFile>): seq<DocumentPiece> {
    [SectionPiece(section)] + FilePieces(files)
  }

  function Chapters(c: string, created: seq<SourceFile>, m: string, modified: seq<SourceFile>): seq<DocumentPiece> {
    Chapter(c, created) + Chapter(m, modified)
  }

  lemma BlocksOfCons(file: SourceFile, rest: seq<SourceFile>)
    ensures Blocks([file] + rest) == [Block(file)] + Blocks(rest)
  {
    assert ([file] + rest)[1..] == rest;
  }

  lemma {:induction false} BlockTexts(files: seq<SourceFile>)
    ensures PartLines(Blocks(files)) == AllLines(FilePieces(files))
  {
    if files != [] {
      assert files == [files[0]] + files[1..];
      BlocksOfCons(files[0], files[1..]);
      PartLinesOfCons(Block(files[0]), Blocks(files[1..]));
      BlockTexts(files[1..]);
      AllOfCons(FilePiece(files[0]), FilePieces(files[1..]));
    }
  }

  lemma ChapterLines(section: string, files: seq<SourceFile>)
    ensures PartLines([section] + Blocks(files)) == AllLines(Chapter(section, files))
  {
    PartLinesOfCons(section, Blocks(files));
    BlockTexts(files);
    AllOfCons(SectionPiece(section), FilePieces(files));
  }

  lemma ChaptersLines(prose: string, c: string, created: seq<SourceFile>, m: string, modified: seq<SourceFile>)
    ensures PartLines([prose] + (([c] + Blocks(created)) + ([m] + Blocks(modified))))
         == AllLines([SectionPiece(prose)] + Chapters(c, created, m, modified))
  {
    PartLinesOfCons(prose, ([c] + Blocks(created)) + ([m] + Blocks(modified)));
    PartLinesConcat([c] + Blocks(created), [m] + Blocks(modified));
    ChapterLines(c, created);
    ChapterLines(m, modified);
    AllOfConcat(Chapter(c, created), Chapter(m, modified));
    AllOfCons(SectionPiece(prose), Chapters(c, created, m, modified));
  }

  lemma GroupParts(prose: string, c: string, created: seq<string>, m: string, modified: seq<string>)
    ensures [prose, c] + created + [m] + modified == [prose] + (([c] + created) + ([m] + modified))
  {
  }

  lemma DocumentLines(prose: string, created: seq<SourceFile>, modified: seq<SourceFile>)
    ensures Lines(Document(prose, created, modified)) == AllLines(DocumentPieces(prose, created, modified))
  {
    var c, m := CREATED + "\n", MODIFIED + "\n";
    LinesOfParts(Parts(prose, created, modified));
    GroupParts(prose, c, Blocks(created), m, Blocks(modified));
    ChaptersLines(prose, c, created, m, modified);
  }

  lemma {:induction false} ExpectedConcat(a: seq<SourceFile>, b: seq<SourceFile>)
    ensures Expected(a + b) == Expected(a) + Expected(b)
  {
    if a == [] {
      assert a + b == b;
    } else {
      assert (a + b)[1..] == a[1..] + b;
      ExpectedConcat(a[1..], b);
    }
  }

  lemma ChapterDecides(section: string, files: seq<SourceFile>)
    requires Yields(READER, Lines(section), []) && AllPrintable(files)
    ensures var pieces := Chapter(section, files);
      && Decided(READER, pieces) && AllExpected(pieces) == Expected(files)
      && (NoneBreaks(files) <==> AllGood(READER, pieces))
  {
    FilePiecesDecide(files);
    DecideCons(SectionPiece(section), FilePieces(files));
    AllOfCons(SectionPiece(section), FilePieces(files));
    assert [] + Expected(files) == Expected(files);
  }

  lemma DecideConcat(a: seq<DocumentPiece>, b: seq<DocumentPiece>)
    ensures Decided(READER, a + b) <==> Decided(READER, a) && Decided(READER, b)
    ensures AllGood(READER, a + b) <==> AllGood(READER, a) && AllGood(READER, b)
  {
    assert forall i | 0 <= i < |a| :: (a + b)[i] == a[i];
    assert forall i | 0 <= i < |b| :: (a + b)[|a| + i] == b[i];
  }

  lemma ChaptersDecide(c: string, created: seq<SourceFile>, m: string, modified: seq<SourceFile>)
    requires Yields(READER, Lines(c), []) && Yields(READER, Lines(m), [])
    requires AllPrintable(created) && AllPrintable(modified)
    ensures var pieces := Chapters(c, created, m, modified);
      && Decided(READER, pieces) && AllExpected(pieces) == Expected(created + modified)
      && (NoneBreaks(created + modified) <==> AllGood(READER, pieces))
  {
    ChapterDecides(c, created);
    ChapterDecides(m, modified);
    DecideConcat(Chapter(c, created), Chapter(m, modified));
    AllOfConcat(Chapter(c, created), Chapter(m, modified));
    ExpectedConcat(created, modified);
    assert NoneBreaks(created + modified) <==> NoneBreaks(created) && NoneBreaks(modified);
  }

  /** The document round trip: under prose that opens no fence, a reader recovers every path with
      its normalised text, in order and nothing else, exactly when no body has a line that closes
      its fence. */
  lemma DocumentRoundTrip(prose: string, created: seq<SourceFile>, modified: seq<SourceFile>)
    requires Quiet(Lines(prose)) && AllPrintable(created) && AllPrintable(modified)
    ensures ReadDocument(Document(prose, created, modified)) == Expected(created + modified)
       <==> NoneBreaks(created + modified)
  {
    var c, m := CREATED + "\n", MODIFIED + "\n";
    var chapters := Chapters(c, created, m, modified);
    DocumentLines(prose, created, modified);
    QuietYields(Lines(prose));
    SectionsYield();
    ChaptersDecide(c, created, m, modified);
    DecideCons(SectionPiece(prose), chapters);
    AllOfCons(SectionPiece(prose), chapters);
    assert [] + Expected(created + modified) == Expected(created + modified);
    PiecesRoundTrip(DocumentPieces(prose, created, modified));
  }

  lemma PiecesRoundTrip(pieces: seq<DocumentPiece>)
    requires Decided(READER, pieces)
    ensures Finish(Read(START, AllLines(pieces))) == AllExpected(pieces) <==> AllGood(READER, pieces)
  {
    if AllGood(READER, pieces) {
      GoodPiecesRoundTrip(pieces);
    } else {
      BadPiecesDiffer(pieces);
    }
  }

  lemma GoodPiecesRoundTrip(pieces: seq<DocumentPiece>)
    requires AllGood(READER, pieces)
    ensures Finish(Read(START, AllLines(pieces))) == AllExpected(pieces)
  {
    assert READER.idle(START) && READER.out(START) == [];
    GoodPiecesRead(READER, START, pieces);
    assert [] + AllExpected(pieces) == AllExpected(pieces);
  }

  lemma BadPiecesDiffer(pieces: seq<DocumentPiece>)
    requires Decided(READER, pieces) && !AllGood(READER, pieces)
    ensures Finish(Read(START, AllLines(pieces))) != AllExpected(pieces)
  {
    ReaderIsMonotone();
    assert READER.idle(START) && READER.out(START) == [];
    var k := BadPieceShows(READER, START, pieces);
    var final := Read(START, AllLines(pieces));
    assert Finish(final)[k] == final.out[k];
  }
}
