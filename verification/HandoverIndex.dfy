/** The index over earlier handover documents, and the count that checks a fresh one. */
module HandoverIndex {
  import opened Sequences
  import opened TextLines
  import opened Folding
  import opened HandoverDocument

  datatype Entry = Entry(path: string, count: nat)
  datatype Handover = Missing | Handover(text: string)

  // ----- What the heading pattern matches

  /** The longest run of digits at the start. */
  function Digits(s: string): (digits: string)
    ensures digits <= s && forall c | c in digits :: IsDigit(c)
  {
    if s != "" && IsDigit(s[0]) then [s[0]] + Digits(s[1..]) else ""
  }

  /** Whether ` (digits lines)` stands at the start. */
  predicate CountStands(s: string) {
    && " (" <= s
    && Digits(s[2..]) != ""
    && " lines)" <= s[2 + |Digits(s[2..])|..]
  }

  /** The entry whose count stands at `p`. */
  function EntryAt(rest: string, p: nat): Entry
    requires p <= |rest| && CountStands(rest[p..])
  {
    Entry(Strip(rest[..p]), ValueOf(Digits(rest[p..][2..])))
  }

  /** The shortest path of at least `p` characters that a count follows. */
  function Shortest(rest: string, p: nat): seq<Entry>
    decreases |rest| - p
  {
    if p >= |rest| then []
    else if CountStands(rest[p..]) then [EntryAt(rest, p)]
    else Shortest(rest, p + 1)
  }

  function Match(line: string): seq<Entry> {
    if FILE_MARK <= line then Shortest(line[|FILE_MARK|..], 1) else []
  }

  function Entries(lines: seq<string>): seq<Entry> {
    if lines == [] then [] else Match(lines[0]) + Entries(lines[1..])
  }

  // ----- The table of baselines

  function DocumentEntries(document: Handover): seq<Entry> {
    if document.Missing? then [] else Entries(Lines(document.text))
  }

  function AllEntries(documents: seq<Handover>): seq<Entry> {
    if documents == [] then [] else DocumentEntries(documents[0]) + AllEntries(documents[1..])
  }

  /** The table in which an earlier entry overrides every later one. */
  function FirstWins(entries: seq<Entry>): map<string, nat> {
    if entries == [] then map[] else FirstWins(entries[1..])[entries[0].path := entries[0].count]
  }

  function Table(documents: seq<Handover>): map<string, nat> {
    FirstWins(AllEntries(documents))
  }

  /** `table.setdefault(path, count)` */
  function SetDefault(table: map<string, nat>, entry: Entry): map<string, nat> {
    if entry.path in table then table else table[entry.path := entry.count]
  }

  lemma {:induction false} ShortestIsAtMostOne(rest: string, p: nat)
    ensures |Shortest(rest, p)| <= 1
    decreases |rest| - p
  {
    if p < |rest| && !CountStands(rest[p..]) {
      ShortestIsAtMostOne(rest, p + 1);
    }
  }

  lemma MatchIsAtMostOne(line: string)
    ensures |Match(line)| <= 1
  {
    if FILE_MARK <= line {
      ShortestIsAtMostOne(line[|FILE_MARK|..], 1);
    }
  }

  lemma {:induction false} FirstWinsConcat(a: seq<Entry>, b: seq<Entry>)
    ensures FirstWins(a + b) == FirstWins(b) + FirstWins(a)
  {
    if a == [] {
      assert a + b == b;
    } else {
      assert (a + b)[1..] == a[1..] + b;
      FirstWinsConcat(a[1..], b);
    }
  }

  lemma {:induction false} AllEntriesConcat(a: seq<Handover>, b: seq<Handover>)
    ensures AllEntries(a + b) == AllEntries(a) + AllEntries(b)
  {
    if a == [] {
      assert a + b == b;
    } else {
      assert (a + b)[1..] == a[1..] + b;
      AllEntriesConcat(a[1..], b);
    }
  }

  /** What setting defaults for `entries`, in order, makes of a table. */
  function WithDefaults(table: map<string, nat>, entries: seq<Entry>): map<string, nat> {
    FirstWins(entries) + table
  }

  lemma {:induction false} EntriesConcat(a: seq<string>, b: seq<string>)
    ensures Entries(a + b) == Entries(a) + Entries(b)
  {
    if a == [] {
      assert a + b == b;
    } else {
      assert (a + b)[1..] == a[1..] + b;
      EntriesConcat(a[1..], b);
      assert Match(a[0]) + (Entries(a[1..]) + Entries(b)) == Match(a[0]) + Entries(a[1..]) + Entries(b);
    }
  }

  lemma LineRecorded(lines: seq<string>, j: nat)
    requires j < |lines|
    ensures Entries(lines[..j + 1]) == Entries(lines[..j]) + Match(lines[j])
  {
    assert lines[..j + 1] == lines[..j] + [lines[j]];
    EntriesConcat(lines[..j], [lines[j]]);
    assert [lines[j]][1..] == [];
    assert Match(lines[j]) + [] == Match(lines[j]);
  }

  lemma DefaultSet(table: map<string, nat>, entries: seq<Entry>, found: seq<Entry>)
    requires |found| <= 1
    ensures WithDefaults(table, entries + found)
         == if found == [] then WithDefaults(table, entries) else SetDefault(WithDefaults(table, entries), found[0])
  {
    FirstWinsConcat(entries, found);
    if found == [] {
      assert entries + found == entries;
    } else {
      assert found == [found[0]];
      assert FirstWins(found) == map[found[0].path := found[0].count];
    }
  }

  lemma DocumentRecorded(documents: seq<Handover>, i: nat)
    requires i < |documents|
    ensures Table(documents[..i + 1]) == WithDefaults(Table(documents[..i]), DocumentEntries(documents[i]))
  {
    assert documents[..i + 1] == documents[..i] + [documents[i]];
    AllEntriesConcat(documents[..i], [documents[i]]);
    assert [documents[i]][1..] == [];
    assert AllEntries([documents[i]]) == DocumentEntries(documents[i]);
    FirstWinsConcat(AllEntries(documents[..i]), DocumentEntries(documents[i]));
  }

  /** The inner loop: the defaults that the headings of one document set. */
  method SetDefaults(before: map<string, nat>, text: string) returns (table: map<string, nat>)
    ensures table == WithDefaults(before, Entries(Lines(text)))
  {
    table := before;
    var lines := Lines(text);
    assert lines[..0] == [] && WithDefaults(before, []) == before;
    for j := 0 to |lines|
      invariant table == WithDefaults(before, Entries(lines[..j]))
    {
      var found := Match(lines[j]);
      MatchIsAtMostOne(lines[j]);
      LineRecorded(lines, j);
      DefaultSet(before, Entries(lines[..j]), found);
      if found != [] {
        table := SetDefault(table, found[0]);
      }
    }
    assert lines[..|lines|] == lines;
  }

  /** Documents come newest first; missing ones are skipped. */
  method Baselines(documents: seq<Handover>) returns (table: map<string, nat>)
    ensures table == Table(documents)
  {
    table := map[];
    assert documents[..0] == [];
    for i := 0 to |documents|
      invariant table == Table(documents[..i])
    {
      DocumentRecorded(documents, i);
      if documents[i].Missing? {
        assert WithDefaults(table, []) == table;
        continue;
      }
      table := SetDefaults(table, documents[i].text);
    }
    assert documents[..|documents|] == documents;
  }

  /** However the documents are split, what the newer ones record overrides the older ones. */
  lemma NewestWins(newer: seq<Handover>, older: seq<Handover>)
    ensures Table(newer + older) == Table(older) + Table(newer)
  {
    AllEntriesConcat(newer, older);
    FirstWinsConcat(AllEntries(newer), AllEntries(older));
  }

  // ----- The emission count

  /** How many lines start with `mark`. */
  function Starting(lines: seq<string>, mark: string): nat {
    if lines == [] then 0 else (if mark <= lines[0] then 1 else 0) + Starting(lines[1..], mark)
  }

  lemma StartingOfCons(line: string, lines: seq<string>, mark: string)
    ensures Starting([line] + lines, mark) == (if mark <= line then 1 else 0) + Starting(lines, mark)
  {
    assert ([line] + lines)[1..] == lines;
  }

  lemma {:induction false} StartingOfConcat(a: seq<string>, b: seq<string>, mark: string)
    ensures Starting(a + b, mark) == Starting(a, mark) + Starting(b, mark)
  {
    if a == [] {
      assert a + b == b;
    } else {
      assert (a + b)[1..] == a[1..] + b;
      StartingOfConcat(a[1..], b, mark);
    }
  }

  lemma {:induction false} NoneStarts(lines: seq<string>, mark: string)
    ensures Starting(lines, mark) == 0 <==> forall line | line in lines :: !(mark <= line)
  {
    if lines != [] {
      NoneStarts(lines[1..], mark);
      assert forall line | line in lines[1..] :: line in lines;
      assert forall line | line in lines :: line == lines[0] || line in lines[1..];
      assert lines[0] in lines;
    }
  }

  lemma CountSkips(c: char, text: string, part: string)
    requires part != "" && !(part <= [c] + text)
    ensures Count([c] + text, part) == Count(text, part)
  {
    assert ([c] + text)[1..] == text;
  }

  lemma CountFinds(part: string, text: string)
    requires part != ""
    ensures Count(part + text, part) == 1 + Count(text, part)
  {
    assert (part + text)[|part|..] == text;
  }

  /** Counting a newline and a mark counts the lines after the first that start with the mark. */
  lemma {:induction false} CountIsLines(text: string, mark: string)
    requires '\n' !in mark
    ensures Count(text, "\n" + mark) == Starting(Lines(text)[1..], mark)
    decreases |text|
  {
    if text == "" {
    } else if "\n" + mark <= text {
      var rest := text[|"\n" + mark|..];
      assert text == ("\n" + mark) + rest;
      assert text == ['\n'] + (mark + rest);
      CountFinds("\n" + mark, rest);
      CountIsLines(rest, mark);
      LinesOfCons('\n', mark + rest);
      LinesOfPrefixed(mark, rest);
      assert Lines(text)[1..] == [mark + Lines(rest)[0]] + Lines(rest)[1..];
      StartingOfCons(mark + Lines(rest)[0], Lines(rest)[1..], mark);
    } else {
      var c, rest := text[0], text[1..];
      assert text == [c] + rest;
      CountSkips(c, rest, "\n" + mark);
      CountIsLines(rest, mark);
      LinesOfCons(c, rest);
      if c == '\n' {
        assert !(mark <= rest) by {
          assert mark <= rest ==> "\n" + mark <= ['\n'] + rest;
        }
        FirstLineStartsWith(rest, mark);
        assert Lines(text)[1..] == [Lines(rest)[0]] + Lines(rest)[1..];
        StartingOfCons(Lines(rest)[0], Lines(rest)[1..], mark);
      } else {
        assert Lines(text)[1..] == Lines(rest)[1..];
      }
    }
  }

  lemma NotMarked(line: string)
    requires line == "" || line[0] != '#'
    ensures !(FILE_MARK <= line)
  {
    assert FILE_MARK[0] == '#';
  }

  lemma UnmarkedLines(lines: seq<string>)
    requires forall line | line in lines :: line == "" || line[0] != '#'
    ensures Starting(lines, FILE_MARK) == 0
  {
    forall line | line in lines
      ensures !(FILE_MARK <= line)
    {
      NotMarked(line);
    }
    NoneStarts(lines, FILE_MARK);
  }

  lemma RestIsUnmarked(note: string, fence: string)
    requires fence != "" && fence[0] == '`'
    ensures Starting(["", "*" + note + "*", "", fence], FILE_MARK) == 0
  {
    UnmarkedLines(["", "*" + note + "*", "", fence]);
  }

  lemma FenceIsUnmarked(file: SourceFile)
    ensures Ticks(file) + Info(file) != "" && (Ticks(file) + Info(file))[0] == '`'
  {
    assert Ticks(file)[0] == '`';
  }

  lemma HeadingIsMarked(file: SourceFile)
    ensures FILE_MARK <= Heading(file)
  {
    assert Heading(file) == FILE_MARK + (file.path + " (" + Decimal(|SplitLines(file.text)|) + " lines)");
  }

  lemma FrontStarts(file: SourceFile)
    ensures Front(file) == [Heading(file)] + Front(file)[1..]
    ensures FILE_MARK <= Heading(file)
    ensures Starting(Front(file)[1..], FILE_MARK) == 0
  {
    HeadingIsMarked(file);
    FenceIsUnmarked(file);
    RestIsUnmarked(file.note, Ticks(file) + Info(file));
    assert Front(file)[1..] == ["", "*" + file.note + "*", "", Ticks(file) + Info(file)];
  }

  /** A block adds its heading to the marked lines of its body. */
  lemma BlockStarts(file: SourceFile)
    requires Printable(file)
    ensures Starting(Lines(Block(file)), FILE_MARK) == 1 + Starting(Lines(Body(file)), FILE_MARK)
  {
    var back := [Ticks(file), "", ""];
    BlockLines(file);
    FrontStarts(file);
    UnmarkedLines(back);
    StartingOfConcat(Front(file), Lines(Body(file)) + back, FILE_MARK);
    StartingOfCons(Heading(file), Front(file)[1..], FILE_MARK);
    StartingOfConcat(Lines(Body(file)), back, FILE_MARK);
  }

  lemma {:induction false} BodyStarts(text: string)
    ensures Starting(Lines(WithoutTrailingNewlines(text)), FILE_MARK) == Starting(Lines(text), FILE_MARK)
  {
    if text != "" && text[|text| - 1] == '\n' {
      var shorter := text[..|text| - 1];
      assert text == shorter + ("\n" + "");
      LinesOfJoined(shorter, "");
      SingleLine("");
      StartingOfConcat(Lines(shorter), [""], FILE_MARK);
      UnmarkedLines([""]);
      BodyStarts(shorter);
    }
  }

  /** How many lines of the embedded bodies look like file headings. */
  function Excess(files: seq<SourceFile>): nat {
    if files == [] then 0 else Starting(Lines(files[0].text), FILE_MARK) + Excess(files[1..])
  }

  lemma {:induction false} FilesStart(files: seq<SourceFile>)
    requires AllPrintable(files)
    ensures Starting(AllLines(FilePieces(files)), FILE_MARK) == |files| + Excess(files)
  {
    if files != [] {
      assert files[0] in files;
      BlockStarts(files[0]);
      BodyStarts(files[0].text);
      AllOfCons(FilePiece(files[0]), FilePieces(files[1..]));
      StartingOfConcat(Lines(Block(files[0])), AllLines(FilePieces(files[1..])), FILE_MARK);
      FilesStart(files[1..]);
    }
  }

  predicate HoldsHeading(file: SourceFile) {
    exists line | line in Lines(file.text) :: FILE_MARK <= line
  }

  lemma {:induction false} ExcessIsNone(files: seq<SourceFile>)
    ensures Excess(files) == 0 <==> forall file | file in files :: !HoldsHeading(file)
  {
    if files != [] {
      NoneStarts(Lines(files[0].text), FILE_MARK);
      ExcessIsNone(files[1..]);
      assert files[0] in files && forall file | file in files[1..] :: file in files;
      assert forall file | file in files :: file == files[0] || file in files[1..];
    }
  }

  lemma {:induction false} ExcessOfConcat(a: seq<SourceFile>, b: seq<SourceFile>)
    ensures Excess(a + b) == Excess(a) + Excess(b)
  {
    if a == [] {
      assert a + b == b;
    } else {
      assert (a + b)[1..] == a[1..] + b;
      ExcessOfConcat(a[1..], b);
    }
  }

  /** The lines of a section title hold no file heading. */
  lemma SectionStarts(section: string)
    requires '\n' !in section && !(FILE_MARK <= section)
    ensures Starting(Lines(section + "\n"), FILE_MARK) == 0
  {
    assert section + "\n" == section + ("\n" + "");
    LinesOfJoined(section, "");
    SingleLine(section);
    SingleLine("");
    NotMarked("");
    NoneStarts([section] + [""], FILE_MARK);
  }

  lemma TitlesStart()
    ensures Starting(Lines(CREATED + "\n"), FILE_MARK) == 0
    ensures Starting(Lines(MODIFIED + "\n"), FILE_MARK) == 0
  {
    CreatedIsOneLine();
    ModifiedIsOneLine();
    assert CREATED[3] == 'C' && MODIFIED[3] == 'M' && FILE_MARK[3] == 'F';
    SectionStarts(CREATED);
    SectionStarts(MODIFIED);
  }

  lemma ChapterStarts(section: string, files: seq<SourceFile>)
    requires AllPrintable(files) && Starting(Lines(section), FILE_MARK) == 0
    ensures Starting(AllLines(Chapter(section, files)), FILE_MARK) == |files| + Excess(files)
  {
    AllOfCons(SectionPiece(section), FilePieces(files));
    StartingOfConcat(Lines(section), AllLines(FilePieces(files)), FILE_MARK);
    FilesStart(files);
  }

  lemma ChaptersStart(c: string, created: seq<SourceFile>, m: string, modified: seq<SourceFile>)
    requires AllPrintable(created) && AllPrintable(modified)
    requires Starting(Lines(c), FILE_MARK) == 0 && Starting(Lines(m), FILE_MARK) == 0
    ensures Starting(AllLines(Chapters(c, created, m, modified)), FILE_MARK)
         == |created + modified| + Excess(created + modified)
  {
    ChapterStarts(c, created);
    ChapterStarts(m, modified);
    AllOfConcat(Chapter(c, created), Chapter(m, modified));
    StartingOfConcat(AllLines(Chapter(c, created)), AllLines(Chapter(m, modified)), FILE_MARK);
    ExcessOfConcat(created, modified);
  }

  /** What `main` compares with the number of files. */
  function Emitted(text: string): nat {
    Count(text, "\n" + FILE_MARK)
  }

  predicate ProseIsFree(prose: string) {
    forall line | line in Lines(prose) :: !(FILE_MARK <= line)
  }

  lemma EmittedAfter(text: string, first: seq<string>, rest: seq<string>)
    requires first != [] && Lines(text) == first + rest
    requires forall line | line in first :: !(FILE_MARK <= line)
    ensures Emitted(text) == Starting(rest, FILE_MARK)
  {
    MarkIsOneLine();
    CountIsLines(text, FILE_MARK);
    assert (first + rest)[1..] == first[1..] + rest;
    StartingOfConcat(first[1..], rest, FILE_MARK);
    assert forall line | line in first[1..] :: line in first;
    NoneStarts(first[1..], FILE_MARK);
  }

  lemma EmittedIsExact(prose: string, created: seq<SourceFile>, modified: seq<SourceFile>)
    requires ProseIsFree(prose) && AllPrintable(created) && AllPrintable(modified)
    ensures Emitted(Document(prose, created, modified)) == |created + modified| + Excess(created + modified)
  {
    var c, m := CREATED + "\n", MODIFIED + "\n";
    TitlesStart();
    ChaptersStart(c, created, m, modified);
    DocumentLines(prose, created, modified);
    AllOfCons(SectionPiece(prose), Chapters(c, created, m, modified));
    EmittedAfter(Document(prose, created, modified), Lines(prose), AllLines(Chapters(c, created, m, modified)));
  }

  lemma MarkIsOneLine()
    ensures '\n' !in FILE_MARK
  {
  }

  /** The emission check passes exactly when no embedded text has a line that looks like a file
      heading. */
  lemma EmissionCheck(prose: string, created: seq<SourceFile>, modified: seq<SourceFile>)
    requires ProseIsFree(prose) && AllPrintable(created) && AllPrintable(modified)
    ensures Emitted(Document(prose, created, modified)) == |created| + |modified|
       <==> forall file | file in created + modified :: !HoldsHeading(file)
  {
    EmittedIsExact(prose, created, modified);
    ExcessIsNone(created + modified);
  }

  // ----- Reading a document back into the index

  lemma {:induction false} NoEntries(lines: seq<string>)
    requires Starting(lines, FILE_MARK) == 0
    ensures Entries(lines) == []
  {
    if lines != [] {
      NoEntries(lines[1..]);
    }
  }

  lemma EntriesOfCons(line: string, rest: seq<string>)
    ensures Entries([line] + rest) == Match(line) + Entries(rest)
  {
    assert ([line] + rest)[1..] == rest;
  }

  lemma HeadEntries(line: string, a: seq<string>, b: seq<string>, c: seq<string>)
    requires Starting(a, FILE_MARK) == 0 && Starting(b, FILE_MARK) == 0 && Starting(c, FILE_MARK) == 0
    ensures Entries([line] + a + (b + c)) == Match(line)
  {
    EntriesConcat(b, c);
    EntriesConcat(a, b + c);
    NoEntries(a);
    NoEntries(b);
    NoEntries(c);
    EntriesOfCons(line, a + (b + c));
    Associate([line], a, b + c);
  }

  lemma BlockEntries(file: SourceFile)
    requires Printable(file) && !HoldsHeading(file)
    ensures Entries(Lines(Block(file))) == Match(Heading(file))
  {
    BlockLines(file);
    FrontStarts(file);
    NoneStarts(Lines(file.text), FILE_MARK);
    BodyStarts(file.text);
    UnmarkedLines([Ticks(file), "", ""]);
    HeadEntries(Heading(file), Front(file)[1..], Lines(Body(file)), [Ticks(file), "", ""]);
  }

  lemma {:induction false} DigitsStop(digits: string, rest: string)
    requires forall c | c in digits :: IsDigit(c)
    requires rest == "" || !IsDigit(rest[0])
    ensures Digits(digits + rest) == digits
  {
    if digits == "" {
      assert digits + rest == rest;
    } else {
      assert digits[0] in digits;
      assert (digits + rest)[1..] == digits[1..] + rest;
      DigitsStop(digits[1..], rest);
    }
  }

  lemma {:induction false} DigitsLocal(s: string, rest: string)
    requires rest == "" || !IsDigit(rest[0])
    ensures Digits(s + rest) == Digits(s)
  {
    if s == "" {
      assert s + rest == rest;
    } else {
      assert (s + rest)[1..] == s[1..] + rest;
      DigitsLocal(s[1..], rest);
    }
  }

  function Counted(n: nat): string {
    " (" + Decimal(n) + " lines)"
  }

  lemma CountStandsOn(digits: string)
    requires digits != "" && forall c | c in digits :: IsDigit(c)
    ensures var s := " (" + digits + " lines)"; CountStands(s) && Digits(s[2..]) == digits
  {
    var s := " (" + digits + " lines)";
    assert s[2..] == digits + " lines)" && s[2 + |digits|..] == " lines)";
    DigitsStop(digits, " lines)");
  }

  lemma CountStandsAt(n: nat)
    ensures CountStands(Counted(n)) && ValueOf(Digits(Counted(n)[2..])) == n
  {
    DecimalRoundTrip(n);
    CountStandsOn(Decimal(n));
  }

  lemma CountStartsInside(s: string, u: string)
    requires |s| >= 2 && " (" <= s && " (" <= u
    ensures CountStands(s + u) <==> CountStands(s)
  {
    var digits := Digits(s[2..]);
    assert (s + u)[2..] == s[2..] + u && u[0] == ' ';
    DigitsLocal(s[2..], u);
    var v := s[2 + |digits|..];
    assert (s + u)[2 + |digits|..] == v + u;
    CountEndsInside(v, u);
  }

  /** A count that starts inside a path ends inside it. */
  lemma CountIsLocal(s: string, n: nat)
    requires s != ""
    ensures CountStands(s + Counted(n)) <==> CountStands(s)
  {
    var u := Counted(n);
    assert u[0] == ' ' && u[1] == '(';
    if |s| == 1 {
      assert (s + u)[1] == ' ';
    } else if " (" <= s {
      CountStartsInside(s, u);
    }
  }

  lemma CountEndsInside(v: string, u: string)
    requires " (" <= u
    ensures " lines)" <= v + u <==> " lines)" <= v
  {
    if |v| < 7 {
      assert (v + u)[|v|] == ' ' && (v + u)[|v| + 1] == '(';
    }
  }

  lemma {:induction false} ShortestIs(rest: string, p: nat, q: nat) returns (k: nat)
    requires p <= q < |rest| && CountStands(rest[q..])
    ensures p <= k <= q && CountStands(rest[k..]) && forall i | p <= i < k :: !CountStands(rest[i..])
    ensures Shortest(rest, p) == [EntryAt(rest, k)]
    decreases q - p
  {
    if CountStands(rest[p..]) {
      k := p;
    } else {
      k := ShortestIs(rest, p + 1, q);
    }
  }

  lemma {:induction false} StripShortens(text: string)
    ensures |Strip(text)| <= |text|
  {
    if text != "" && IsSpace(text[0]) {
      StripShortens(text[1..]);
    } else if text != "" && IsSpace(text[|text| - 1]) {
      StripShortens(text[..|text| - 1]);
    }
  }

  /** What the index needs of a path: it is not empty, has no space around it, and holds no
      ` (digits lines)` past its first character. */
  predicate Indexable(path: string) {
    && path != "" && Strip(path) == path
    && forall p | 1 <= p < |path| :: !CountStands(path[p..])
  }

  function EntryOf(file: SourceFile): Entry {
    Entry(file.path, |SplitLines(file.text)|)
  }

  lemma MatchOfHeading(file: SourceFile)
    ensures Match(Heading(file)) == Shortest(file.path + Counted(|SplitLines(file.text)|), 1)
  {
    var rest := file.path + Counted(|SplitLines(file.text)|);
    assert Heading(file) == FILE_MARK + rest;
    assert Heading(file)[|FILE_MARK|..] == rest;
  }

  /** The heading of a file is indexed under its path with its count exactly when the path is
      indexable. */
  lemma HeadingIsIndexed(file: SourceFile)
    ensures Match(Heading(file)) == [EntryOf(file)] <==> Indexable(file.path)
  {
    var n := |SplitLines(file.text)|;
    MatchOfHeading(file);
    if file.path == "" {
      assert file.path + Counted(n) == Counted(n);
      NothingBeforeCount(n);
    } else {
      PathIsIndexed(file.path, n);
    }
  }

  lemma NothingBeforeCount(n: nat)
    ensures Shortest(Counted(n), 1) == []
  {
    DecimalRoundTrip(n);
    var rest := Counted(n);
    forall i | 2 <= i < |rest|
      ensures rest[i] != '('
    {
      assert rest[i] == (Decimal(n) + " lines)")[i - 2];
      assert i - 2 < |Decimal(n)| ==> rest[i] in Decimal(n);
    }
    NoCountLeft(rest, 1);
  }

  lemma {:induction false} NoCountLeft(rest: string, p: nat)
    requires forall i | p < i < |rest| :: rest[i] != '('
    ensures Shortest(rest, p) == []
    decreases |rest| - p
  {
    if p < |rest| {
      assert !(" (" <= rest[p..]) by {
        assert p + 1 < |rest| ==> rest[p..][1] == rest[p + 1];
      }
      NoCountLeft(rest, p + 1);
    }
  }

  lemma CountsInside(path: string, n: nat, p: nat)
    requires p < |path|
    ensures CountStands((path + Counted(n))[p..]) <==> CountStands(path[p..])
  {
    assert (path + Counted(n))[p..] == path[p..] + Counted(n);
    CountIsLocal(path[p..], n);
  }

  lemma PathIsIndexed(path: string, n: nat)
    requires path != ""
    ensures Shortest(path + Counted(n), 1) == [Entry(path, n)] <==> Indexable(path)
  {
    var rest := path + Counted(n);
    CountStandsAt(n);
    assert rest[|path|..] == Counted(n);
    var k := ShortestIs(rest, 1, |path|);
    if k < |path| {
      CountsInside(path, n, k);
      StripShortens(rest[..k]);
    } else {
      assert rest[..k] == path;
      forall p | 1 <= p < |path|
        ensures !CountStands(path[p..])
      {
        CountsInside(path, n, p);
      }
    }
  }

  function EntriesOf(files: seq<SourceFile>): seq<Entry> {
    seq(|files|, i requires 0 <= i < |files| => EntryOf(files[i]))
  }

  /** The document records the file under its path with its number of lines. */
  predicate IsIndexed(file: SourceFile) {
    Entries(Lines(Block(file))) == [EntryOf(file)]
  }

  ghost predicate AllIndexed(files: seq<SourceFile>) {
    forall file | file in files :: IsIndexed(file)
  }

  lemma BlockIsIndexed(file: SourceFile)
    requires Printable(file) && Indexable(file.path) && !HoldsHeading(file)
    ensures IsIndexed(file)
  {
    BlockEntries(file);
    HeadingIsIndexed(file);
  }

  lemma PiecesEntries(a: seq<DocumentPiece>, b: seq<DocumentPiece>)
    ensures Entries(AllLines(a + b)) == Entries(AllLines(a)) + Entries(AllLines(b))
  {
    AllOfConcat(a, b);
    EntriesConcat(AllLines(a), AllLines(b));
  }

  lemma EntriesOfFirst(file: SourceFile, rest: seq<SourceFile>)
    ensures EntriesOf([file] + rest) == [EntryOf(file)] + EntriesOf(rest)
  {
  }

  lemma LinesOfOne(piece: DocumentPiece)
    ensures AllLines([piece]) == piece.lines
  {
    assert [piece][1..] == [] && piece.lines + [] == piece.lines;
  }

  lemma {:induction false} FileEntries(files: seq<SourceFile>)
    requires AllIndexed(files)
    ensures Entries(AllLines(FilePieces(files))) == EntriesOf(files)
  {
    if files != [] {
      assert files[0] in files;
      assert IsIndexed(files[0]);
      PiecesEntries([FilePiece(files[0])], FilePieces(files[1..]));
      LinesOfOne(FilePiece(files[0]));
      FileEntries(files[1..]);
      EntriesOfFirst(files[0], files[1..]);
      assert files == [files[0]] + files[1..];
    }
  }

  lemma ChapterEntries(section: string, files: seq<SourceFile>)
    requires AllIndexed(files) && Starting(Lines(section), FILE_MARK) == 0
    ensures Entries(AllLines(Chapter(section, files))) == EntriesOf(files)
  {
    AllOfCons(SectionPiece(section), FilePieces(files));
    EntriesConcat(Lines(section), AllLines(FilePieces(files)));
    NoEntries(Lines(section));
    FileEntries(files);
    assert [] + EntriesOf(files) == EntriesOf(files);
  }

  lemma EntriesOfConcat(a: seq<SourceFile>, b: seq<SourceFile>)
    ensures EntriesOf(a + b) == EntriesOf(a) + EntriesOf(b)
  {
  }

  lemma ChaptersEntries(c: string, created: seq<SourceFile>, m: string, modified: seq<SourceFile>)
    requires AllIndexed(created) && AllIndexed(modified)
    requires Starting(Lines(c), FILE_MARK) == 0 && Starting(Lines(m), FILE_MARK) == 0
    ensures Entries(AllLines(Chapters(c, created, m, modified))) == EntriesOf(created + modified)
  {
    ChapterEntries(c, created);
    ChapterEntries(m, modified);
    PiecesEntries(Chapter(c, created), Chapter(m, modified));
    EntriesOfConcat(created, modified);
  }

  lemma DocumentIsIndexed(prose: string, created: seq<SourceFile>, modified: seq<SourceFile>)
    requires ProseIsFree(prose) && AllIndexed(created) && AllIndexed(modified)
    ensures Entries(Lines(Document(prose, created, modified))) == EntriesOf(created + modified)
  {
    var c, m := CREATED + "\n", MODIFIED + "\n";
    DocumentLines(prose, created, modified);
    AllOfCons(SectionPiece(prose), Chapters(c, created, m, modified));
    EntriesConcat(Lines(prose), AllLines(Chapters(c, created, m, modified)));
    NoneStarts(Lines(prose), FILE_MARK);
    NoEntries(Lines(prose));
    TitlesStart();
    ChaptersEntries(c, created, m, modified);
  }

  predicate DistinctPaths(entries: seq<Entry>) {
    forall i, j | 0 <= i < j < |entries| :: entries[i].path != entries[j].path
  }

  predicate Listed(entries: seq<Entry>, path: string) {
    exists i | 0 <= i < |entries| :: entries[i].path == path
  }

  /** The table holds these entries and no other path. */
  predicate Records(table: map<string, nat>, entries: seq<Entry>) {
    && (forall i | 0 <= i < |entries| :: entries[i].path in table && table[entries[i].path] == entries[i].count)
    && forall path | path in table :: Listed(entries, path)
  }

  lemma RecordsMore(table: map<string, nat>, entry: Entry, rest: seq<Entry>)
    requires Records(table, rest) && DistinctPaths([entry] + rest)
    ensures Records(table[entry.path := entry.count], [entry] + rest)
  {
    var all, more := [entry] + rest, table[entry.path := entry.count];
    forall i | 0 <= i < |all|
      ensures all[i].path in more && more[all[i].path] == all[i].count
    {
      assert i > 0 ==> all[i] == rest[i - 1] && all[0].path != all[i].path;
    }
    forall path | path in more
      ensures Listed(all, path)
    {
      if path == entry.path {
        assert all[0].path == path;
      } else {
        assert Listed(rest, path);
        var i :| 0 <= i < |rest| && rest[i].path == path;
        assert all[i + 1].path == path;
      }
    }
  }

  /** Under distinct paths no entry is overridden. */
  lemma {:induction false} DistinctEntriesAllStay(entries: seq<Entry>)
    requires DistinctPaths(entries)
    ensures Records(FirstWins(entries), entries)
  {
    if entries != [] {
      assert entries == [entries[0]] + entries[1..];
      DistinctEntriesAllStay(entries[1..]);
      RecordsMore(FirstWins(entries[1..]), entries[0], entries[1..]);
    }
  }

  lemma EachIsIndexed(files: seq<SourceFile>)
    requires forall file | file in files :: Printable(file) && Indexable(file.path) && !HoldsHeading(file)
    ensures forall file | file in files :: IsIndexed(file)
  {
    forall file | file in files
      ensures IsIndexed(file)
    {
      BlockIsIndexed(file);
    }
  }

  /** The table of one document with distinct paths records all its entries. */
  lemma OneDocument(document: Handover, entries: seq<Entry>)
    requires DocumentEntries(document) == entries && DistinctPaths(entries)
    ensures Records(Table([document]), entries)
  {
    DistinctEntriesAllStay(entries);
    assert [document][1..] == [];
    assert AllEntries([document]) == entries + [];
    assert entries + [] == entries;
  }

  /** The index round trip: a document that passes the emission check records exactly the printed
      line counts, and they stand in front of whatever older documents record. */
  lemma IndexRoundTrip(prose: string, created: seq<SourceFile>, modified: seq<SourceFile>, older: seq<Handover>)
    requires ProseIsFree(prose) && AllPrintable(created) && AllPrintable(modified)
    requires Emitted(Document(prose, created, modified)) == |created| + |modified|
    requires DistinctPaths(EntriesOf(created + modified))
    requires forall file | file in created + modified :: Indexable(file.path)
    ensures var document := Handover(Document(prose, created, modified));
      && Records(Table([document]), EntriesOf(created + modified))
      && Table([document] + older) == Table(older) + Table([document])
  {
    var document := Handover(Document(prose, created, modified));
    EmissionCheck(prose, created, modified);
    EachIsIndexed(created + modified);
    DocumentIsIndexed(prose, created, modified);
    OneDocument(document, EntriesOf(created + modified));
    NewestWins([document], older);
  }
}
