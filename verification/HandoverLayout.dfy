/** The document line by line, and the parts of it that a reader of fences does not look at: section
    titles, notes and the languages of the fences. */
module HandoverLayout {
  import opened TextLines
  import opened Folding
  import opened HandoverDocument

  // ----- Lines

  /** The lines of one block. */
  function BlockLayout(file: SourceFile): seq<string> {
    ["## FILE: " + file.path + " (" + Decimal(|SplitLines(file.text)|) + " lines)", "",
     "*" + file.note + "*", "",
     Ticks(file) + Info(file)]
    + Lines(WithoutTrailingNewlines(file.text))
    + [Ticks(file), "", ""]
  }

  function BlocksLayout(files: seq<SourceFile>): seq<string> {
    if files == [] then [] else BlockLayout(files[0]) + BlocksLayout(files[1..])
  }

  lemma {:induction false} PiecesLayout(files: seq<SourceFile>)
    requires AllPrintable(files)
    ensures AllLines(FilePieces(files)) == BlocksLayout(files)
  {
    if files != [] {
      assert files[0] in files && forall file | file in files[1..] :: file in files;
      BlockLines(files[0]);
      assert Front(files[0]) + (Lines(Body(files[0])) + [Ticks(files[0]), "", ""]) == BlockLayout(files[0]);
      PiecesLayout(files[1..]);
      AllOfCons(FilePiece(files[0]), FilePieces(files[1..]));
    }
  }

  lemma TitleLines(title: string)
    requires '\n' !in title
    ensures Lines(title + "\n") == [title, ""]
  {
    assert title + "\n" == title + ("\n" + "");
    LinesOfJoined(title, "");
    SingleLine(title);
    SingleLine("");
    assert [title] + [""] == [title, ""];
  }

  lemma ChapterLayout(title: string, files: seq<SourceFile>)
    requires '\n' !in title && AllPrintable(files)
    ensures AllLines(Chapter(title + "\n", files)) == [title, ""] + BlocksLayout(files)
  {
    AllOfCons(SectionPiece(title + "\n"), FilePieces(files));
    TitleLines(title);
    PiecesLayout(files);
  }

  lemma ChaptersLayout(c: string, created: seq<SourceFile>, m: string, modified: seq<SourceFile>)
    requires '\n' !in c && '\n' !in m && AllPrintable(created) && AllPrintable(modified)
    ensures AllLines(Chapters(c + "\n", created, m + "\n", modified))
         == ([c, ""] + BlocksLayout(created)) + ([m, ""] + BlocksLayout(modified))
  {
    AllOfConcat(Chapter(c + "\n", created), Chapter(m + "\n", modified));
    ChapterLayout(c, created);
    ChapterLayout(m, modified);
  }

  lemma Titles()
    ensures CREATED == "## Created in Part 22 (full files)" && '\n' !in CREATED
    ensures MODIFIED == "## Modified in Part 22 " + "(full files, prior content " + "preserved inside)"
    ensures '\n' !in MODIFIED
  {
    CreatedIsOneLine();
    ModifiedIsOneLine();
  }

  /** The lines of a document: the prose, the title of the created files and their blocks, the title of the
      modified files and theirs. */
  lemma DocumentLayout(prose: string, created: seq<SourceFile>, modified: seq<SourceFile>)
    requires AllPrintable(created) && AllPrintable(modified)
    ensures Lines(Document(prose, created, modified))
         == Lines(prose)
          + ((["## Created in Part 22 (full files)", ""] + BlocksLayout(created))
             + (["## Modified in Part 22 " + "(full files, prior content " + "preserved inside)", ""]
                + BlocksLayout(modified)))
  {
    Titles();
    DocumentLines(prose, created, modified);
    AllOfCons(SectionPiece(prose), Chapters(CREATED + "\n", created, MODIFIED + "\n", modified));
    ChaptersLayout(CREATED, created, MODIFIED, modified);
  }

  // ----- Bodies

  /** A body is the text without the newlines at its end, and nothing else is taken from it. */
  lemma {:induction false} BodyIsText(text: string) returns (n: nat)
    ensures text == WithoutTrailingNewlines(text) + seq(n, _ => '\n')
    ensures var body := WithoutTrailingNewlines(text); body == "" || body[|body| - 1] != '\n'
  {
    if text != "" && text[|text| - 1] == '\n' {
      var init := text[..|text| - 1];
      n := BodyIsText(init);
      assert text == init + "\n";
      assert seq(n + 1, _ => '\n') == seq(n, _ => '\n') + "\n";
      n := n + 1;
    } else {
      n := 0;
    }
  }

  /** Four backticks fence a text that holds three, and then the language is given as text; otherwise
      three backticks and the language of the path. */
  lemma FenceOf(file: SourceFile)
    ensures Contains(file.text, "```") ==> Ticks(file) == "````" && Info(file) == "text"
    ensures !Contains(file.text, "```") ==> Ticks(file) == "```" && Info(file) == Language(file.path)
  {
  }

  /** Where newlines are the only line breaks, the printed count is that of the lines, an empty last one
      aside. */
  lemma {:induction false} CountOfLines(text: string)
    requires forall c | c in text && IsLineBreak(c) :: c == '\n'
    ensures SplitLines(text)
         == if text == "" || text[|text| - 1] == '\n' then Lines(text)[..|Lines(text)| - 1] else Lines(text)
  {
    if text != "" {
      var c, rest := text[0], text[1..];
      assert c in text && forall d | d in rest :: d in text;
      CountOfLines(rest);
      assert IsLineBreak('\r') && IsLineBreak('\n') && c != '\r';
      assert text == [c] + rest;
      if rest == "" {
        assert [c] + "" == [c] && Lines("") == [""];
        assert Lines(text) == if c == '\n' then ["", ""] else [text];
      } else {
        assert rest[|rest| - 1] == text[|text| - 1];
      }
    }
  }

  // ----- Languages

  lemma SuffixOfTail(s: string, u: string)
    requires s != "" && EndsWith(s[1..], u)
    ensures EndsWith(s, u)
  {
    assert s[|s| - |u|..] == s[1..][|s| - 1 - |u|..];
  }

  lemma AfterLastStep(s: string, c: char)
    requires s != "" && EndsWith(s[1..], AfterLast(s[1..], c))
    requires c in s[1..] ==> EndsWith(s[1..], [c] + AfterLast(s[1..], c))
    requires c in s
    ensures EndsWith(s, AfterLast(s[1..], c)) && EndsWith(s, [c] + AfterLast(s[1..], c))
  {
    SuffixOfTail(s, AfterLast(s[1..], c));
    if c in s[1..] {
      SuffixOfTail(s, [c] + AfterLast(s[1..], c));
    } else {
      assert s == [c] + s[1..];
    }
  }

  lemma {:induction false} AfterLastMeaning(s: string, c: char)
    ensures c !in AfterLast(s, c) && EndsWith(s, AfterLast(s, c))
    ensures c in s ==> EndsWith(s, [c] + AfterLast(s, c))
    decreases |s|
  {
    if c in s {
      AfterLastMeaning(s[1..], c);
      AfterLastStep(s, c);
    }
  }

  lemma SuffixOfSuffix(s: string, t: string, u: string)
    requires EndsWith(s, t) && EndsWith(t, u)
    ensures EndsWith(s, u)
  {
    assert s[|s| - |u|..] == s[|s| - |t|..][|t| - |u|..];
  }

  /** Of two suffixes of one text the shorter is a suffix of the longer. */
  lemma ShorterSuffix(s: string, t: string, u: string)
    requires EndsWith(s, t) && EndsWith(s, u) && |u| <= |t|
    ensures EndsWith(t, u)
  {
    assert t[|t| - |u|..] == s[|s| - |u|..];
  }

  lemma LongerSuffixHolds(s: string, c: char, t: string, u: string)
    requires EndsWith(s, t) && EndsWith(s, [c] + u) && |u| < |t|
    ensures c in t
  {
    ShorterSuffix(s, t, [c] + u);
    var k := |t| - |u| - 1;
    assert t[k..] == [c] + u && t[k] == t[k..][0];
  }

  /** A suffix without `c` is no longer than one that a `c` precedes. */
  lemma SuffixWithout(s: string, c: char, t: string, u: string)
    requires EndsWith(s, t) && c !in t && EndsWith(s, [c] + u)
    ensures |t| <= |u|
  {
    if |t| > |u| {
      LongerSuffixHolds(s, c, t, u);
    }
  }

  /** What stands behind the last `c`. */
  lemma AfterLastIs(s: string, c: char, t: string)
    requires EndsWith(s, [c] + t) && c !in t
    ensures c in s && AfterLast(s, c) == t
  {
    var last := AfterLast(s, c);
    assert ([c] + t)[1..] == t && s[|s| - |t| - 1] == ([c] + t)[0];
    SuffixOfSuffix(s, [c] + t, t);
    AfterLastMeaning(s, c);
    SuffixWithout(s, c, t, last);
    SuffixWithout(s, c, last, t);
  }

  /** A suffix without a slash is one of the file's name. */
  lemma SuffixOfName(path: string, t: string)
    requires '/' !in t
    ensures EndsWith(AfterLast(path, '/'), t) <==> EndsWith(path, t)
  {
    var name := AfterLast(path, '/');
    AfterLastMeaning(path, '/');
    if EndsWith(name, t) {
      SuffixOfSuffix(path, name, t);
    }
    if EndsWith(path, t) {
      if |t| <= |name| {
        ShorterSuffix(path, name, t);
      } else {
        assert '/' !in path ==> name == path;
        SuffixWithout(path, '/', t, name);
      }
    }
  }

  /** The extension of a path is the suffix behind the last dot of its name. */
  lemma ExtensionIsSuffix(path: string, e: string)
    requires '.' !in e && '/' !in e
    ensures Extension(path) == "." + e <==> EndsWith(path, "." + e)
  {
    var name := AfterLast(path, '/');
    SuffixOfName(path, "." + e);
    AfterLastMeaning(name, '.');
    if EndsWith(name, "." + e) {
      AfterLastIs(name, '.', e);
    }
    if Extension(path) == "." + e {
      assert ("." + AfterLast(name, '.'))[1..] == e;
      assert ("." + e)[1..] == e;
    }
  }

  predicate HasExtension(path: string, extension: string) {
    EndsWith(path, "." + extension)
  }

  lemma {:induction false} LookupMeaning(path: string, table: seq<Known>, otherwise: Letters)
    ensures var lang := Lookup(table, Extension(path), otherwise);
      || (exists known | known in table :: HasExtension(path, known.extension) && lang == known.language)
      || (lang == otherwise && forall known | known in table :: !HasExtension(path, known.extension))
  {
    if table != [] {
      assert table[0] in table && forall known | known in table[1..] :: known in table;
      ExtensionIsSuffix(path, table[0].extension);
      LookupMeaning(path, table[1..], otherwise);
      assert forall known | known in table :: known == table[0] || known in table[1..];
    }
  }

  /** The language of a fence, by the end of the path: that listed for an extension which the path has;
      and for a path with none of them dotenv for the example environment, YAML for a Dockerfile, and
      nothing for the rest. */
  lemma LanguageBySuffix(path: string)
    ensures
      || (exists known | known in LANGUAGES ::
            HasExtension(path, known.extension) && Language(path) == known.language)
      || ((forall known | known in LANGUAGES :: !HasExtension(path, known.extension))
          && Language(path)
               == if AfterLast(path, '/') == ".env.example" then "dotenv"
                  else if EndsWith(path, "Dockerfile") then "yaml" else "")
  {
    SuffixOfName(path, "Dockerfile");
    LookupMeaning(path, LANGUAGES, OtherLanguage(path));
  }

  lemma {:induction false} LookupFinds(table: seq<Known>, i: nat, otherwise: Letters)
    requires i < |table| && forall j | 0 <= j < i :: table[j].extension != table[i].extension
    ensures Lookup(table, "." + table[i].extension, otherwise) == table[i].language
  {
    if i > 0 {
      assert ("." + table[0].extension)[1..] == table[0].extension;
      assert ("." + table[i].extension)[1..] == table[i].extension;
      LookupFinds(table[1..], i - 1, otherwise);
    }
  }

  /** The languages of the programs and data files in the repository. */
  lemma ProgramLanguage(path: string, e: Letters, lang: Letters)
    requires HasExtension(path, e)
    requires
      || (e == "py" && lang == "python") || (e == "ts" && lang == "typescript") || (e == "tsx" && lang == "tsx")
      || (e == "sql" && lang == "sql") || (e == "json" && lang == "json") || (e == "prisma" && lang == "prisma")
    ensures Language(path) == lang
  {
    ExtensionIsSuffix(path, e);
    var i := if e == "py" then 0 else if e == "ts" then 1 else if e == "tsx" then 2
             else if e == "sql" then 3 else if e == "json" then 4 else 5;
    assert PROGRAMS[i] == Known(e, lang);
    assert forall j | 0 <= j < i :: PROGRAMS[j].extension != e;
    assert LANGUAGES[..6] == PROGRAMS;
    LookupFinds(LANGUAGES, i, OtherLanguage(path));
  }

  lemma NoProgramExtension(e: Letters)
    requires e in ["toml", "yml", "yaml", "mjs", "txt", "md"]
    ensures forall j | 0 <= j < 6 :: PROGRAMS[j].extension != e
  {
  }

  /** And those of its configuration and text files. */
  lemma TextLanguage(path: string, e: Letters, lang: Letters)
    requires HasExtension(path, e)
    requires
      || (e == "toml" && lang == "toml") || (e == "yml" && lang == "yaml") || (e == "yaml" && lang == "yaml")
      || (e == "mjs" && lang == "javascript") || (e == "txt" && lang == "text") || (e == "md" && lang == "markdown")
    ensures Language(path) == lang
  {
    ExtensionIsSuffix(path, e);
    var i := if e == "toml" then 0 else if e == "yml" then 1 else if e == "yaml" then 2
             else if e == "mjs" then 3 else if e == "txt" then 4 else 5;
    assert TEXTS[i] == Known(e, lang);
    assert forall j | 0 <= j < i :: TEXTS[j].extension != e;
    NoProgramExtension(e);
    assert forall j | 0 <= j < 6 + i :: LANGUAGES[j] == if j < 6 then PROGRAMS[j] else TEXTS[j - 6];
    LookupFinds(LANGUAGES, 6 + i, OtherLanguage(path));
  }
}
