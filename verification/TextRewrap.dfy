/** Wrapping words that single spaces separate: the lines are the greedy ones. */
module TextRewrap {
  import opened Sequences
  import opened TextLines
  import opened TextWords
  import opened TextWrap

  predicate AreWords(ws: seq<string>) {
    forall w | w in ws :: IsWord(w)
  }

  /** The words with a space token between them. */
  function Interleaved(ws: seq<string>): seq<string> {
    if ws == [] then []
    else if |ws| == 1 then ws
    else [ws[0], " "] + Interleaved(ws[1..])
  }

  function Gap(gap: bool): seq<string> {
    if gap then [" "] else []
  }

  lemma WordHasNoSpace(w: string)
    requires IsWord(w)
    ensures w[0] != ' ' && !Blank(w) && forall c | c in w :: c != ' '
  {
    assert w[0] in w;
    StripIsBlank(w);
    OneWord(w);
  }

  lemma SpaceIsBlank()
    ensures Blank(" ")
  {
    NoWords(" ");
    StripIsBlank(" ");
  }

  // ----- Tokens

  lemma {:induction false} TokensOfWord(w: string, rest: string)
    requires w != "" && (forall c | c in w :: c != ' ') && (rest == "" || rest[0] == ' ')
    ensures Tokens(w + rest) == [w] + Tokens(rest)
  {
    assert w == [w[0]] + w[1..] && w[0] in w;
    assert (w + rest)[0] == w[0] && (w + rest)[1..] == w[1..] + rest;
    if |w| == 1 {
      assert w[1..] + rest == rest && [w[0]] == w;
    } else {
      assert w[1] in w && forall c | c in w[1..] :: c in w;
      TokensOfWord(w[1..], rest);
      assert ([w[1..]] + Tokens(rest))[1..] == Tokens(rest);
    }
  }

  lemma TokensOfSpace(rest: string)
    requires rest != "" && rest[0] != ' '
    ensures Tokens(" " + rest) == [" "] + Tokens(rest)
  {
    assert (" " + rest)[1..] == rest;
  }

  lemma SpacedOfCons(w: string, ws: seq<string>)
    requires ws != []
    ensures Spaced([w] + ws) == w + (" " + Spaced(ws))
  {
    assert ([w] + ws)[1..] == ws;
  }

  lemma {:induction false} SpacedStarts(ws: seq<string>)
    requires AreWords(ws) && ws != []
    ensures StartsWord(Spaced(ws)) && EndsWord(Spaced(ws)) && Spaced(ws)[0] != ' '
  {
    var w := ws[0];
    assert w in ws && w[0] in w && w[|w| - 1] in w;
    if |ws| > 1 {
      SpacedStarts(ws[1..]);
    }
  }

  lemma {:induction false} TokensOfSpaced(ws: seq<string>)
    requires AreWords(ws) && ws != []
    ensures Tokens(Spaced(ws)) == Interleaved(ws)
  {
    var w, rest := ws[0], ws[1..];
    assert w in ws && forall v | v in rest :: v in ws;
    WordHasNoSpace(w);
    if rest == [] {
      TokensOfWord(w, "");
      assert w + "" == w && [w] + [] == ws;
    } else {
      TokensOfWord(w, " " + Spaced(rest));
      SpacedStarts(rest);
      TokensOfSpace(Spaced(rest));
      TokensOfSpaced(rest);
      assert [w] + ([" "] + Interleaved(rest)) == [w, " "] + Interleaved(rest);
    }
  }

  lemma {:induction false} ConcatOfInterleaved(ws: seq<string>)
    ensures Concat(Interleaved(ws)) == Spaced(ws)
  {
    if |ws| == 1 {
      assert ws[1..] == [];
    } else if |ws| > 1 {
      ConcatOfInterleaved(ws[1..]);
      var rest := Interleaved(ws[1..]);
      assert ([ws[0], " "] + rest)[1..] == [" "] + rest && ([" "] + rest)[1..] == rest;
    }
  }

  lemma {:induction false} MungeIsIdle(s: string, column: nat)
    requires forall c | c in s :: c !in {'\t', '\n', '\r', '\U{b}', '\U{c}'}
    ensures Munge(s, column) == s
    decreases |s|
  {
    if s != "" {
      assert s == [s[0]] + s[1..] && s[0] in s;
      assert forall c | c in s[1..] :: c in s;
      MungeIsIdle(s[1..], column + 1);
    }
  }

  lemma {:induction false} SpacedHasOnlySpaces(ws: seq<string>)
    requires AreWords(ws)
    ensures forall c | c in Spaced(ws) :: c == ' ' || !IsSpace(c)
  {
    if ws != [] {
      assert ws[0] in ws;
      SpacedHasOnlySpaces(ws[1..]);
    }
  }

  // ----- One line

  /** How many words fit into `room` columns. */
  function FitWords(ws: seq<string>, room: int): (j: nat)
    ensures j <= |ws|
  {
    if ws == [] || |ws[0]| > room then 0 else 1 + FitWords(ws[1..], room - |ws[0]| - 1)
  }

  lemma {:induction false} FitTakesWords(ws: seq<string>, room: int)
    ensures var n, j := Fit(Interleaved(ws), room), FitWords(ws, room);
      if j == 0 then n == 0 else n == 2 * j - 1 || (n == 2 * j && j < |ws|)
    decreases |ws|
  {
    if |ws| > 1 && |ws[0]| <= room {
      var rest := Interleaved(ws[1..]);
      assert ([ws[0], " "] + rest)[1..] == [" "] + rest && ([" "] + rest)[1..] == rest;
      FitTakesWords(ws[1..], room - |ws[0]| - 1);
    }
  }

  lemma {:induction false} SpacedPrefix(ws: seq<string>, j: nat)
    requires 1 < j <= |ws|
    ensures |Spaced(ws[..j])| == |ws[0]| + 1 + |Spaced(ws[1..][..j - 1])|
  {
    assert ws[..j] == [ws[0]] + ws[1..][..j - 1];
    SpacedOfCons(ws[0], ws[1..][..j - 1]);
  }

  lemma {:induction false} FitWordsIsGreedy(ws: seq<string>, room: int)
    ensures var j := FitWords(ws, room);
      (j > 0 ==> |Spaced(ws[..j])| <= room) && (j < |ws| ==> |Spaced(ws[..j + 1])| > room)
    decreases |ws|
  {
    if ws != [] {
      assert ws[..1] == [ws[0]] && Spaced([ws[0]]) == ws[0];
      if |ws[0]| <= room {
        var j := FitWords(ws, room);
        FitWordsIsGreedy(ws[1..], room - |ws[0]| - 1);
        if j > 1 {
          SpacedPrefix(ws, j);
        }
        if j < |ws| {
          SpacedPrefix(ws, j + 1);
        }
      }
    }
  }

  lemma InterleavedOfCons(w: string, ws: seq<string>)
    requires ws != []
    ensures Interleaved([w] + ws) == [w, " "] + Interleaved(ws)
  {
    assert ([w] + ws)[1..] == ws;
  }

  lemma FirstWordSplits(w: string, rest: seq<string>)
    ensures Interleaved([w] + rest) == [w] + (Gap(rest != []) + Interleaved(rest))
  {
    if rest == [] {
      assert [w] + rest == [w] && [w] + ([] + []) == [w];
    } else {
      InterleavedOfCons(w, rest);
      assert [w] + ([" "] + Interleaved(rest)) == [w, " "] + Interleaved(rest);
    }
  }

  lemma {:induction false} InterleavedConcat(a: seq<string>, b: seq<string>)
    requires a != []
    ensures Interleaved(a + b) == Interleaved(a) + (Gap(b != []) + Interleaved(b))
    ensures |Interleaved(a)| == 2 * |a| - 1
    decreases |a|
  {
    var w, rest := a[0], a[1..];
    assert a == [w] + rest && a + b == [w] + (rest + b);
    if rest == [] {
      assert rest + b == b;
      FirstWordSplits(w, b);
    } else {
      InterleavedConcat(rest, b);
      InterleavedOfCons(w, rest);
      InterleavedOfCons(w, rest + b);
      Associate([w, " "], Interleaved(rest), Gap(b != []) + Interleaved(b));
    }
  }

  lemma InterleavedSplit(ws: seq<string>, j: nat)
    requires 1 <= j <= |ws|
    ensures Interleaved(ws) == Interleaved(ws[..j]) + (Gap(j < |ws|) + Interleaved(ws[j..]))
    ensures |Interleaved(ws[..j])| == 2 * j - 1
  {
    assert ws == ws[..j] + ws[j..];
    InterleavedConcat(ws[..j], ws[j..]);
  }

  /** Tokens that start the words of one line and leave those of the next. */
  ghost predicate Splits(ws: seq<string>, n: nat, j: nat)
    requires 1 <= j <= |ws|
  {
    && n <= |Interleaved(ws)|
    && Trimmed(Interleaved(ws)[..n]) == Interleaved(ws[..j])
    && exists gap: bool :: Interleaved(ws)[n..] == Gap(gap) + Interleaved(ws[j..]) && (j == |ws| ==> !gap)
  }

  lemma {:induction false} LastIsWord(ws: seq<string>)
    requires AreWords(ws) && ws != []
    ensures Interleaved(ws) != [] && !Blank(Interleaved(ws)[|Interleaved(ws)| - 1])
  {
    if |ws| == 1 {
      assert ws[0] in ws;
      WordHasNoSpace(ws[0]);
    } else {
      LastIsWord(ws[1..]);
    }
  }

  lemma SplitAt(ws: seq<string>, n: nat, j: nat)
    requires AreWords(ws) && 1 <= j <= |ws| && (n == 2 * j - 1 || (n == 2 * j && j < |ws|))
    ensures Splits(ws, n, j)
  {
    var a, g, b := Interleaved(ws[..j]), Gap(j < |ws|), Interleaved(ws[j..]);
    InterleavedSplit(ws, j);
    LastIsWord(ws[..j]);
    SpaceIsBlank();
    if n == 2 * j {
      assert Interleaved(ws)[..n] == a + [" "] && Interleaved(ws)[n..] == Gap(false) + b;
      assert (a + [" "])[..|a|] == a;
    } else {
      assert Interleaved(ws)[..n] == a && Interleaved(ws)[n..] == g + b;
      assert j == |ws| ==> b == [];
    }
  }

  /** The words on the next line. */
  function WordsTaken(ws: seq<string>): (j: nat)
    requires ws != []
    ensures 1 <= j <= |ws|
  {
    if FitWords(ws, ROOM) == 0 then 1 else FitWords(ws, ROOM)
  }

  lemma LineOfWords(tokens: seq<string>, gap: bool, ws: seq<string>, first: bool)
    requires tokens == Gap(gap) + Interleaved(ws) && AreWords(ws) && ws != [] && !(first && gap)
    ensures Line(tokens, first) == Interleaved(ws[..WordsTaken(ws)])
    ensures exists more: bool :: Left(tokens, first) == Gap(more) + Interleaved(ws[WordsTaken(ws)..])
                                 && (WordsTaken(ws) == |ws| ==> !more)
  {
    var ts, j := Interleaved(ws), WordsTaken(ws);
    assert ws[0] in ws;
    WordHasNoSpace(ws[0]);
    SpaceIsBlank();
    assert tokens[0] == if gap then " " else ws[0];
    assert Dropped(tokens, first) == ts;
    FitTakesWords(ws, ROOM);
    SplitAt(ws, Taken(ts), j);
  }

  // ----- All the lines

  /** The line that takes `j` words: they fit, or are one, and one more would not fit. */
  predicate GreedyLine(line: string, ws: seq<string>, j: nat, first: bool)
    requires 1 <= j <= |ws|
  {
    && line == Indent(first) + Spaced(ws[..j])
    && (j == 1 || |line| <= WIDTH)
    && (j < |ws| ==> |Indent(first) + Spaced(ws[..j + 1])| > WIDTH)
  }

  ghost predicate Greedy(lines: seq<string>, ws: seq<string>, first: bool)
    decreases |ws|
  {
    if ws == [] then lines == []
    else
      && lines != []
      && exists j | 1 <= j <= |ws| :: GreedyLine(lines[0], ws, j, first) && Greedy(lines[1..], ws[j..], false)
  }

  lemma CountIsGreedy(ws: seq<string>, first: bool)
    requires ws != []
    ensures GreedyLine(Indent(first) + Spaced(ws[..WordsTaken(ws)]), ws, WordsTaken(ws), first)
  {
    FitWordsIsGreedy(ws, ROOM);
    if FitWords(ws, ROOM) == 0 && |ws| > 1 {
      SpacedPrefix(ws, 2);
    }
  }

  lemma {:induction false} WrapFromIsGreedy(tokens: seq<string>, gap: bool, ws: seq<string>, first: bool)
    requires tokens == Gap(gap) + Interleaved(ws) && AreWords(ws) && !(first && gap) && !(ws == [] && gap)
    ensures Greedy(WrapFrom(tokens, first), ws, first)
    decreases |ws|
  {
    if ws != [] {
      var j := WordsTaken(ws);
      LineOfWords(tokens, gap, ws, first);
      var more: bool :| Left(tokens, first) == Gap(more) + Interleaved(ws[j..]) && (j == |ws| ==> !more);
      assert forall w | w in ws[j..] :: w in ws;
      WrapFromIsGreedy(Left(tokens, first), more, ws[j..], false);
      InterleavedSplit(ws, j);
      ConcatOfInterleaved(ws[..j]);
      CountIsGreedy(ws, first);
    }
  }

  /** Single-spaced words wrap greedily: every line but the last is as full as it can be. */
  lemma WrapIsGreedy(ws: seq<string>)
    requires AreWords(ws) && ws != []
    ensures Greedy(Wrap(Spaced(ws)), ws, true)
  {
    SpacedHasOnlySpaces(ws);
    MungeIsIdle(Spaced(ws), 0);
    TokensOfSpaced(ws);
    assert Gap(false) + Interleaved(ws) == Interleaved(ws);
    WrapFromIsGreedy(Tokens(Munge(Spaced(ws), 0)), false, ws, true);
  }

  // ----- Stripping

  lemma StripOfTight(s: string)
    requires StartsWord(s) && EndsWord(s)
    ensures Strip(s) == s
  {
  }

  /** What is left of an indent after stripping. */
  function Lead(first: bool): string {
    if first then "* " else ""
  }

  lemma StripOfSpace(s: string)
    ensures Strip(" " + s) == Strip(s)
  {
    assert (" " + s)[1..] == s;
  }

  lemma StripOfContinuation(s: string)
    requires StartsWord(s) && EndsWord(s)
    ensures Strip("  " + s) == s
  {
    StripOfTight(s);
    StripOfSpace(s);
    StripOfSpace(" " + s);
    assert "  " + s == " " + (" " + s);
  }

  lemma StripOfIndented(s: string, first: bool)
    requires StartsWord(s) && EndsWord(s)
    ensures Strip(Indent(first) + s) == Lead(first) + s && Lead(first) + s != ""
  {
    if first {
      StripOfTight("* " + s);
    } else {
      StripOfContinuation(s);
      assert "" + s == s;
    }
  }

  lemma KeptOfCons(line: string, others: seq<string>)
    requires Strip(line) != ""
    ensures Kept([line] + others) == [Strip(line)] + Kept(others)
  {
    assert ([line] + others)[1..] == others;
  }
}
