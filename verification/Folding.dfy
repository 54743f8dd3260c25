/** A reader as a fold over lines, and what it recovers from a sequence of pieces of which each
    either yields what is expected of it or shows a difference. */
module Folding {

  /** A reader: its step, when it is idle, and what it has put out. */
  datatype System<!S, !L, !O> = System(step: (S, L) -> S, idle: S -> bool, out: S -> seq<O>)

  function Fold<S, L, O>(m: System<S, L, O>, s: S, lines: seq<L>): S
    decreases |lines|
  {
    if lines == [] then s else Fold(m, m.step(s, lines[0]), lines[1..])
  }

  /** Output is never taken back. */
  ghost predicate Monotone<S(!new), L(!new), O>(m: System<S, L, O>) {
    forall s, line :: m.out(s) <= m.out(m.step(s, line))
  }

  lemma {:induction false} FoldConcat<S, L, O>(m: System<S, L, O>, s: S, a: seq<L>, b: seq<L>)
    ensures Fold(m, s, a + b) == Fold(m, Fold(m, s, a), b)
    decreases |a|
  {
    if a == [] {
      assert a + b == b;
    } else {
      assert (a + b)[1..] == a[1..] + b;
      FoldConcat(m, m.step(s, a[0]), a[1..], b);
    }
  }

  lemma FoldOne<S, L, O>(m: System<S, L, O>, s: S, line: L, rest: seq<L>)
    ensures Fold(m, s, [line] + rest) == Fold(m, m.step(s, line), rest)
  {
    assert ([line] + rest)[1..] == rest;
  }

  lemma {:induction false} OutGrows<S(!new), L(!new), O>(m: System<S, L, O>, s: S, lines: seq<L>)
    requires Monotone(m)
    ensures m.out(s) <= m.out(Fold(m, s, lines))
    decreases |lines|
  {
    if lines != [] {
      OutGrows(m, m.step(s, lines[0]), lines[1..]);
    }
  }

  /** From any idle state, the lines put out exactly `expected` and leave the reader idle. */
  ghost predicate Yields<S(!new), L, O>(m: System<S, L, O>, lines: seq<L>, expected: seq<O>) {
    forall s {:trigger Fold(m, s, lines)} | m.idle(s) ::
      m.idle(Fold(m, s, lines)) && m.out(Fold(m, s, lines)) == m.out(s) + expected
  }

  /** From any idle state, the first thing put out is not `expected`. */
  ghost predicate Spoils<S(!new), L, O>(m: System<S, L, O>, lines: seq<L>, expected: O) {
    forall s {:trigger Fold(m, s, lines)} | m.idle(s) ::
      && |m.out(Fold(m, s, lines))| > |m.out(s)|
      && m.out(Fold(m, s, lines))[|m.out(s)|] != expected
  }

  datatype Piece<L, O> = Piece(lines: seq<L>, expected: seq<O>)

  function AllLines<L, O>(pieces: seq<Piece<L, O>>): seq<L> {
    if pieces == [] then [] else pieces[0].lines + AllLines(pieces[1..])
  }

  function AllExpected<L, O>(pieces: seq<Piece<L, O>>): seq<O> {
    if pieces == [] then [] else pieces[0].expected + AllExpected(pieces[1..])
  }

  ghost predicate GoodPiece<S(!new), L, O>(m: System<S, L, O>, piece: Piece<L, O>) {
    Yields(m, piece.lines, piece.expected)
  }

  ghost predicate BadPiece<S(!new), L, O>(m: System<S, L, O>, piece: Piece<L, O>) {
    |piece.expected| == 1 && Spoils(m, piece.lines, piece.expected[0])
  }

  ghost predicate AllGood<S(!new), L, O>(m: System<S, L, O>, pieces: seq<Piece<L, O>>) {
    forall i | 0 <= i < |pieces| :: GoodPiece(m, pieces[i])
  }

  ghost predicate Decided<S(!new), L, O>(m: System<S, L, O>, pieces: seq<Piece<L, O>>) {
    forall i | 0 <= i < |pieces| :: GoodPiece(m, pieces[i]) || BadPiece(m, pieces[i])
  }

  lemma AllOfCons<L, O>(piece: Piece<L, O>, rest: seq<Piece<L, O>>)
    ensures AllLines([piece] + rest) == piece.lines + AllLines(rest)
    ensures AllExpected([piece] + rest) == piece.expected + AllExpected(rest)
  {
    assert ([piece] + rest)[1..] == rest;
  }

  lemma {:induction false} AllOfConcat<L, O>(a: seq<Piece<L, O>>, b: seq<Piece<L, O>>)
    ensures AllLines(a + b) == AllLines(a) + AllLines(b)
    ensures AllExpected(a + b) == AllExpected(a) + AllExpected(b)
  {
    if a == [] {
      assert a + b == b;
    } else {
      assert a + b == [a[0]] + (a[1..] + b);
      AllOfCons(a[0], a[1..] + b);
      AllOfConcat(a[1..], b);
    }
  }

  /** Good pieces put out exactly what is expected. */
  lemma {:induction false} GoodPiecesRead<S(!new), L, O>(m: System<S, L, O>, s: S, pieces: seq<Piece<L, O>>)
    requires m.idle(s) && AllGood(m, pieces)
    ensures m.idle(Fold(m, s, AllLines(pieces)))
    ensures m.out(Fold(m, s, AllLines(pieces))) == m.out(s) + AllExpected(pieces)
    decreases |pieces|
  {
    if pieces == [] {
      assert m.out(s) + [] == m.out(s);
    } else {
      var head, tail := pieces[0], pieces[1..];
      assert GoodPiece(m, head);
      var next := Fold(m, s, head.lines);
      FoldConcat(m, s, head.lines, AllLines(tail));
      GoodPiecesRead(m, next, tail);
      assert m.out(s) + head.expected + AllExpected(tail) == m.out(s) + (head.expected + AllExpected(tail));
    }
  }

  /** The first piece that is not good shows in the output. */
  lemma {:induction false} BadPieceShows<S(!new), L(!new), O>(m: System<S, L, O>, s: S, pieces: seq<Piece<L, O>>)
    returns (k: nat)
    requires Monotone(m) && m.idle(s) && Decided(m, pieces) && !AllGood(m, pieces)
    ensures k < |AllExpected(pieces)| && |m.out(s)| + k < |m.out(Fold(m, s, AllLines(pieces)))|
    ensures m.out(Fold(m, s, AllLines(pieces)))[|m.out(s)| + k] != AllExpected(pieces)[k]
    decreases |pieces|
  {
    var head, tail := pieces[0], pieces[1..];
    var next := Fold(m, s, head.lines);
    FoldConcat(m, s, head.lines, AllLines(tail));
    if GoodPiece(m, head) {
      k := BadPieceShows(m, next, tail);
      k := k + |head.expected|;
    } else {
      assert BadPiece(m, head);
      OutGrows(m, next, AllLines(tail));
      k := 0;
    }
  }
}
