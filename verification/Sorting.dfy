/** Sorting and filtering over an arbitrary total order. `Sort` stands for the library sorts the
    program calls: by `SortedFormIsUnique` every sort that orders a permutation of its input
    returns the same list. */
module Sorting {

  ghost predicate TotalOrder<T(!new)>(leq: (T, T) -> bool) {
    && (forall a, b :: leq(a, b) || leq(b, a))
    && (forall a, b :: leq(a, b) && leq(b, a) ==> a == b)
    && (forall a, b, c :: leq(a, b) && leq(b, c) ==> leq(a, c))
  }

  ghost predicate Ascending<T>(s: seq<T>, leq: (T, T) -> bool) {
    forall i, j | 0 <= i < j < |s| :: leq(s[i], s[j])
  }

  ghost predicate NoDuplicates<T>(s: seq<T>) {
    forall i, j | 0 <= i < j < |s| :: s[i] != s[j]
  }

  function Insert<T>(x: T, s: seq<T>, leq: (T, T) -> bool): seq<T> {
    if s == [] || leq(x, s[0]) then [x] + s else [s[0]] + Insert(x, s[1..], leq)
  }

  function Sort<T>(s: seq<T>, leq: (T, T) -> bool): seq<T> {
    if s == [] then [] else Insert(s[0], Sort(s[1..], leq), leq)
  }

  function Filter<T>(s: seq<T>, keep: T -> bool): seq<T> {
    if s == [] then []
    else if keep(s[0]) then [s[0]] + Filter(s[1..], keep)
    else Filter(s[1..], keep)
  }

  lemma {:induction false} InsertKeeps<T>(x: T, s: seq<T>, leq: (T, T) -> bool)
    ensures multiset(Insert(x, s, leq)) == multiset{x} + multiset(s)
  {
    if s != [] && !leq(x, s[0]) {
      InsertKeeps(x, s[1..], leq);
      assert s == [s[0]] + s[1..];
    }
  }

  lemma {:induction false} InsertAscends<T(!new)>(x: T, s: seq<T>, leq: (T, T) -> bool)
    requires TotalOrder(leq) && Ascending(s, leq)
    ensures Ascending(Insert(x, s, leq), leq)
  {
    if s != [] && !leq(x, s[0]) {
      var rest := Insert(x, s[1..], leq);
      InsertAscends(x, s[1..], leq);
      InsertKeeps(x, s[1..], leq);
      forall y | y in rest
        ensures leq(s[0], y)
      {
        assert y in multiset(rest);
        assert y == x || y in s[1..];
      }
    } else if s != [] {
      forall y | y in s
        ensures leq(x, y)
      {
        assert y == s[0] || y in s[1..];
      }
    }
  }

  lemma {:induction false} SortIsSorted<T(!new)>(s: seq<T>, leq: (T, T) -> bool)
    requires TotalOrder(leq)
    ensures Ascending(Sort(s, leq), leq)
    ensures multiset(Sort(s, leq)) == multiset(s)
  {
    if s != [] {
      SortIsSorted(s[1..], leq);
      InsertAscends(s[0], Sort(s[1..], leq), leq);
      InsertKeeps(s[0], Sort(s[1..], leq), leq);
      assert s == [s[0]] + s[1..];
    }
  }

  lemma HeadIsLeast<T(!new)>(s: seq<T>, leq: (T, T) -> bool, x: T)
    requires TotalOrder(leq) && Ascending(s, leq) && x in multiset(s)
    ensures leq(s[0], x)
  {
    assert leq(s[0], s[0]);
  }

  lemma TailMultiset<T>(s: seq<T>)
    requires s != []
    ensures multiset(s[1..]) == multiset(s) - multiset{s[0]}
  {
    assert s == [s[0]] + s[1..];
  }

  /** Two ascending lists with the same elements are the same list. */
  lemma {:induction false} SortedFormIsUnique<T(!new)>(a: seq<T>, b: seq<T>, leq: (T, T) -> bool)
    requires TotalOrder(leq)
    requires Ascending(a, leq) && Ascending(b, leq) && multiset(a) == multiset(b)
    ensures a == b
  {
    assert |multiset(a)| == |multiset(b)|;
    if a != [] {
      assert a[0] in multiset(a) && b[0] in multiset(b);
      HeadIsLeast(a, leq, b[0]);
      HeadIsLeast(b, leq, a[0]);
      TailMultiset(a);
      TailMultiset(b);
      SortedFormIsUnique(a[1..], b[1..], leq);
      assert a == [a[0]] + a[1..] && b == [b[0]] + b[1..];
    }
  }

  /** A permuted input sorts to the same list. */
  lemma SortIgnoresOrder<T(!new)>(a: seq<T>, b: seq<T>, leq: (T, T) -> bool)
    requires TotalOrder(leq) && multiset(a) == multiset(b)
    ensures Sort(a, leq) == Sort(b, leq)
  {
    SortIsSorted(a, leq);
    SortIsSorted(b, leq);
    SortedFormIsUnique(Sort(a, leq), Sort(b, leq), leq);
  }

  /** Sorting leaves an ascending list alone. */
  lemma SortOfAscending<T(!new)>(s: seq<T>, leq: (T, T) -> bool)
    requires TotalOrder(leq) && Ascending(s, leq)
    ensures Sort(s, leq) == s
  {
    SortIsSorted(s, leq);
    SortedFormIsUnique(Sort(s, leq), s, leq);
  }

  lemma {:induction false} FilterCounts<T>(s: seq<T>, keep: T -> bool, x: T)
    ensures multiset(Filter(s, keep))[x] == if keep(x) then multiset(s)[x] else 0
  {
    if s != [] {
      FilterCounts(s[1..], keep, x);
      assert s == [s[0]] + s[1..];
    }
  }

  lemma FilterIgnoresOrder<T(!new)>(a: seq<T>, b: seq<T>, keep: T -> bool)
    requires multiset(a) == multiset(b)
    ensures multiset(Filter(a, keep)) == multiset(Filter(b, keep))
  {
    forall x
      ensures multiset(Filter(a, keep))[x] == multiset(Filter(b, keep))[x]
    {
      FilterCounts(a, keep, x);
      FilterCounts(b, keep, x);
    }
  }

  lemma FilterMembers<T>(s: seq<T>, keep: T -> bool, x: T)
    ensures x in Filter(s, keep) <==> x in s && keep(x)
  {
    FilterCounts(s, keep, x);
    assert x in Filter(s, keep) <==> multiset(Filter(s, keep))[x] > 0;
    assert x in s <==> multiset(s)[x] > 0;
  }

  lemma {:induction false} FilterAscends<T>(s: seq<T>, keep: T -> bool, leq: (T, T) -> bool)
    requires Ascending(s, leq)
    ensures Ascending(Filter(s, keep), leq)
  {
    if s != [] {
      FilterAscends(s[1..], keep, leq);
      forall y | y in Filter(s[1..], keep)
        ensures leq(s[0], y)
      {
        FilterMembers(s[1..], keep, y);
      }
    }
  }

  /** Filtering before sorting equals sorting before filtering. */
  lemma FilterThenSort<T(!new)>(s: seq<T>, keep: T -> bool, leq: (T, T) -> bool)
    requires TotalOrder(leq)
    ensures Sort(Filter(s, keep), leq) == Filter(Sort(s, leq), keep)
  {
    SortIsSorted(s, leq);
    SortIsSorted(Filter(s, keep), leq);
    FilterAscends(Sort(s, leq), keep, leq);
    forall x
      ensures multiset(Sort(Filter(s, keep), leq))[x] == multiset(Filter(Sort(s, leq), keep))[x]
    {
      FilterCounts(s, keep, x);
      FilterCounts(Sort(s, leq), keep, x);
    }
    SortedFormIsUnique(Sort(Filter(s, keep), leq), Filter(Sort(s, leq), keep), leq);
  }

  /** A filter that keeps exactly the positions `lo <= i < hi` is a slice. */
  lemma {:induction false} FilterIsSlice<T>(s: seq<T>, keep: T -> bool, lo: nat, hi: nat)
    requires lo <= hi <= |s|
    requires forall i | 0 <= i < |s| :: keep(s[i]) <==> lo <= i < hi
    ensures Filter(s, keep) == s[lo..hi]
  {
    if s != [] {
      if lo == 0 && hi > 0 {
        FilterIsSlice(s[1..], keep, 0, hi - 1);
        assert s[..hi] == [s[0]] + s[1..][..hi - 1];
      } else if lo == 0 {
        FilterIsSlice(s[1..], keep, 0, 0);
      } else {
        FilterIsSlice(s[1..], keep, lo - 1, hi - 1);
        assert s[lo..hi] == s[1..][lo - 1..hi - 1];
      }
    }
  }

  lemma {:induction false} FilterAgrees<T>(s: seq<T>, p: T -> bool, q: T -> bool)
    requires forall x | x in s :: p(x) == q(x)
    ensures Filter(s, p) == Filter(s, q)
  {
    if s != [] {
      FilterAgrees(s[1..], p, q);
    }
  }

  lemma {:induction false} FilterIsAll<T>(s: seq<T>, keep: T -> bool)
    requires forall x | x in s :: keep(x)
    ensures Filter(s, keep) == s
  {
    if s != [] {
      FilterIsAll(s[1..], keep);
    }
  }

  lemma {:induction false} FilterIsNone<T>(s: seq<T>, keep: T -> bool)
    requires forall x | x in s :: !keep(x)
    ensures Filter(s, keep) == []
  {
    if s != [] {
      FilterIsNone(s[1..], keep);
    }
  }

  lemma FilterOfCons<T>(x: T, s: seq<T>, keep: T -> bool)
    ensures Filter([x] + s, keep) == (if keep(x) then [x] else []) + Filter(s, keep)
  {
    assert ([x] + s)[1..] == s;
  }

  ghost predicate Before<T>(s: seq<T>, p: T -> bool, q: T -> bool) {
    forall i, j | 0 <= i <= j < |s| :: !(q(s[i]) && p(s[j]))
  }

  lemma BeforeOfCons<T>(x: T, s: seq<T>, p: T -> bool, q: T -> bool)
    requires Before([x] + s, p, q)
    ensures Before(s, p, q) && !(q(x) && p(x)) && (q(x) ==> forall y | y in s :: !p(y))
  {
    var all := [x] + s;
    assert all[0] == x && forall i | 0 <= i < |s| :: all[i + 1] == s[i];
    forall y | y in s && q(x)
      ensures !p(y)
    {
      var j :| 0 <= j < |s| && s[j] == y;
      assert all[j + 1] == y;
    }
  }

  /** When everything `p` keeps stands before everything `q` keeps, keeping both is keeping one
      after the other. */
  lemma {:induction false} FilterSplits<T>(s: seq<T>, p: T -> bool, q: T -> bool, both: T -> bool)
    requires forall x | x in s :: both(x) == (p(x) || q(x))
    requires Before(s, p, q)
    ensures Filter(s, both) == Filter(s, p) + Filter(s, q)
  {
    if s != [] {
      var x, rest := s[0], s[1..];
      assert s == [x] + rest && x in s && forall y | y in rest :: y in s;
      BeforeOfCons(x, rest, p, q);
      FilterSplits(rest, p, q, both);
      FilterOfCons(x, rest, p);
      FilterOfCons(x, rest, q);
      FilterOfCons(x, rest, both);
      if q(x) {
        FilterIsNone(rest, p);
      }
    }
  }

  lemma DuplicateFreeMultiset<T>(s: seq<T>, x: T)
    requires NoDuplicates(s) && x in s
    ensures multiset(s)[x] == 1
  {
    var i :| 0 <= i < |s| && s[i] == x;
    assert s == s[..i] + [x] + s[i + 1..];
    assert x !in s[..i] && x !in s[i + 1..];
  }

  lemma NoDuplicatesByCount<T>(s: seq<T>)
    requires forall x | x in s :: multiset(s)[x] == 1
    ensures NoDuplicates(s)
  {
    forall i, j | 0 <= i < j < |s|
      ensures s[i] != s[j]
    {
      assert s == s[..i] + [s[i]] + s[i + 1..j] + [s[j]] + s[j + 1..];
      assert s[i] == s[j] ==> multiset(s)[s[i]] >= 2;
    }
  }

  lemma {:induction false} FilterOfSnoc<T>(s: seq<T>, x: T, keep: T -> bool)
    ensures Filter(s + [x], keep) == Filter(s, keep) + (if keep(x) then [x] else [])
  {
    if s != [] {
      assert (s + [x])[1..] == s[1..] + [x];
      FilterOfSnoc(s[1..], x, keep);
    } else {
      assert s + [x] == [x];
    }
  }

  lemma FilterOfPrefix<T>(s: seq<T>, i: nat, keep: T -> bool)
    requires i < |s|
    ensures Filter(s[..i + 1], keep) == Filter(s[..i], keep) + (if keep(s[i]) then [s[i]] else [])
  {
    assert s[..i + 1] == s[..i] + [s[i]];
    FilterOfSnoc(s[..i], s[i], keep);
  }
}
