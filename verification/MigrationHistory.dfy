/** Which migrations lie between two points of a history. The deployment plan sorts and slices,
    the migration gate filters and sorts, and the rollback service compares positions; the lemmas
    say when the three agree, and how upgrades compose. */
module MigrationHistory {
  import opened CodeUnits
  import opened Sorting

  type Id = JsString

  lemma OrderIsTotal()
    ensures TotalOrder(Leq)
  {
    forall a, b
      ensures Leq(a, b) || Leq(b, a)
      ensures Leq(a, b) && Leq(b, a) ==> a == b
    {
      Trichotomy(a, b);
    }
    forall a, b, c | Leq(a, b) && Leq(b, c)
      ensures Leq(a, c)
    {
      LeqIsTransitive(a, b, c);
    }
  }

  /** `ids.indexOf(x)` */
  function IndexOf(ids: seq<Id>, x: Id): (r: int)
    ensures r == -1 <==> x !in ids
    ensures r != -1 ==> 0 <= r < |ids| && ids[r] == x && forall i | 0 <= i < r :: ids[i] != x
  {
    IndexFrom(ids, x, 0)
  }

  function IndexFrom(ids: seq<Id>, x: Id, from: nat): (r: int)
    requires from <= |ids|
    ensures r == -1 <==> x !in ids[from..]
    ensures r != -1 ==> from <= r < |ids| && ids[r] == x && forall i | from <= i < r :: ids[i] != x
    decreases |ids| - from
  {
    if from == |ids| then -1
    else if ids[from] == x then from
    else
      assert ids[from..] == [ids[from]] + ids[from + 1..];
      IndexFrom(ids, x, from + 1)
  }

  /** The plan's pending list: sort, locate both ids, slice. */
  function PlanPending(current: Id, target: Id, history: seq<Id>): seq<Id> {
    SliceAfter(current, target, Sort(history, Leq))
  }

  function SliceAfter(current: Id, target: Id, sorted: seq<Id>): seq<Id> {
    var currentIdx := IndexOf(sorted, current);
    var targetIdx := IndexOf(sorted, target);
    if currentIdx == -1 || targetIdx == -1 then []
    else if targetIdx <= currentIdx then []
    else sorted[currentIdx + 1..targetIdx + 1]
  }

  /** The range the gate filters on: `id > current && id <= target`. */
  predicate Between(current: Id, target: Id, id: Id) {
    Less(current, id) && Leq(id, target)
  }

  /** The gate's pending list: filter, then sort. */
  function GatePending(current: Id, target: Id, ids: seq<Id>): seq<Id> {
    Sort(Filter(ids, id => Between(current, target, id)), Leq)
  }

  /** The gate's applied list. */
  function GateApplied(current: Id, ids: seq<Id>): seq<Id> {
    Sort(Filter(ids, id => Leq(id, current)), Leq)
  }

  /** The rollback service's test that a target release can run on the current schema. */
  predicate SchemaCompatible(current: Id, target: Id, history: seq<Id>) {
    var sorted := Sort(history, Leq);
    var currentIdx := IndexOf(sorted, current);
    var targetIdx := IndexOf(sorted, target);
    currentIdx != -1 && targetIdx != -1 && targetIdx <= currentIdx
  }

  predicate RequiresDbRecovery(current: Id, target: Id) {
    current != target
  }

  // ----- Positions in a sorted history

  lemma SortedHistory(history: seq<Id>)
    ensures Ascending(Sort(history, Leq), Leq)
    ensures multiset(Sort(history, Leq)) == multiset(history)
  {
    OrderIsTotal();
    SortIsSorted(history, Leq);
  }

  lemma SortedMembers(history: seq<Id>, x: Id)
    ensures x in Sort(history, Leq) <==> x in history
  {
    SortedHistory(history);
    assert x in Sort(history, Leq) <==> x in multiset(Sort(history, Leq));
    assert x in history <==> x in multiset(history);
  }

  /** First positions in a sorted list are ordered as the ids are. */
  lemma FirstPositions(sorted: seq<Id>, c: Id, t: Id)
    requires Ascending(sorted, Leq) && c in sorted && t in sorted
    ensures IndexOf(sorted, t) <= IndexOf(sorted, c) <==> Leq(t, c)
  {
    var ci, ti := IndexOf(sorted, c), IndexOf(sorted, t);
    Trichotomy(c, t);
    if ti < ci {
      assert Leq(sorted[ti], sorted[ci]);
    } else if ci < ti {
      assert Leq(sorted[ci], sorted[ti]);
      assert c != t;
    }
  }

  lemma TwoOccurrences(s: seq<Id>, x: Id, i: nat, j: nat)
    requires i < j < |s| && s[i] == x && s[j] == x
    ensures multiset(s)[x] > 1
  {
    assert s == s[..i] + [x] + s[i + 1..j] + [x] + s[j + 1..];
  }

  /** The gate's pending list is the part of the sorted history inside the range. */
  lemma GatePendingIsRange(c: Id, t: Id, history: seq<Id>)
    ensures GatePending(c, t, history) == Filter(Sort(history, Leq), id => Between(c, t, id))
  {
    OrderIsTotal();
    FilterThenSort(history, id => Between(c, t, id), Leq);
  }

  lemma GatePendingMembers(c: Id, t: Id, history: seq<Id>, x: Id)
    ensures x in GatePending(c, t, history) <==> x in history && Between(c, t, x)
  {
    GatePendingIsRange(c, t, history);
    FilterMembers(Sort(history, Leq), id => Between(c, t, id), x);
    SortedMembers(history, x);
  }

  // ----- The two pending computations

  /** With both ids in the history, sort-and-slice equals filter-and-sort exactly when there is
      nothing to apply or neither id is listed twice. */
  lemma PendingComputationsAgree(c: Id, t: Id, history: seq<Id>)
    requires c in history && t in history
    ensures PlanPending(c, t, history) == GatePending(c, t, history)
       <==> Leq(t, c) || (multiset(history)[c] == 1 && multiset(history)[t] == 1)
  {
    SortedHistory(history);
    SortedMembers(history, c);
    SortedMembers(history, t);
    GatePendingIsRange(c, t, history);
    SliceAgainstRange(c, t, Sort(history, Leq));
  }

  lemma SliceAgainstRange(c: Id, t: Id, sorted: seq<Id>)
    requires Ascending(sorted, Leq) && c in sorted && t in sorted
    ensures SliceAfter(c, t, sorted) == Filter(sorted, id => Between(c, t, id))
       <==> Leq(t, c) || (multiset(sorted)[c] == 1 && multiset(sorted)[t] == 1)
  {
    FirstPositions(sorted, c, t);
    assert multiset(sorted)[c] > 0 && multiset(sorted)[t] > 0;
    if Leq(t, c) {
      NothingBetween(c, t, sorted);
    } else if multiset(sorted)[c] == 1 && multiset(sorted)[t] == 1 {
      SliceIsRange(c, t, sorted);
    } else if multiset(sorted)[c] > 1 {
      RepeatedCurrentIsSliced(c, t, sorted);
    } else {
      RepeatedTargetIsSlicedOnce(c, t, sorted);
    }
  }

  lemma NothingBetween(c: Id, t: Id, sorted: seq<Id>)
    requires Leq(t, c)
    ensures Filter(sorted, id => Between(c, t, id)) == []
  {
    var range := Filter(sorted, id => Between(c, t, id));
    if range != [] {
      FilterMembers(sorted, id => Between(c, t, id), range[0]);
      LeqIsTransitive(range[0], t, c);
      assert false;
    }
  }

  lemma SliceIsRange(c: Id, t: Id, sorted: seq<Id>)
    requires Ascending(sorted, Leq) && c in sorted && t in sorted && Less(c, t)
    requires multiset(sorted)[c] == 1 && multiset(sorted)[t] == 1
    ensures SliceAfter(c, t, sorted) == Filter(sorted, id => Between(c, t, id))
  {
    FirstPositions(sorted, c, t);
    var ci, ti := IndexOf(sorted, c), IndexOf(sorted, t);
    forall i | 0 <= i < |sorted|
      ensures Between(c, t, sorted[i]) <==> ci + 1 <= i < ti + 1
    {
      PositionInRange(sorted, c, t, ci, ti, i);
    }
    FilterIsSlice(sorted, id => Between(c, t, id), ci + 1, ti + 1);
  }

  lemma PositionInRange(sorted: seq<Id>, c: Id, t: Id, ci: nat, ti: nat, i: nat)
    requires Ascending(sorted, Leq) && ci < ti < |sorted| && i < |sorted|
    requires sorted[ci] == c && sorted[ti] == t
    requires multiset(sorted)[c] == 1 && multiset(sorted)[t] == 1
    ensures Between(c, t, sorted[i]) <==> ci + 1 <= i < ti + 1
  {
    var x := sorted[i];
    Trichotomy(c, x);
    Trichotomy(x, t);
    if i < ci {
      assert Leq(sorted[i], sorted[ci]);
    } else if ci < i {
      assert Leq(sorted[ci], sorted[i]);
      if x == c {
        TwoOccurrences(sorted, c, ci, i);
      }
    }
    if i < ti {
      assert Leq(sorted[i], sorted[ti]);
    } else if ti < i {
      assert Leq(sorted[ti], sorted[i]);
      if x == t {
        TwoOccurrences(sorted, t, ti, i);
      }
    }
  }

  lemma SecondOccurrence(s: seq<Id>, x: Id) returns (j: nat)
    requires multiset(s)[x] > 1
    ensures IndexOf(s, x) < j < |s| && s[j] == x
  {
    assert x in multiset(s);
    var i := IndexOf(s, x);
    assert s == s[..i] + [x] + s[i + 1..];
    assert x in multiset(s[i + 1..]);
    var k :| 0 <= k < |s[i + 1..]| && s[i + 1..][k] == x;
    j := i + 1 + k;
  }

  lemma CopiesPrecedeTarget(c: Id, t: Id, sorted: seq<Id>, ti: nat, j: nat)
    requires Ascending(sorted, Leq) && Less(c, t)
    requires ti < |sorted| && j < |sorted| && sorted[ti] == t && sorted[j] == c
    ensures j < ti
  {
    LessIsIrreflexive(c);
    assert ti < j ==> Leq(sorted[ti], sorted[j]);
  }

  lemma RepeatedCurrentIsSliced(c: Id, t: Id, sorted: seq<Id>)
    requires Ascending(sorted, Leq) && c in sorted && t in sorted && Less(c, t)
    requires multiset(sorted)[c] > 1
    ensures c in SliceAfter(c, t, sorted) && c !in Filter(sorted, id => Between(c, t, id))
  {
    var ci, ti := IndexOf(sorted, c), IndexOf(sorted, t);
    var j := SecondOccurrence(sorted, c);
    CopiesPrecedeTarget(c, t, sorted, ti, j);
    assert SliceAfter(c, t, sorted)[j - ci - 1] == c;
    LessIsIrreflexive(c);
    FilterMembers(sorted, id => Between(c, t, id), c);
  }

  lemma RepeatedTargetIsSlicedOnce(c: Id, t: Id, sorted: seq<Id>)
    requires Ascending(sorted, Leq) && c in sorted && t in sorted && Less(c, t)
    requires multiset(sorted)[t] > 1
    ensures multiset(SliceAfter(c, t, sorted))[t] == 1
    ensures multiset(Filter(sorted, id => Between(c, t, id)))[t] > 1
  {
    FirstPositions(sorted, c, t);
    SliceEndsAtTarget(c, t, sorted);
    LessIsIrreflexive(t);
    FilterCounts(sorted, id => Between(c, t, id), t);
  }

  /** A nonempty slice ends with the first, and in it only, occurrence of the target. */
  lemma SliceHasLast(sorted: seq<Id>, ci: nat, ti: nat)
    requires ci < ti < |sorted| && forall i | 0 <= i < ti :: sorted[i] != sorted[ti]
    ensures var slice := sorted[ci + 1..ti + 1];
      slice != [] && slice[|slice| - 1] == sorted[ti] && multiset(slice)[sorted[ti]] == 1
  {
    var before := sorted[ci + 1..ti];
    assert sorted[ci + 1..ti + 1] == before + [sorted[ti]];
    assert forall i | 0 <= i < |before| :: before[i] == sorted[ci + 1 + i];
    assert sorted[ti] !in before;
  }

  lemma SliceEndsAtTarget(c: Id, t: Id, sorted: seq<Id>)
    requires SliceAfter(c, t, sorted) != []
    ensures c in sorted && t in sorted && IndexOf(sorted, c) < IndexOf(sorted, t)
    ensures var slice := SliceAfter(c, t, sorted);
      slice[|slice| - 1] == t && multiset(slice)[t] == 1
  {
    SliceHasLast(sorted, IndexOf(sorted, c), IndexOf(sorted, t));
  }

  /** A current id that the history lists twice is applied again by the plan and left out by the
      gate, wherever the history lists it. */
  lemma RepeatedCurrentIsPlannedAgain(c: Id, t: Id, history: seq<Id>)
    requires t in history && Less(c, t) && multiset(history)[c] > 1
    ensures c in PlanPending(c, t, history) && c !in GatePending(c, t, history)
  {
    SortedHistory(history);
    SortedMembers(history, c);
    SortedMembers(history, t);
    GatePendingIsRange(c, t, history);
    RepeatedCurrentIsSliced(c, t, Sort(history, Leq));
  }

  /** A target id that the history lists twice is applied once by the plan and listed as often as
      that by the gate. */
  lemma RepeatedTargetIsPlannedOnce(c: Id, t: Id, history: seq<Id>)
    requires c in history && Less(c, t) && multiset(history)[t] > 1
    ensures multiset(PlanPending(c, t, history))[t] == 1
    ensures multiset(GatePending(c, t, history))[t] == multiset(history)[t]
  {
    SortedHistory(history);
    SortedMembers(history, c);
    SortedMembers(history, t);
    GatePendingIsRange(c, t, history);
    RepeatedTargetIsSlicedOnce(c, t, Sort(history, Leq));
    LessIsIrreflexive(t);
    FilterCounts(Sort(history, Leq), id => Between(c, t, id), t);
  }

  /** With an id missing from the history the plan is empty whatever the gate reports. In
      particular a database with no recorded migration is never given one. */
  lemma PlanNeedsBothIds(c: Id, t: Id, history: seq<Id>)
    ensures c !in history || t !in history ==> PlanPending(c, t, history) == []
    ensures c !in history && t in history && Less(c, t) ==> t in GatePending(c, t, history)
  {
    SortedMembers(history, c);
    SortedMembers(history, t);
    GatePendingMembers(c, t, history, t);
    Trichotomy(t, t);
  }

  /** On a duplicate-free history the plan's list is what the gate checks, or nothing. */
  lemma PlanIsWithinGate(c: Id, t: Id, history: seq<Id>)
    requires NoDuplicates(history)
    ensures PlanPending(c, t, history) ==
      if c in history && t in history then GatePending(c, t, history) else []
  {
    PlanNeedsBothIds(c, t, history);
    if c in history && t in history {
      DuplicateFreeMultiset(history, c);
      DuplicateFreeMultiset(history, t);
      PendingComputationsAgree(c, t, history);
    }
  }

  /** The order in which a history is listed does not reach the plan. */
  lemma PlanIgnoresListing(c: Id, t: Id, a: seq<Id>, b: seq<Id>)
    requires multiset(a) == multiset(b)
    ensures PlanPending(c, t, a) == PlanPending(c, t, b)
    ensures SchemaCompatible(c, t, a) == SchemaCompatible(c, t, b)
  {
    OrderIsTotal();
    SortIgnoresOrder(a, b, Leq);
  }

  lemma PlanNeverGoesBack(c: Id, t: Id, history: seq<Id>)
    ensures forall x | x in PlanPending(c, t, history) :: Leq(c, x)
  {
    SortedHistory(history);
    SliceNeverGoesBack(c, t, Sort(history, Leq));
  }

  lemma SliceNeverGoesBack(c: Id, t: Id, sorted: seq<Id>)
    requires Ascending(sorted, Leq)
    ensures forall x | x in SliceAfter(c, t, sorted) :: Leq(c, x)
  {
    var slice, ci := SliceAfter(c, t, sorted), IndexOf(sorted, c);
    forall x | x in slice
      ensures Leq(c, x)
    {
      var i :| 0 <= i < |slice| && slice[i] == x;
      assert sorted[ci + 1 + i] == x;
      assert Leq(sorted[ci], sorted[ci + 1 + i]);
    }
  }

  // ----- Staged upgrades

  lemma RangesSplit(a: Id, b: Id, c: Id, x: Id)
    requires Leq(a, b) && Leq(b, c)
    ensures Between(a, c, x) <==> Between(a, b, x) || Between(b, c, x)
    ensures !(Between(a, b, x) && Between(b, c, x))
  {
    Trichotomy(b, x);
    Trichotomy(a, x);
    if Leq(x, b) {
      LeqIsTransitive(x, b, c);
    }
    if Less(b, x) && !Less(a, x) {
      LeqIsTransitive(x, a, b);
    }
  }

  lemma LaterIsNotBelow(x: Id, y: Id, bound: Id)
    requires (Leq(x, y) || x == y) && Less(bound, x)
    ensures !Leq(y, bound)
  {
    if Leq(y, bound) && Leq(x, y) {
      LeqIsTransitive(x, y, bound);
    }
  }

  /** Upgrading through an intermediate point applies the same migrations in the same order. */
  lemma StagedUpgrade(a: Id, b: Id, c: Id, history: seq<Id>)
    requires Leq(a, b) && Leq(b, c)
    ensures GatePending(a, c, history) == GatePending(a, b, history) + GatePending(b, c, history)
    ensures NoDuplicates(history) && a in history && b in history && c in history ==>
      PlanPending(a, c, history) == PlanPending(a, b, history) + PlanPending(b, c, history)
  {
    var sorted := Sort(history, Leq);
    SortedHistory(history);
    forall x | x in sorted
      ensures Between(a, c, x) == (Between(a, b, x) || Between(b, c, x))
    {
      RangesSplit(a, b, c, x);
    }
    forall i, j | 0 <= i <= j < |sorted|
      ensures !(Between(b, c, sorted[i]) && Between(a, b, sorted[j]))
    {
      if Between(b, c, sorted[i]) {
        LaterIsNotBelow(sorted[i], sorted[j], b);
      }
    }
    FilterSplits(sorted, id => Between(a, b, id), id => Between(b, c, id), id => Between(a, c, id));
    GatePendingIsRange(a, b, history);
    GatePendingIsRange(b, c, history);
    GatePendingIsRange(a, c, history);
    if NoDuplicates(history) {
      PlanIsWithinGate(a, b, history);
      PlanIsWithinGate(b, c, history);
      PlanIsWithinGate(a, c, history);
    }
  }

  // ----- Rollback

  /** A rollback target is compatible exactly when the plan towards it applies nothing, and that
      is exactly when the target is not above the current id. */
  lemma RollbackIsDualToPlanning(c: Id, t: Id, history: seq<Id>)
    requires c in history && t in history
    ensures SchemaCompatible(c, t, history) <==> PlanPending(c, t, history) == []
    ensures SchemaCompatible(c, t, history) <==> Leq(t, c)
  {
    SortedHistory(history);
    SortedMembers(history, c);
    SortedMembers(history, t);
    FirstPositions(Sort(history, Leq), c, t);
  }

  /** For every history: a target is compatible exactly when both ids are listed and it is not above the
      current one; a missing id is never compatible. */
  lemma CompatibilityMeaning(c: Id, t: Id, history: seq<Id>)
    ensures SchemaCompatible(c, t, history) <==> c in history && t in history && Leq(t, c)
    ensures RequiresDbRecovery(c, t) <==> c != t
  {
    SortedMembers(history, c);
    SortedMembers(history, t);
    if c in history && t in history {
      RollbackIsDualToPlanning(c, t, history);
    }
  }

  /** Compatibility is a total order on the ids of a history, and database recovery is waived
      exactly for the pairs that are compatible both ways. */
  lemma CompatibilityIsTotalOrder(history: seq<Id>, x: Id, y: Id, z: Id)
    requires x in history && y in history && z in history
    ensures SchemaCompatible(x, x, history)
    ensures SchemaCompatible(x, y, history) || SchemaCompatible(y, x, history)
    ensures SchemaCompatible(x, y, history) && SchemaCompatible(y, z, history)
      ==> SchemaCompatible(x, z, history)
    ensures !RequiresDbRecovery(x, y)
       <==> SchemaCompatible(x, y, history) && SchemaCompatible(y, x, history)
  {
    RollbackIsDualToPlanning(x, x, history);
    RollbackIsDualToPlanning(x, y, history);
    RollbackIsDualToPlanning(y, x, history);
    RollbackIsDualToPlanning(y, z, history);
    RollbackIsDualToPlanning(x, z, history);
    Trichotomy(x, y);
    Trichotomy(x, x);
    if Leq(z, y) && Leq(y, x) {
      LeqIsTransitive(z, y, x);
    }
  }
}
