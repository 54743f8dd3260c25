/** Runs of releases: each builds a plan from its own history against the database that the releases
    before it left, and executes the plan's pending list. */
module ReleaseRuns {
  import opened CodeUnits
  import opened Sorting
  import opened MigrationHistory

  datatype Release = Release(history: seq<Id>, target: Id)
  datatype Database = Database(applied: seq<Id>, current: Id)

  /** Building a release's plan against a database and executing its pending list. */
  function Deploy(db: Database, release: Release): Database {
    var pending := PlanPending(db.current, release.target, release.history);
    if pending == [] then db
    else Database(db.applied + pending, pending[|pending| - 1])
  }

  function DeployAll(db: Database, releases: seq<Release>): Database
    decreases |releases|
  {
    if releases == [] then db else DeployAll(Deploy(db, releases[0]), releases[1..])
  }

  /** The later history keeps every id of the earlier one, and adds ids only above `current`. */
  ghost predicate AddsAbove(earlier: seq<Id>, current: Id, later: seq<Id>) {
    && NoDuplicates(later)
    && (forall x | x in earlier :: x in later)
    && (forall x | x in later && x !in earlier :: Less(current, x))
  }

  /** The history of the newest release. */
  function LastHistory(history: seq<Id>, releases: seq<Release>): seq<Id>
    decreases |releases|
  {
    if releases == [] then history else LastHistory(releases[0].history, releases[1..])
  }

  ghost predicate GrowingRun(history: seq<Id>, db: Database, releases: seq<Release>)
    decreases |releases|
  {
    releases == [] ||
    (AddsAbove(history, db.current, releases[0].history) &&
     GrowingRun(releases[0].history, Deploy(db, releases[0]), releases[1..]))
  }

  /** The applied list is the sorted history up to the current id. */
  ghost predicate UpToDate(history: seq<Id>, db: Database) {
    && NoDuplicates(history)
    && db.current in history
    && db.applied == GateApplied(db.current, history)
  }

  lemma AppliedMembers(current: Id, history: seq<Id>, x: Id)
    ensures x in GateApplied(current, history) <==> x in history && Leq(x, current)
  {
    FilterMembers(history, id => Leq(id, current), x);
    SortedMembers(Filter(history, id => Leq(id, current)), x);
  }

  /** A history that adds only above the current id leaves the applied list as it was. */
  lemma AddingAboveKeepsApplied(earlier: seq<Id>, current: Id, later: seq<Id>)
    requires NoDuplicates(earlier) && AddsAbove(earlier, current, later)
    ensures GateApplied(current, earlier) == GateApplied(current, later)
  {
    OrderIsTotal();
    var below := (id: Id) => Leq(id, current);
    forall x
      ensures multiset(Filter(earlier, below))[x] == multiset(Filter(later, below))[x]
    {
      FilterCounts(earlier, below, x);
      FilterCounts(later, below, x);
      if x in earlier {
        DuplicateFreeMultiset(earlier, x);
        DuplicateFreeMultiset(later, x);
      } else if x in later {
        assert Less(current, x);
      }
    }
    SortIgnoresOrder(Filter(earlier, below), Filter(later, below), Leq);
  }

  /** What is applied up to `a` followed by what lies between `a` and `b` is applied up to `b`. */
  lemma AppliedThenRange(s: seq<Id>, a: Id, b: Id)
    requires Ascending(s, Leq) && Leq(a, b)
    ensures Filter(s, id => Leq(id, b))
         == Filter(s, id => Leq(id, a)) + Filter(s, id => Between(a, b, id))
  {
    forall x | x in s
      ensures Leq(x, b) == (Leq(x, a) || Between(a, b, x))
    {
      if Leq(x, a) {
        LeqIsTransitive(x, a, b);
      }
    }
    forall i, j | 0 <= i <= j < |s|
      ensures !(Between(a, b, s[i]) && Leq(s[j], a))
    {
      if Between(a, b, s[i]) {
        LaterIsNotBelow(s[i], s[j], a);
      }
    }
    FilterSplits(s, id => Leq(id, a), id => Between(a, b, id), id => Leq(id, b));
  }

  lemma PlanEndsAtTarget(c: Id, t: Id, history: seq<Id>)
    requires PlanPending(c, t, history) != []
    ensures c in history && t in history && Less(c, t)
    ensures var pending := PlanPending(c, t, history); pending[|pending| - 1] == t
  {
    SortedHistory(history);
    SortedMembers(history, c);
    SortedMembers(history, t);
    SliceClimbs(c, t, Sort(history, Leq));
  }

  lemma SliceClimbs(c: Id, t: Id, sorted: seq<Id>)
    requires Ascending(sorted, Leq) && SliceAfter(c, t, sorted) != []
    ensures c in sorted && t in sorted && Less(c, t)
    ensures var slice := SliceAfter(c, t, sorted); slice[|slice| - 1] == t
  {
    SliceEndsAtTarget(c, t, sorted);
    FirstPositions(sorted, c, t);
  }

  lemma AppliedUpToTarget(c: Id, t: Id, history: seq<Id>)
    requires Less(c, t)
    ensures GateApplied(t, history) == GateApplied(c, history) + GatePending(c, t, history)
  {
    OrderIsTotal();
    Trichotomy(c, t);
    SortedHistory(history);
    AppliedThenRange(Sort(history, Leq), c, t);
    GatePendingIsRange(c, t, history);
    FilterThenSort(history, id => Leq(id, c), Leq);
    FilterThenSort(history, id => Leq(id, t), Leq);
  }

  lemma StaysUpToDate(earlier: seq<Id>, db: Database, later: seq<Id>)
    requires UpToDate(earlier, db) && AddsAbove(earlier, db.current, later)
    ensures UpToDate(later, db)
  {
    AddingAboveKeepsApplied(earlier, db.current, later);
  }

  lemma PendingAdvances(c: Id, t: Id, history: seq<Id>)
    requires NoDuplicates(history) && PlanPending(c, t, history) != []
    ensures t in history && PlanPending(c, t, history)[|PlanPending(c, t, history)| - 1] == t
    ensures GateApplied(c, history) + PlanPending(c, t, history) == GateApplied(t, history)
  {
    PlanEndsAtTarget(c, t, history);
    PlanIsWithinGate(c, t, history);
    AppliedUpToTarget(c, t, history);
  }

  lemma DeployAdvances(db: Database, release: Release)
    requires UpToDate(release.history, db)
    ensures UpToDate(release.history, Deploy(db, release))
  {
    if PlanPending(db.current, release.target, release.history) != [] {
      PendingAdvances(db.current, release.target, release.history);
    }
  }

  /** One deployment whose history adds only above the current id keeps the applied list equal to
      the sorted history up to the current id. */
  lemma DeployKeepsUpToDate(history: seq<Id>, db: Database, release: Release)
    requires UpToDate(history, db) && AddsAbove(history, db.current, release.history)
    ensures UpToDate(release.history, Deploy(db, release))
  {
    StaysUpToDate(history, db, release.history);
    DeployAdvances(db, release);
  }

  /** Over every run whose histories only grow above what is applied, the applied list stays the
      sorted history up to the current id. */
  lemma {:induction false} RunStaysUpToDate(history: seq<Id>, db: Database, releases: seq<Release>)
    requires UpToDate(history, db) && GrowingRun(history, db, releases)
    ensures UpToDate(LastHistory(history, releases), DeployAll(db, releases))
    decreases |releases|
  {
    if releases != [] {
      DeployKeepsUpToDate(history, db, releases[0]);
      RunStaysUpToDate(releases[0].history, Deploy(db, releases[0]), releases[1..]);
    }
  }

  /** Therefore no migration is applied twice, none up to the current id is skipped, and what was
      applied before the run stays where it was. */
  lemma NothingTwiceNothingSkipped(history: seq<Id>, db: Database, releases: seq<Release>)
    requires UpToDate(history, db) && GrowingRun(history, db, releases)
    ensures var after := DeployAll(db, releases);
      && NoDuplicates(after.applied)
      && (forall x :: x in after.applied
            <==> x in LastHistory(history, releases) && Leq(x, after.current))
      && db.applied <= after.applied
  {
    var last := LastHistory(history, releases);
    var after := DeployAll(db, releases);
    RunStaysUpToDate(history, db, releases);
    forall x
      ensures x in after.applied <==> x in last && Leq(x, after.current)
    {
      AppliedMembers(after.current, last, x);
    }
    SortedHistory(Filter(last, id => Leq(id, after.current)));
    forall x | x in after.applied
      ensures multiset(after.applied)[x] == 1
    {
      FilterCounts(last, id => Leq(id, after.current), x);
      DuplicateFreeMultiset(last, x);
    }
    NoDuplicatesByCount(after.applied);
    AppliedOnlyGrows(db, releases);
  }

  lemma {:induction false} AppliedOnlyGrows(db: Database, releases: seq<Release>)
    ensures db.applied <= DeployAll(db, releases).applied
    decreases |releases|
  {
    if releases != [] {
      AppliedOnlyGrows(Deploy(db, releases[0]), releases[1..]);
    }
  }

  /** Why histories must grow above: in every run, whatever its histories, a migration that is
      not applied when the database is already past it is never applied. */
  lemma {:induction false} LateMigrationIsNeverApplied(db: Database, releases: seq<Release>, x: Id)
    requires Less(x, db.current) && x !in db.applied
    ensures x !in DeployAll(db, releases).applied
    decreases |releases|
  {
    if releases != [] {
      PlanNeverGoesBack(db.current, releases[0].target, releases[0].history);
      var after := Deploy(db, releases[0]);
      if after != db {
        Trichotomy(x, db.current);
        Trichotomy(x, after.current);
        LeqIsTransitive(x, db.current, after.current);
      }
      LateMigrationIsNeverApplied(after, releases[1..], x);
    }
  }
}
