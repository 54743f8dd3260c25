/** The gate that a set of migration files must pass before a deployment. Directory contents, the
    schema text and the regular-expression matches in a SQL text are inputs. */
module MigrationGate {
  import opened CodeUnits
  import opened Sequences
  import opened Sorting
  import opened MigrationHistory
  import opened Environments

  datatype MigrationFile = MigrationFile(id: Id, sql: JsString)

  datatype Pattern = DropTable | DropColumn | DropTypeCascade
  const PATTERNS: seq<Pattern> := [DropTable, DropColumn, DropTypeCascade]

  datatype Hit = Hit(table: JsString, details: JsString)
  /** The matches of one dangerous pattern in one SQL text, in order. */
  type Scanner = (Pattern, JsString) -> seq<Hit>

  datatype Operation = Operation(migrationId: Id, pattern: Pattern, hit: Hit)

  datatype Status = Valid | Invalid | DestructiveDetected | HistoryMismatch | ApprovalRequired
                  | PendingMigrations

  datatype Input = Input(environment: Environment, current: Id, target: Id,
                         allowDestructive: bool, requireBackup: bool, backupVerified: bool)

  datatype Result = Result(status: Status, pending: seq<Id>, applied: seq<Id>,
                           operations: seq<Operation>, historyValid: bool, schemaValid: bool,
                           requiresApproval: bool, hasDestructive: bool)

  function Ids(files: seq<MigrationFile>): seq<Id> {
    seq(|files|, i requires 0 <= i < |files| => files[i].id)
  }

  predicate StrictlyAscending(files: seq<MigrationFile>) {
    forall i, j | 0 <= i < j < |files| :: Less(files[i].id, files[j].id)
  }

  /** The loop that compares neighbours accepts exactly the strictly ascending lists. */
  method ValidateHistoryOrdering(files: seq<MigrationFile>) returns (ok: bool)
    ensures ok <==> StrictlyAscending(files)
  {
    var i := 1;
    while i < |files|
      invariant files != [] ==> i <= |files| && StrictlyAscending(files[..i])
    {
      if Leq(files[i].id, files[i - 1].id) {
        LessIsIrreflexive(files[i].id);
        return false;
      }
      NextIsAbove(files, i);
      i := i + 1;
    }
    assert files != [] ==> files == files[..i];
    return true;
  }

  lemma NextIsAbove(files: seq<MigrationFile>, i: nat)
    requires 1 <= i < |files| && StrictlyAscending(files[..i])
    requires Less(files[i - 1].id, files[i].id)
    ensures StrictlyAscending(files[..i + 1])
  {
    forall k | 0 <= k < i
      ensures Less(files[k].id, files[i].id)
    {
      if k < i - 1 {
        assert Less(files[..i][k].id, files[..i][i - 1].id);
        LessIsTransitive(files[k].id, files[i - 1].id, files[i].id);
      }
    }
  }

  /** The operations of one file: every pattern in turn, every match of it in order. */
  function FileOperations(file: MigrationFile, patterns: seq<Pattern>, scan: Scanner): seq<Operation> {
    if patterns == [] then []
    else
      var last := patterns[|patterns| - 1];
      var hits := scan(last, file.sql);
      FileOperations(file, patterns[..|patterns| - 1], scan)
        + seq(|hits|, i requires 0 <= i < |hits| => Operation(file.id, last, hits[i]))
  }

  function Operations(files: seq<MigrationFile>, scan: Scanner): seq<Operation> {
    if files == [] then []
    else
      Operations(files[..|files| - 1], scan) + FileOperations(files[|files| - 1], PATTERNS, scan)
  }

  method DetectDestructiveOperations(files: seq<MigrationFile>, scan: Scanner)
    returns (destructive: seq<Operation>)
    ensures destructive == Operations(files, scan)
  {
    destructive := [];
    for m := 0 to |files|
      invariant destructive == Operations(files[..m], scan)
    {
      ghost var found := destructive;
      for p := 0 to |PATTERNS|
        invariant destructive == found + FileOperations(files[m], PATTERNS[..p], scan)
      {
        var hits := scan(PATTERNS[p], files[m].sql);
        ghost var before := destructive;
        for h := 0 to |hits|
          invariant destructive == before
            + seq(h, i requires 0 <= i < h => Operation(files[m].id, PATTERNS[p], hits[i]))
        {
          destructive := destructive + [Operation(files[m].id, PATTERNS[p], hits[h])];
        }
        assert PATTERNS[..p + 1][..p] == PATTERNS[..p];
      }
      assert PATTERNS[..|PATTERNS|] == PATTERNS;
      assert files[..m + 1][..m] == files[..m];
    }
    assert files[..|files|] == files;
  }

  predicate SchemaFileValid(schema: SchemaFile) {
    schema.Schema?
    && Includes(schema.text, Units("datasource db"))
    && Includes(schema.text, Units("generator client"))
    && Includes(schema.text, Units("model Tenant"))
  }

  /** The files whose ids are in the pending list. */
  function Selected(files: seq<MigrationFile>, pending: seq<Id>): seq<MigrationFile> {
    Filter(files, (file: MigrationFile) => file.id in pending)
  }

  function Validate(input: Input, files: seq<MigrationFile>, schema: SchemaFile, scan: Scanner): Result {
    var ids := Ids(files);
    var applied := GateApplied(input.current, ids);
    var pending := GatePending(input.current, input.target, ids);
    if input.target !in ids || !StrictlyAscending(files) then
      Result(HistoryMismatch, pending, applied, [], false, false, false, false)
    else
      var found := Operations(Selected(files, pending), scan);
      if found != [] && !input.allowDestructive then
        Result(DestructiveDetected, pending, applied, found, true, true, true, true)
      else if input.environment == Production && input.requireBackup && !input.backupVerified then
        Result(Invalid, pending, applied, found, true, true, true, found != [])
      else if !SchemaFileValid(schema) then
        Result(Invalid, pending, applied, found, true, false, false, found != [])
      else if found != [] then
        Result(ApprovalRequired, pending, applied, found, true, true, true, true)
      else
        Result(Valid, pending, applied, [], true, true, false, false)
  }

  predicate MustBlockDeployment(result: Result, environment: Environment) {
    result.status == HistoryMismatch
    || result.status == Invalid
    || (result.status == DestructiveDetected && environment == Production)
  }

  /** The gate as it runs: the ordering loop and the scanning loops decide what the
      specification `Validate` says. */
  method RunGate(input: Input, files: seq<MigrationFile>, schema: SchemaFile, scan: Scanner)
    returns (result: Result)
    ensures result == Validate(input, files, schema, scan)
  {
    var ids := Ids(files);
    var applied := GateApplied(input.current, ids);
    var pending := GatePending(input.current, input.target, ids);
    if input.target !in ids {
      return Result(HistoryMismatch, pending, applied, [], false, false, false, false);
    }
    var historyValid := ValidateHistoryOrdering(files);
    if !historyValid {
      return Result(HistoryMismatch, pending, applied, [], false, false, false, false);
    }
    var found := DetectDestructiveOperations(Selected(files, pending), scan);
    if found != [] && !input.allowDestructive {
      return Result(DestructiveDetected, pending, applied, found, true, true, true, true);
    }
    if input.environment == Production && input.requireBackup && !input.backupVerified {
      return Result(Invalid, pending, applied, found, true, true, true, found != []);
    }
    if !SchemaFileValid(schema) {
      return Result(Invalid, pending, applied, found, true, false, false, found != []);
    }
    if found != [] {
      return Result(ApprovalRequired, pending, applied, found, true, true, true, true);
    }
    return Result(Valid, pending, applied, [], true, true, false, false);
  }

  // ----- What an accepted ordering gives

  lemma AcceptedOrderIsSorted(files: seq<MigrationFile>)
    requires StrictlyAscending(files)
    ensures Ascending(Ids(files), Leq) && NoDuplicates(Ids(files))
  {
    var ids := Ids(files);
    forall i, j | 0 <= i < j < |ids|
      ensures Leq(ids[i], ids[j]) && ids[i] != ids[j]
    {
      assert Less(files[i].id, files[j].id);
      Trichotomy(ids[i], ids[j]);
    }
  }

  /** A duplicate-free list is strictly ascending exactly when sorting would not change it. */
  lemma OrderingCheckMeansSorted(files: seq<MigrationFile>)
    ensures StrictlyAscending(files)
       <==> Sort(Ids(files), Leq) == Ids(files) && NoDuplicates(Ids(files))
  {
    var ids := Ids(files);
    OrderIsTotal();
    if StrictlyAscending(files) {
      AcceptedOrderIsSorted(files);
      SortOfAscending(ids, Leq);
    }
    if Sort(ids, Leq) == ids && NoDuplicates(ids) {
      SortedHistory(ids);
      forall i, j | 0 <= i < j < |files|
        ensures Less(files[i].id, files[j].id)
      {
        assert Leq(ids[i], ids[j]) && ids[i] != ids[j];
        Trichotomy(ids[i], ids[j]);
      }
    }
  }

  /** After an accepted ordering the gate's own sorts change nothing, whatever comparison had
      ordered the loaded files. */
  lemma GateSortsAreIdle(files: seq<MigrationFile>, current: Id, target: Id)
    requires StrictlyAscending(files)
    ensures GatePending(current, target, Ids(files))
         == Filter(Ids(files), id => Between(current, target, id))
    ensures GateApplied(current, Ids(files)) == Filter(Ids(files), id => Leq(id, current))
  {
    OrderIsTotal();
    AcceptedOrderIsSorted(files);
    FilterAscends(Ids(files), id => Between(current, target, id), Leq);
    FilterAscends(Ids(files), id => Leq(id, current), Leq);
    SortOfAscending(Filter(Ids(files), id => Between(current, target, id)), Leq);
    SortOfAscending(Filter(Ids(files), id => Leq(id, current)), Leq);
  }

  // ----- Destructive operations of a staged upgrade

  lemma OperationsOfSnoc(files: seq<MigrationFile>, file: MigrationFile, scan: Scanner)
    ensures Operations(files + [file], scan) == Operations(files, scan) + FileOperations(file, PATTERNS, scan)
  {
    assert (files + [file])[..|files|] == files;
  }

  lemma {:induction false} OperationsOfConcat(a: seq<MigrationFile>, b: seq<MigrationFile>, scan: Scanner)
    ensures Operations(a + b, scan) == Operations(a, scan) + Operations(b, scan)
  {
    if b == [] {
      assert a + b == a;
    } else {
      var init, last := b[..|b| - 1], b[|b| - 1];
      OperationsOfConcat(a, init, scan);
      assert b == init + [last] && a + b == (a + init) + [last];
      OperationsOfSnoc(a + init, last, scan);
      OperationsOfSnoc(init, last, scan);
      Associate(Operations(a, scan), Operations(init, scan), FileOperations(last, PATTERNS, scan));
    }
  }

  lemma SelectedIsRange(files: seq<MigrationFile>, a: Id, b: Id)
    ensures Selected(files, GatePending(a, b, Ids(files)))
         == Filter(files, (file: MigrationFile) => Between(a, b, file.id))
  {
    var pending := GatePending(a, b, Ids(files));
    forall file | file in files
      ensures (file.id in pending) == Between(a, b, file.id)
    {
      var i :| 0 <= i < |files| && files[i] == file;
      assert Ids(files)[i] == file.id;
      GatePendingMembers(a, b, Ids(files), file.id);
    }
    FilterAgrees(files, (file: MigrationFile) => file.id in pending,
                 (file: MigrationFile) => Between(a, b, file.id));
  }

  /** What is found destructive in an upgrade is what is found in its stages, in order. */
  lemma StagedOperations(files: seq<MigrationFile>, a: Id, b: Id, c: Id, scan: Scanner)
    requires StrictlyAscending(files) && Leq(a, b) && Leq(b, c)
    ensures Operations(Selected(files, GatePending(a, c, Ids(files))), scan)
         == Operations(Selected(files, GatePending(a, b, Ids(files))), scan)
          + Operations(Selected(files, GatePending(b, c, Ids(files))), scan)
  {
    SelectedIsRange(files, a, b);
    SelectedIsRange(files, b, c);
    SelectedIsRange(files, a, c);
    var first := (file: MigrationFile) => Between(a, b, file.id);
    var second := (file: MigrationFile) => Between(b, c, file.id);
    var whole := (file: MigrationFile) => Between(a, c, file.id);
    forall file | file in files
      ensures whole(file) == (first(file) || second(file))
    {
      RangesSplit(a, b, c, file.id);
    }
    forall i, j | 0 <= i <= j < |files|
      ensures !(second(files[i]) && first(files[j]))
    {
      if second(files[i]) {
        Trichotomy(files[i].id, files[j].id);
        LaterIsNotBelow(files[i].id, files[j].id, b);
      }
    }
    FilterSplits(files, first, second, whole);
    OperationsOfConcat(Filter(files, first), Filter(files, second), scan);
  }

  // ----- What each verdict means

  ghost predicate Clean(file: MigrationFile, scan: Scanner) {
    forall pattern :: scan(pattern, file.sql) == []
  }

  lemma FileWithoutOperations(file: MigrationFile, scan: Scanner)
    ensures FileOperations(file, PATTERNS, scan) == [] <==> Clean(file, scan)
  {
    var one, two := PATTERNS[..1], PATTERNS[..2];
    assert two[..1] == one && one[..0] == [] && PATTERNS[..2] == two;
    assert |FileOperations(file, one, scan)| == |scan(DropTable, file.sql)|;
    assert |FileOperations(file, two, scan)| == |scan(DropTable, file.sql)| + |scan(DropColumn, file.sql)|;
    assert |FileOperations(file, PATTERNS, scan)|
        == |FileOperations(file, two, scan)| + |scan(DropTypeCascade, file.sql)|;
    if FileOperations(file, PATTERNS, scan) == [] {
      forall pattern
        ensures scan(pattern, file.sql) == []
      {
        match pattern
        case DropTable => assert |scan(DropTable, file.sql)| == 0;
        case DropColumn => assert |scan(DropColumn, file.sql)| == 0;
        case DropTypeCascade => assert |scan(DropTypeCascade, file.sql)| == 0;
      }
    }
  }

  lemma {:induction false} NoOperations(files: seq<MigrationFile>, scan: Scanner)
    ensures Operations(files, scan) == [] <==> forall file | file in files :: Clean(file, scan)
  {
    if files != [] {
      var init, last := files[..|files| - 1], files[|files| - 1];
      NoOperations(init, scan);
      FileWithoutOperations(last, scan);
      assert files == init + [last];
    }
  }

  /** The pending files, as a caller can list them before the call. */
  ghost predicate PendingFilesClean(files: seq<MigrationFile>, current: Id, target: Id, scan: Scanner) {
    forall file | file in files && Between(current, target, file.id) :: Clean(file, scan)
  }

  lemma PendingFilesScanned(files: seq<MigrationFile>, current: Id, target: Id, scan: Scanner)
    ensures Operations(Selected(files, GatePending(current, target, Ids(files))), scan) == []
       <==> PendingFilesClean(files, current, target, scan)
  {
    var range := (file: MigrationFile) => Between(current, target, file.id);
    SelectedIsRange(files, current, target);
    NoOperations(Filter(files, range), scan);
    forall file
      ensures file in Filter(files, range) <==> file in files && Between(current, target, file.id)
    {
      FilterMembers(files, range, file);
    }
  }

  ghost predicate BackupMissing(input: Input) {
    input.environment == Production && input.requireBackup && !input.backupVerified
  }

  /** Each verdict, by the conditions a caller can check on the files. */
  lemma VerdictMeaning(input: Input, files: seq<MigrationFile>, schema: SchemaFile, scan: Scanner)
    ensures var status := Validate(input, files, schema, scan).status;
      var ordered := input.target in Ids(files) && StrictlyAscending(files);
      var clean := PendingFilesClean(files, input.current, input.target, scan);
      var allowed := clean || input.allowDestructive;
      var backedUp := !BackupMissing(input);
      var schemaOk := SchemaFileValid(schema);
      && (status == HistoryMismatch <==> !ordered)
      && (status == DestructiveDetected <==> ordered && !allowed)
      && (status == Invalid <==> ordered && allowed && !(backedUp && schemaOk))
      && (status == ApprovalRequired <==> ordered && allowed && backedUp && schemaOk && !clean)
      && (status == Valid <==> ordered && backedUp && schemaOk && clean)
      && status != PendingMigrations
  {
    PendingFilesScanned(files, input.current, input.target, scan);
  }

  /** A schema file without one of its three parts never passes: no part can be left out. */
  lemma MissingPartNeverPasses(input: Input, files: seq<MigrationFile>, text: JsString, part: JsString, scan: Scanner)
    requires part == Units("datasource db") || part == Units("generator client") || part == Units("model Tenant")
    requires !Includes(text, part)
    ensures var status := Validate(input, files, Schema(text), scan).status;
      status != Valid && status != ApprovalRequired
  {
  }

  /** What the reported flags say. The history flag is the ordering check. The schema flag speaks of
      the schema file only when no earlier check had already ended the run: a destructive or an
      unbacked migration is reported with a valid schema whatever the file holds. */
  lemma FlagMeaning(input: Input, files: seq<MigrationFile>, schema: SchemaFile, scan: Scanner)
    ensures var r := Validate(input, files, schema, scan);
      var ordered := input.target in Ids(files) && StrictlyAscending(files);
      var clean := PendingFilesClean(files, input.current, input.target, scan);
      var stopped := (!clean && !input.allowDestructive) || BackupMissing(input);
      && (r.historyValid <==> ordered)
      && (r.hasDestructive <==> r.operations != [])
      && (r.operations == [] <==> !ordered || clean)
      && (r.schemaValid <==> ordered && (stopped || SchemaFileValid(schema)))
      && (r.requiresApproval <==> ordered && (stopped || (SchemaFileValid(schema) && !clean)))
  {
    PendingFilesScanned(files, input.current, input.target, scan);
  }

  /** When the pending files are clean and in order, everything a plan over the same ids would
      apply is a clean file's id and is in the gate's pending list. */
  lemma PlannedFileIsClean(files: seq<MigrationFile>, current: Id, target: Id, scan: Scanner,
                           history: seq<Id>, id: Id)
    requires StrictlyAscending(files) && PendingFilesClean(files, current, target, scan)
    requires multiset(history) == multiset(Ids(files))
    requires id in PlanPending(current, target, history)
    ensures exists file | file in files :: file.id == id && Clean(file, scan)
    ensures id in GatePending(current, target, Ids(files))
  {
    var ids := Ids(files);
    AcceptedOrderIsSorted(files);
    PlanIgnoresListing(current, target, history, ids);
    PlanIsWithinGate(current, target, ids);
    GatePendingMembers(current, target, ids, id);
    var i :| 0 <= i < |ids| && ids[i] == id;
    assert files[i] in files && files[i].id == id;
  }

  // ----- What is reported

  function Tagged(id: Id, pattern: Pattern, hits: seq<Hit>): seq<Operation> {
    seq(|hits|, i requires 0 <= i < |hits| => Operation(id, pattern, hits[i]))
  }

  lemma FileOperationsStep(file: MigrationFile, patterns: seq<Pattern>, last: Pattern, scan: Scanner)
    ensures FileOperations(file, patterns + [last], scan)
         == FileOperations(file, patterns, scan) + Tagged(file.id, last, scan(last, file.sql))
  {
    assert (patterns + [last])[..|patterns|] == patterns;
  }

  /** One file is reported under its own id: its dropped tables, then its dropped columns, then its
      dropped types, each in the order of the text. */
  lemma OperationsOfFile(file: MigrationFile, scan: Scanner)
    ensures Operations([file], scan)
         == Tagged(file.id, DropTable, scan(DropTable, file.sql))
          + Tagged(file.id, DropColumn, scan(DropColumn, file.sql))
          + Tagged(file.id, DropTypeCascade, scan(DropTypeCascade, file.sql))
  {
    FileOperationsStep(file, [], DropTable, scan);
    FileOperationsStep(file, [DropTable], DropColumn, scan);
    FileOperationsStep(file, [DropTable, DropColumn], DropTypeCascade, scan);
    assert [] + [DropTable] == [DropTable] && [DropTable] + [DropColumn] == [DropTable, DropColumn];
    assert PATTERNS == [DropTable, DropColumn] + [DropTypeCascade];
    OperationsOfSnoc([], file, scan);
    assert [] + [file] == [file];
  }

  lemma TaggedMembers(id: Id, pattern: Pattern, hits: seq<Hit>, op: Operation)
    ensures op in Tagged(id, pattern, hits) <==> op.migrationId == id && op.pattern == pattern && op.hit in hits
  {
    if op.migrationId == id && op.pattern == pattern && op.hit in hits {
      var i :| 0 <= i < |hits| && hits[i] == op.hit;
      assert Tagged(id, pattern, hits)[i] == op;
    }
  }

  lemma FileOperationMembers(file: MigrationFile, scan: Scanner, op: Operation)
    ensures op in Operations([file], scan) <==> op.migrationId == file.id && op.hit in scan(op.pattern, file.sql)
  {
    OperationsOfFile(file, scan);
    TaggedMembers(file.id, DropTable, scan(DropTable, file.sql), op);
    TaggedMembers(file.id, DropColumn, scan(DropColumn, file.sql), op);
    TaggedMembers(file.id, DropTypeCascade, scan(DropTypeCascade, file.sql), op);
  }

  /** An operation is reported exactly when some file of its id has its match for its pattern. */
  lemma {:induction false} OperationMembers(files: seq<MigrationFile>, scan: Scanner, op: Operation)
    ensures op in Operations(files, scan)
       <==> exists file | file in files :: op.migrationId == file.id && op.hit in scan(op.pattern, file.sql)
  {
    if files != [] {
      var init, last := files[..|files| - 1], files[|files| - 1];
      assert files == init + [last];
      OperationMembers(init, scan, op);
      FileOperationMembers(last, scan, op);
      OperationsOfConcat(init, [last], scan);
    }
  }

  /** The operations in a result: none on a history out of order, and otherwise exactly the matches in
      the files between the two ids. */
  lemma ReportedOperations(input: Input, files: seq<MigrationFile>, schema: SchemaFile, scan: Scanner, op: Operation)
    ensures op in Validate(input, files, schema, scan).operations
       <==> && input.target in Ids(files) && StrictlyAscending(files)
            && exists file | file in files ::
                 && Between(input.current, input.target, file.id)
                 && op.migrationId == file.id && op.hit in scan(op.pattern, file.sql)
  {
    var range := (file: MigrationFile) => Between(input.current, input.target, file.id);
    SelectedIsRange(files, input.current, input.target);
    OperationMembers(Filter(files, range), scan, op);
    forall file
      ensures file in Filter(files, range) <==> file in files && range(file)
    {
      FilterMembers(files, range, file);
    }
  }

  lemma AppliedIds(current: Id, ids: seq<Id>, id: Id)
    ensures id in GateApplied(current, ids) <==> id in ids && Leq(id, current)
    ensures Ascending(GateApplied(current, ids), Leq)
  {
    OrderIsTotal();
    SortIsSorted(Filter(ids, x => Leq(x, current)), Leq);
    SortedMembers(Filter(ids, x => Leq(x, current)), id);
    FilterMembers(ids, x => Leq(x, current), id);
  }

  lemma PendingIds(current: Id, target: Id, ids: seq<Id>, id: Id)
    ensures id in GatePending(current, target, ids) <==> id in ids && Less(current, id) && Leq(id, target)
    ensures Ascending(GatePending(current, target, ids), Leq)
  {
    OrderIsTotal();
    GatePendingMembers(current, target, ids, id);
    SortIsSorted(Filter(ids, x => Between(current, target, x)), Leq);
  }

  lemma ResultLists(input: Input, files: seq<MigrationFile>, schema: SchemaFile, scan: Scanner)
    ensures Validate(input, files, schema, scan).pending == GatePending(input.current, input.target, Ids(files))
    ensures Validate(input, files, schema, scan).applied == GateApplied(input.current, Ids(files))
  {
  }

  /** Whatever the verdict, a result lists as pending the ids above the current one up to the target, and
      as applied those up to the current one, each in ascending order. */
  lemma ReportedIds(input: Input, files: seq<MigrationFile>, schema: SchemaFile, scan: Scanner, id: Id)
    ensures var r := Validate(input, files, schema, scan);
      && (id in r.pending <==> id in Ids(files) && Less(input.current, id) && Leq(id, input.target))
      && (id in r.applied <==> id in Ids(files) && Leq(id, input.current))
      && Ascending(r.pending, Leq) && Ascending(r.applied, Leq)
  {
    ResultLists(input, files, schema, scan);
    PendingIds(input.current, input.target, Ids(files), id);
    AppliedIds(input.current, Ids(files), id);
  }
}
