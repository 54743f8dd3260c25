/** The gate that compares the protected models of a schema with the generated coverage list. The
    schema text, the artefacts' presence, the parsed coverage file and the model-block scan of the
    schema are inputs. */
module RlsGate {
  import opened CodeUnits
  import opened Environments
  import opened Sorting
  import opened Measures
  import opened RlsScripts

  const PROTECTED: seq<Name> := [
    Units("User"), Units("TenantSetting"), Units("KycProfile"), Units("ExchangeAccount"),
    Units("CopySubscription"), Units("Order"), Units("Position"), Units("PortfolioSnapshot"),
    Units("Subscription"), Units("Payment"), Units("Invoice"), Units("Notification"),
    Units("AuditLog"), Units("SecurityEvent"), Units("ComplianceCase"), Units("RiskConfiguration"),
    Units("CustodyWallet"), Units("CustodyWithdrawal"), Units("AccountBalanceSnapshot"),
    Units("ReconciliationDiscrepancy"), Units("ClientRelationship"), Units("TenantDomain"),
    Units("Role"), Units("RefreshToken"), Units("BacktestRun"), Units("PaperTradingSession"),
    Units("ExecutionOrder"), Units("ExecutionIncident")]

  datatype Status = CoverageComplete | FailedClosed | ArtifactMissing

  /** The coverage file as `JSON.parse` leaves it. */
  datatype CoverageFile = NoFile | Malformed | ListOf(pairs: seq<Pair>) | ObjectWith(covered: seq<Pair>)
                        | OtherShape

  /** Lists the models of a schema whose block mentions a tenant column. */
  type ModelScan = JsString -> seq<Name>

  datatype Input = Input(schema: SchemaFile, artifactsExist: bool, coverage: CoverageFile,
                         scan: ModelScan)

  datatype MissingPolicy = MissingPolicy(table: Name, model: Name)

  datatype Result = Result(status: Status, covered: seq<Name>, uncovered: seq<Name>,
                           missing: seq<MissingPolicy>, percent: int, total: nat)

  function LoadCoverage(file: CoverageFile): seq<Pair> {
    match file
    case ListOf(pairs) => pairs
    case ObjectWith(covered) => covered
    case _ => []
  }

  // ----- Names

  predicate IsLower(c: CodeUnit) { 97 <= c <= 122 }

  predicate IsUpper(c: CodeUnit) { 65 <= c <= 90 }

  function LowerCase(name: Name): Name {
    seq(|name|, i requires 0 <= i < |name| => if IsUpper(name[i]) then name[i] + 32 else name[i])
  }

  function SplitWords(name: Name): Name {
    if |name| < 2 then name
    else if IsLower(name[0]) && IsUpper(name[1]) then [name[0], 95] + SplitWords(name[1..])
    else [name[0]] + SplitWords(name[1..])
  }

  /** `KycProfile` becomes `kyc_profile`. */
  function ModelToTable(model: Name): Name {
    LowerCase(SplitWords(model))
  }

  // ----- The coverage loop

  predicate InSchema(model: Name, text: JsString, scanned: seq<Name>) {
    model in scanned || Includes(text, Units("model ") + model)
  }

  predicate HasPolicy(model: Name, coverage: seq<Pair>) {
    exists pair | pair in coverage :: pair.model == model || pair.table == ModelToTable(model)
  }

  function Percent(covered: nat, total: nat): int {
    if total == 0 then 100 else RoundHalfUp(covered as real / total as real * 100.0)
  }

  function MissingOf(models: seq<Name>): seq<MissingPolicy> {
    seq(|models|, i requires 0 <= i < |models| => MissingPolicy(ModelToTable(models[i]), models[i]))
  }

  function Covered(models: seq<Name>, text: JsString, scanned: seq<Name>, coverage: seq<Pair>): seq<Name> {
    Filter(models, (m: Name) => InSchema(m, text, scanned) && HasPolicy(m, coverage))
  }

  function Uncovered(models: seq<Name>, text: JsString, scanned: seq<Name>, coverage: seq<Pair>): seq<Name> {
    Filter(models, (m: Name) => InSchema(m, text, scanned) && !HasPolicy(m, coverage))
  }

  function Validate(models: seq<Name>, input: Input): Result {
    if input.schema.NoSchema? || input.schema.text == [] || !input.artifactsExist then
      Result(ArtifactMissing, [], models, MissingOf(models), 0, |models|)
    else
      var scanned := input.scan(input.schema.text);
      var coverage := LoadCoverage(input.coverage);
      var covered := Covered(models, input.schema.text, scanned, coverage);
      var uncovered := Uncovered(models, input.schema.text, scanned, coverage);
      var total := |covered| + |uncovered|;
      Result(if uncovered != [] then FailedClosed else CoverageComplete,
             covered, uncovered, MissingOf(uncovered), Percent(|covered|, total), total)
  }

  /** The gate as it runs: one pass over the protected models, pushing onto three lists. */
  method RunGate(models: seq<Name>, input: Input) returns (result: Result)
    ensures result == Validate(models, input)
  {
    if input.schema.NoSchema? || input.schema.text == [] || !input.artifactsExist {
      return Result(ArtifactMissing, [], models, MissingOf(models), 0, |models|);
    }
    var text := input.schema.text;
    var scanned, coverage := input.scan(text), LoadCoverage(input.coverage);
    var covered: seq<Name>, uncovered: seq<Name>, missing: seq<MissingPolicy> := [], [], [];
    for i := 0 to |models|
      invariant covered == Covered(models[..i], text, scanned, coverage)
      invariant uncovered == Uncovered(models[..i], text, scanned, coverage)
      invariant missing == MissingOf(uncovered)
    {
      var model := models[i];
      FilterOfPrefix(models, i, (m: Name) => InSchema(m, text, scanned) && HasPolicy(m, coverage));
      FilterOfPrefix(models, i, (m: Name) => InSchema(m, text, scanned) && !HasPolicy(m, coverage));
      if !InSchema(model, text, scanned) {
        continue;
      }
      if HasPolicy(model, coverage) {
        covered := covered + [model];
      } else {
        uncovered := uncovered + [model];
        missing := missing + [MissingPolicy(ModelToTable(model), model)];
      }
    }
    assert models[..|models|] == models;
    var total := |covered| + |uncovered|;
    var percent := Percent(|covered|, total);
    if uncovered != [] {
      return Result(FailedClosed, covered, uncovered, missing, percent, total);
    }
    return Result(CoverageComplete, covered, [], [], percent, total);
  }

  // ----- Percentages

  /** A part of a whole rounds to 100 per cent exactly when at most one in 200 is missing. */
  lemma RoundsToHundred(covered: nat, total: nat)
    requires covered <= total && total > 0
    ensures Percent(covered, total) == 100 <==> 200 * (total - covered) <= total
    ensures Percent(covered, total) <= 100
  {
    var share := covered as real / total as real;
    QuotientLess(covered as real, total as real, 0.995);
    QuotientLess(covered as real, total as real, 1.005);
    RoundingThreshold(share * 100.0, 99);
    RoundingThreshold(share * 100.0, 100);
  }

  lemma {:induction false} SplitIsNoLonger(models: seq<Name>, p: Name -> bool, q: Name -> bool)
    requires forall m :: !(p(m) && q(m))
    ensures |Filter(models, p)| + |Filter(models, q)| <= |models|
  {
    if models != [] {
      SplitIsNoLonger(models[1..], p, q);
    }
  }

  /** The readiness check's test on the reported percentage. */
  predicate ReadinessRlsCheck(percent: int) {
    !(percent < 100)
  }

  /** For any list of protected models: the percentage reads 100 while the gate fails closed
      exactly when something, but at most one model in 200, is uncovered. */
  lemma PercentHidesFailure(models: seq<Name>, input: Input)
    ensures var r := Validate(models, input);
      (ReadinessRlsCheck(r.percent) && r.status != CoverageComplete)
        <==> (r.status == FailedClosed && 0 < 200 * |r.uncovered| <= r.total)
  {
    var r := Validate(models, input);
    if r.status != ArtifactMissing && r.total > 0 {
      RoundsToHundred(|r.covered|, r.total);
    }
  }

  /** The program protects fewer than 200 models, so for it the rounded percentage, the readiness
      check and the gate's verdict all say the same. */
  lemma ReadinessAgreesWithGate(input: Input)
    ensures var r := Validate(PROTECTED, input);
      && (r.status == CoverageComplete <==> r.percent == 100)
      && (r.status == CoverageComplete <==> ReadinessRlsCheck(r.percent))
  {
    var r := Validate(PROTECTED, input);
    PercentHidesFailure(PROTECTED, input);
    if r.status != ArtifactMissing {
      var text := input.schema.text;
      var scanned, coverage := input.scan(text), LoadCoverage(input.coverage);
      SplitIsNoLonger(PROTECTED, (m: Name) => InSchema(m, text, scanned) && HasPolicy(m, coverage),
                      (m: Name) => InSchema(m, text, scanned) && !HasPolicy(m, coverage));
      if r.total > 0 {
        RoundsToHundred(|r.covered|, r.total);
      }
    }
  }

  // ----- What a verdict means

  predicate MustBlockDeployment(result: Result) {
    result.status == FailedClosed || result.status == ArtifactMissing
  }

  /** The gate lets a deployment through exactly when its inputs are there and every protected
      model of the schema has a policy. */
  lemma PassesIffCovered(models: seq<Name>, input: Input)
    ensures !MustBlockDeployment(Validate(models, input)) <==>
      && input.schema.Schema? && input.schema.text != [] && input.artifactsExist
      && forall m | m in models && InSchema(m, input.schema.text, input.scan(input.schema.text)) ::
           HasPolicy(m, LoadCoverage(input.coverage))
  {
    if input.schema.Schema? && input.schema.text != [] && input.artifactsExist {
      var text := input.schema.text;
      var scanned, coverage := input.scan(text), LoadCoverage(input.coverage);
      var fails := (m: Name) => InSchema(m, text, scanned) && !HasPolicy(m, coverage);
      var uncovered := Filter(models, fails);
      if uncovered != [] {
        FilterMembers(models, fails, uncovered[0]);
      } else {
        forall m | m in models
          ensures !fails(m)
        {
          FilterMembers(models, fails, m);
        }
      }
    }
  }

  /** A covered model of the schema has the name, or maps to the table the gate expects. */
  ghost predicate SchemaCovers(schema: seq<Model>, m: Name) {
    exists model | model in schema && IsCovered(model) ::
      model.name == m || model.table.name == ModelToTable(m)
  }

  /** On the coverage file that the generator writes for the same schema, the gate passes exactly
      when every protected model in the schema is itself a covered model or shares its table name
      with one. */
  lemma GateOnGeneratedCoverage(models: seq<Name>, schema: seq<Model>, leq: (Pair, Pair) -> bool, input: Input)
    requires TotalOrder(leq) && TablesOf(schema, leq).Tables?
    requires input.schema.Schema? && input.schema.text != [] && input.artifactsExist
    requires input.coverage == ObjectWith(TablesOf(schema, leq).covered)
    ensures !MustBlockDeployment(Validate(models, input)) <==>
      forall m | m in models && InSchema(m, input.schema.text, input.scan(input.schema.text)) ::
        SchemaCovers(schema, m)
  {
    PassesIffCovered(models, input);
    forall m
      ensures HasPolicy(m, TablesOf(schema, leq).covered) <==> SchemaCovers(schema, m)
    {
      PolicyFromSchema(schema, leq, m);
    }
  }

  lemma PolicyFromSchema(schema: seq<Model>, leq: (Pair, Pair) -> bool, m: Name)
    requires TotalOrder(leq) && TablesOf(schema, leq).Tables?
    ensures HasPolicy(m, TablesOf(schema, leq).covered) <==> SchemaCovers(schema, m)
  {
    var covered := TablesOf(schema, leq).covered;
    if HasPolicy(m, covered) {
      var pair :| pair in covered && (pair.model == m || pair.table == ModelToTable(m));
      ListedExactly(schema, leq, pair);
      var model := Model(pair.model, Table(pair.table), RequiredUuid);
      assert IsCovered(model);
      assert model.name == m || model.table.name == ModelToTable(m);
    }
    if SchemaCovers(schema, m) {
      var model :| model in schema && IsCovered(model)
                   && (model.name == m || model.table.name == ModelToTable(m));
      ListedExactly(schema, leq, PairOf(model));
      assert model == Model(model.name, Table(model.table.name), RequiredUuid);
      assert PairOf(model) in covered;
    }
  }

  lemma UncoveredModelBlocks(models: seq<Name>, input: Input, m: Name)
    requires input.schema.Schema? && input.schema.text != [] && input.artifactsExist
    requires m in models && InSchema(m, input.schema.text, input.scan(input.schema.text))
    requires !HasPolicy(m, LoadCoverage(input.coverage))
    ensures Validate(models, input).status == FailedClosed
    ensures m in Validate(models, input).uncovered
  {
    var text := input.schema.text;
    var scanned, coverage := input.scan(text), LoadCoverage(input.coverage);
    FilterMembers(models, (n: Name) => InSchema(n, text, scanned) && !HasPolicy(n, coverage), m);
  }

  /** The generator leaves models with an optional tenant column out of its covered list. When one
      of them is protected, as `AuditLog` is, the gate fails closed on the generated coverage. */
  lemma ExcludedProtectedModelBlocks(schema: seq<Model>, leq: (Pair, Pair) -> bool, input: Input, m: Name)
    requires TotalOrder(leq) && TablesOf(schema, leq).Tables?
    requires input.schema.Schema? && input.schema.text != [] && input.artifactsExist
    requires input.coverage == ObjectWith(TablesOf(schema, leq).covered)
    requires m in PROTECTED && InSchema(m, input.schema.text, input.scan(input.schema.text))
    requires forall model | model in schema && model.name == m :: IsExcluded(model)
    requires forall model | model in schema && model.table.Table? :: model.table.name != ModelToTable(m)
    ensures Validate(PROTECTED, input).status == FailedClosed
    ensures m in Validate(PROTECTED, input).uncovered
  {
    PolicyFromSchema(schema, leq, m);
    UncoveredModelBlocks(PROTECTED, input, m);
  }

  // ----- The failing case

  const AUDIT_LOG: Name := Units("AuditLog")

  /** The audit log as the platform has it: mapped to `audit_logs`, its tenant optional. */
  const AUDIT_MODEL: Model := Model(AUDIT_LOG, Table(Units("audit_logs")), Optional)

  lemma {:induction false} SplitWordsEnds(name: Name)
    requires name != []
    ensures SplitWords(name) != [] && SplitWords(name)[|SplitWords(name)| - 1] == name[|name| - 1]
  {
    if |name| >= 2 {
      SplitWordsEnds(name[1..]);
    }
  }

  /** The table that the gate expects for `AuditLog` ends in `g`, so it is not `audit_logs`. */
  lemma AuditTableIsNotExpected()
    ensures AUDIT_MODEL.table.name != ModelToTable(AUDIT_LOG)
  {
    SplitWordsEnds(AUDIT_LOG);
    var expected := ModelToTable(AUDIT_LOG);
    assert expected[|expected| - 1] == 103;
    var actual := AUDIT_MODEL.table.name;
    assert actual[|actual| - 1] == 115;
  }

  lemma {:induction false} ProtectsAuditLog()
    ensures AUDIT_LOG in PROTECTED
  {
    assert PROTECTED[12] == AUDIT_LOG;
  }

  /** Every schema with the audit log as the platform has it, for which the generator writes a coverage
      file, makes the gate fail closed on that file, unless another model is mapped to the very table
      that the gate expects. */
  lemma GateFailsOnAuditLog(others: seq<Model>, leq: (Pair, Pair) -> bool, input: Input)
    requires TotalOrder(leq)
    requires |Pairs(others, IsCovered)| >= LEAST_COVERED
    requires forall model | model in others :: !IsRefused(model) && model.name != AUDIT_LOG
    requires forall model | model in others && model.table.Table? :: model.table.name != ModelToTable(AUDIT_LOG)
    requires input.schema.Schema? && Includes(input.schema.text, Units("model ") + AUDIT_LOG)
    requires input.artifactsExist
    ensures var tables := Generated(others + [AUDIT_MODEL], leq);
      && tables.Tables?
      && (input.coverage == ObjectWith(tables.covered) ==>
            Validate(PROTECTED, input).status == FailedClosed && AUDIT_LOG in Validate(PROTECTED, input).uncovered)
  {
    var schema := others + [AUDIT_MODEL];
    PairsOfSnoc(others, AUDIT_MODEL, IsCovered);
    ProtectsAuditLog();
    AuditTableIsNotExpected();
    if input.coverage == ObjectWith(TablesOf(schema, leq).covered) {
      ExcludedProtectedModelBlocks(schema, leq, input, AUDIT_LOG);
    }
  }

  /** As many ordinary tenant tables as the generator asks for, named by two letters. */
  function TenantModels(): seq<Model> {
    seq(LEAST_COVERED, i requires 0 <= i < LEAST_COVERED => Model([84, 65 + i], Table([116, 65 + i]), RequiredUuid))
  }

  /** With these tables and the audit log the generator writes a file, and the gate refuses it. */
  lemma GateFailsOnWrittenFile(leq: (Pair, Pair) -> bool, input: Input)
    requires TotalOrder(leq)
    requires input.schema.Schema? && Includes(input.schema.text, Units("model ") + AUDIT_LOG)
    requires input.artifactsExist
    ensures var tables := Generated(TenantModels() + [AUDIT_MODEL], leq);
      && tables.Tables?
      && (input.coverage == ObjectWith(tables.covered) ==> MustBlockDeployment(Validate(PROTECTED, input)))
  {
    PairsOfAll(TenantModels(), IsCovered);
    assert |AUDIT_LOG| == 8;
    SplitWordsEnds(AUDIT_LOG);
    assert ModelToTable(AUDIT_LOG)[|ModelToTable(AUDIT_LOG)| - 1] == 103;
    GateFailsOnAuditLog(TenantModels(), leq, input);
  }

  // ----- What is reported

  /** With its inputs there, a result lists a model as covered or uncovered exactly if it is protected and
      in the schema, by whether it has a policy; the missing policies are those of the uncovered models, and
      the total counts both lists. Without them nothing is covered. */
  lemma ReportedModels(models: seq<Name>, input: Input, m: Name)
    ensures var r := Validate(models, input);
      var present := input.schema.Schema? && input.schema.text != [] && input.artifactsExist;
      && (r.status == ArtifactMissing <==> !present)
      && (present ==>
            var inSchema := m in models && InSchema(m, input.schema.text, input.scan(input.schema.text));
            && (m in r.covered <==> inSchema && HasPolicy(m, LoadCoverage(input.coverage)))
            && (m in r.uncovered <==> inSchema && !HasPolicy(m, LoadCoverage(input.coverage)))
            && r.total == |r.covered| + |r.uncovered|)
      && (!present ==> r.covered == [] && r.uncovered == models && r.percent == 0 && r.total == |models|)
      && |r.missing| == |r.uncovered|
      && forall i | 0 <= i < |r.missing| :: r.missing[i] == MissingPolicy(ModelToTable(r.uncovered[i]), r.uncovered[i])
  {
    if input.schema.Schema? && input.schema.text != [] && input.artifactsExist {
      var text := input.schema.text;
      var scanned, coverage := input.scan(text), LoadCoverage(input.coverage);
      FilterMembers(models, (n: Name) => InSchema(n, text, scanned) && HasPolicy(n, coverage), m);
      FilterMembers(models, (n: Name) => InSchema(n, text, scanned) && !HasPolicy(n, coverage), m);
    }
  }

  // ----- Table names

  function WithoutUnderscores(name: Name): Name {
    Filter(name, (c: CodeUnit) => c != 95)
  }

  predicate Boundary(name: Name, i: nat) {
    i + 1 < |name| && IsLower(name[i]) && IsUpper(name[i + 1])
  }

  function Boundaries(name: Name): nat {
    if |name| < 2 then 0 else (if Boundary(name, 0) then 1 else 0) + Boundaries(name[1..])
  }

  lemma BoundaryOfTail(head: Name, tail: Name, i: nat)
    requires i >= |head|
    ensures Boundary(head + tail, i) <==> Boundary(tail, i - |head|)
  {
  }

  /** Splitting a name adds one underscore for each place where a lower-case letter meets an upper-case
      one, leaves no such place, and changes nothing else. */
  lemma {:induction false} SplitWordsMeaning(name: Name)
    ensures |SplitWords(name)| == |name| + Boundaries(name)
    ensures WithoutUnderscores(SplitWords(name)) == WithoutUnderscores(name)
    ensures forall i | 0 <= i :: !Boundary(SplitWords(name), i)
    ensures name != [] ==> SplitWords(name) != [] && SplitWords(name)[0] == name[0]
  {
    if |name| >= 2 {
      var tail := SplitWords(name[1..]);
      SplitWordsMeaning(name[1..]);
      var head := if Boundary(name, 0) then [name[0], 95] else [name[0]];
      assert SplitWords(name) == head + tail;
      SplitKeepsLetters(head, name[0], tail);
      forall i | 0 <= i
        ensures !Boundary(head + tail, i)
      {
        if i >= |head| {
          BoundaryOfTail(head, tail, i);
        }
      }
    }
  }

  lemma SplitKeepsLetters(head: Name, first: CodeUnit, tail: Name)
    requires head == [first] || head == [first, 95]
    ensures WithoutUnderscores(head + tail) == WithoutUnderscores([first] + tail)
  {
    assert ([first] + tail)[1..] == tail;
    if head == [first, 95] {
      assert (head + tail)[1..] == [95] + tail && ([95] + tail)[1..] == tail;
      assert WithoutUnderscores([95] + tail) == WithoutUnderscores(tail);
    }
  }

  /** The table name is lower-case throughout and as long as the split name. */
  lemma TableNameIsLower(model: Name)
    ensures |ModelToTable(model)| == |model| + Boundaries(model)
    ensures forall i | 0 <= i < |ModelToTable(model)| ::
      var c := SplitWords(model)[i];
      !IsUpper(ModelToTable(model)[i]) && ModelToTable(model)[i] == if IsUpper(c) then c + 32 else c
  {
    SplitWordsMeaning(model);
  }

  // ----- What counts as declared

  /** A model is taken for declared if the scan of the model blocks finds it, and also if its declaration
      stands anywhere in the text, a comment included. */
  lemma DeclarationCounts(before: JsString, model: Name, after: JsString, scanned: seq<Name>)
    ensures InSchema(model, before + ((Units("model ") + model) + after), scanned)
    ensures model in scanned ==> InSchema(model, before, scanned)
  {
    var part := Units("model ") + model;
    var text := before + (part + after);
    assert text[|before|..|before| + |part|] == part;
    assert OccursAt(text, part, |before|);
  }

  /** So the declaration of a model declares every shorter name that its name begins with: with
      `OrderItem` in the schema and no policy for `Order`, the gate fails closed on a model that is not
      there. */
  lemma LongerNameDeclares(models: seq<Name>, input: Input, before: JsString, m: Name, suffix: JsString,
                           after: JsString)
    requires input.schema == Schema(before + ((Units("model ") + m) + (suffix + after))) && input.artifactsExist
    requires m in models && !HasPolicy(m, LoadCoverage(input.coverage))
    ensures Validate(models, input).status == FailedClosed && m in Validate(models, input).uncovered
  {
    DeclarationCounts(before, m, suffix + after, input.scan(input.schema.text));
    UncoveredModelBlocks(models, input, m);
  }

  lemma ProtectedModels()
    ensures |PROTECTED| == 28
  {
  }
}
