/** The preflight run over its checks, and what a passed preflight guarantees for the plan that
    will be executed. The environment validator's verdict and the presence of variables are
    inputs; checks whose result is a constant appear with that result. */
module Preflight {
  import opened Sorting
  import opened Environments
  import opened MigrationHistory
  import MigrationGate
  import RlsGate

  datatype Status = Passed | Failed | Degraded

  datatype Name =
    | EnvironmentConfig | DatabaseConnectivity | RedisConnectivity | QueueHealth | SecurityControls
    | OperationsControls | BillingControls | ExchangeConnectivity | CustodyControls | RiskControls
    | ComplianceControls | OmsControls | MigrationGateCheck | RlsGateCheck | BackupPrerequisites

  datatype Check = Check(name: Name, status: Status, isCritical: bool)

  datatype Input = Input(
    environment: Environment, environmentValid: bool, databaseUrl: bool, redisConfigured: bool,
    encryptionKey: bool, jwtSecrets: bool, current: Id, target: Id, backupVerified: bool,
    files: seq<MigrationGate.MigrationFile>, scan: MigrationGate.Scanner, schema: SchemaFile,
    rlsArtifactsExist: bool, coverage: RlsGate.CoverageFile, modelScan: RlsGate.ModelScan)

  datatype Result = Result(passed: bool, checks: seq<Check>, criticalFailures: seq<Name>,
                           warnings: seq<Name>)

  function StatusIf(ok: bool): Status {
    if ok then Passed else Failed
  }

  function GateInput(input: Input): MigrationGate.Input {
    MigrationGate.Input(input.environment, input.current, input.target,
                        input.environment != Production, input.environment == Production,
                        input.backupVerified)
  }

  function MigrationVerdict(input: Input): MigrationGate.Result {
    MigrationGate.Validate(GateInput(input), input.files, input.schema, input.scan)
  }

  function RlsVerdict(input: Input): RlsGate.Result {
    RlsGate.Validate(RlsGate.PROTECTED,
                     RlsGate.Input(input.schema, input.rlsArtifactsExist, input.coverage, input.modelScan))
  }

  function CheckMigrationGate(input: Input): Check {
    var status := MigrationVerdict(input).status;
    Check(MigrationGateCheck, StatusIf(status == MigrationGate.Valid || status == MigrationGate.ApprovalRequired), true)
  }

  function CheckRlsGate(input: Input): Check {
    Check(RlsGateCheck, StatusIf(RlsVerdict(input).status == RlsGate.CoverageComplete), true)
  }

  function CheckBackupPrerequisites(input: Input): Check {
    if input.environment == Production && !input.backupVerified then
      Check(BackupPrerequisites, Failed, true)
    else
      Check(BackupPrerequisites, Passed, input.environment == Production)
  }

  function Checks(input: Input): seq<Check> {
    Listed(StatusIf(input.environmentValid), StatusIf(input.databaseUrl),
           StatusIf(input.redisConfigured), StatusIf(input.encryptionKey && input.jwtSecrets),
           CheckMigrationGate(input), CheckRlsGate(input), CheckBackupPrerequisites(input))
  }

  /** The fifteen checks in the order they run. */
  function Listed(environment: Status, database: Status, redis: Status, security: Status,
                  migration: Check, rls: Check, backup: Check): seq<Check>
  {
    [ Check(EnvironmentConfig, environment, true), Check(DatabaseConnectivity, database, true),
      Check(RedisConnectivity, redis, true), Check(QueueHealth, Passed, true),
      Check(SecurityControls, security, true), Check(OperationsControls, Passed, true),
      Check(BillingControls, Passed, false), Check(ExchangeConnectivity, Passed, false),
      Check(CustodyControls, Passed, true), Check(RiskControls, Passed, true),
      Check(ComplianceControls, Passed, true), Check(OmsControls, Passed, true),
      migration, rls, backup ]
  }

  predicate Critical(check: Check) {
    check.status == Failed && check.isCritical
  }

  predicate IsDegraded(check: Check) {
    check.status == Degraded
  }

  function Names(checks: seq<Check>): seq<Name> {
    seq(|checks|, i requires 0 <= i < |checks| => checks[i].name)
  }

  /** The collecting loop, over any checks: the critical failures and the degraded checks, each in
      order, and a pass exactly when nothing critical failed. */
  method Collect(checks: seq<Check>) returns (result: Result)
    ensures result.checks == checks
    ensures result.criticalFailures == Names(Filter(checks, Critical))
    ensures result.warnings == Names(Filter(checks, IsDegraded))
    ensures result.passed <==> forall check | check in checks :: !Critical(check)
  {
    var criticalFailures: seq<Name>, warnings: seq<Name> := [], [];
    for i := 0 to |checks|
      invariant criticalFailures == Names(Filter(checks[..i], Critical))
      invariant warnings == Names(Filter(checks[..i], IsDegraded))
      invariant criticalFailures == [] <==> forall check | check in checks[..i] :: !Critical(check)
    {
      var check := checks[i];
      assert checks[..i + 1] == checks[..i] + [check];
      FilterOfPrefix(checks, i, Critical);
      FilterOfPrefix(checks, i, IsDegraded);
      if check.status == Failed && check.isCritical {
        criticalFailures := criticalFailures + [check.name];
      }
      if check.status == Degraded {
        warnings := warnings + [check.name];
      }
    }
    assert checks[..|checks|] == checks;
    result := Result(criticalFailures == [], checks, criticalFailures, warnings);
  }

  ghost predicate Passes(input: Input) {
    forall check | check in Checks(input) :: !Critical(check)
  }

  lemma NoneDegraded(environment: Status, database: Status, redis: Status, security: Status,
                     migration: Check, rls: Check, backup: Check)
    requires environment != Degraded && database != Degraded && redis != Degraded && security != Degraded
    requires !IsDegraded(migration) && !IsDegraded(rls) && !IsDegraded(backup)
    ensures Filter(Listed(environment, database, redis, security, migration, rls, backup), IsDegraded) == []
  {
    var checks := Listed(environment, database, redis, security, migration, rls, backup);
    var found := Filter(checks, IsDegraded);
    if found != [] {
      FilterMembers(checks, IsDegraded, found[0]);
      assert false;
    }
  }

  /** No check of this program ever reports itself degraded. */
  lemma NothingDegraded(input: Input)
    ensures Filter(Checks(input), IsDegraded) == []
  {
    NoneDegraded(StatusIf(input.environmentValid), StatusIf(input.databaseUrl),
                 StatusIf(input.redisConfigured), StatusIf(input.encryptionKey && input.jwtSecrets),
                 CheckMigrationGate(input), CheckRlsGate(input), CheckBackupPrerequisites(input));
  }

  method Run(input: Input) returns (result: Result)
    ensures result.checks == Checks(input)
    ensures result.criticalFailures == Names(Filter(Checks(input), Critical))
    ensures result.warnings == []
    ensures result.passed <==> Passes(input)
  {
    result := Collect(Checks(input));
    NothingDegraded(input);
  }

  // ----- Which failures are named

  lemma {:induction false} NamedFailures(checks: seq<Check>, name: Name)
    ensures name in Names(Filter(checks, Critical))
       <==> exists check | check in checks :: check.name == name && Critical(check)
  {
    var failed := Filter(checks, Critical);
    if name in Names(failed) {
      var i :| 0 <= i < |failed| && failed[i].name == name;
      FilterMembers(checks, Critical, failed[i]);
    }
    if exists check | check in checks :: check.name == name && Critical(check) {
      var check :| check in checks && check.name == name && Critical(check);
      FilterMembers(checks, Critical, check);
      var i :| 0 <= i < |failed| && failed[i] == check;
      assert Names(failed)[i] == name;
    }
  }

  /** Where a name stands among the checks. */
  function Position(name: Name): (i: nat)
    ensures i < 15
  {
    match name
    case EnvironmentConfig => 0
    case DatabaseConnectivity => 1
    case RedisConnectivity => 2
    case QueueHealth => 3
    case SecurityControls => 4
    case OperationsControls => 5
    case BillingControls => 6
    case ExchangeConnectivity => 7
    case CustodyControls => 8
    case RiskControls => 9
    case ComplianceControls => 10
    case OmsControls => 11
    case MigrationGateCheck => 12
    case RlsGateCheck => 13
    case BackupPrerequisites => 14
  }

  lemma ListedAt(environment: Status, database: Status, redis: Status, security: Status,
                 migration: Check, rls: Check, backup: Check, i: nat)
    requires migration.name == MigrationGateCheck && rls.name == RlsGateCheck && backup.name == BackupPrerequisites
    requires i < 15
    ensures Position(Listed(environment, database, redis, security, migration, rls, backup)[i].name) == i
  {
  }

  lemma FailureAt(checks: seq<Check>, k: nat, name: Name)
    requires k < |checks| && forall i | 0 <= i < |checks| :: checks[i].name == name <==> i == k
    ensures (exists check | check in checks :: check.name == name && Critical(check)) <==> Critical(checks[k])
  {
    if Critical(checks[k]) {
      assert checks[k] in checks && checks[k].name == name;
    }
  }

  lemma NameDecidesPosition(a: Name, b: Name)
    ensures Position(a) == Position(b) <==> a == b
  {
  }

  lemma ListedFailures(environment: Status, database: Status, redis: Status, security: Status,
                       migration: Check, rls: Check, backup: Check, name: Name)
    requires migration.name == MigrationGateCheck && rls.name == RlsGateCheck && backup.name == BackupPrerequisites
    ensures var c := Listed(environment, database, redis, security, migration, rls, backup);
      (exists check | check in c :: check.name == name && Critical(check)) <==> Critical(c[Position(name)])
  {
    var c := Listed(environment, database, redis, security, migration, rls, backup);
    forall i | 0 <= i < |c|
      ensures c[i].name == name <==> i == Position(name)
    {
      ListedAt(environment, database, redis, security, migration, rls, backup, i);
      NameDecidesPosition(c[i].name, name);
    }
    FailureAt(c, Position(name), name);
  }

  lemma ListedCritical(environment: Status, database: Status, redis: Status, security: Status,
                       migration: Check, rls: Check, backup: Check, name: Name)
    ensures Critical(Listed(environment, database, redis, security, migration, rls, backup)[Position(name)]) <==>
      match name
      case EnvironmentConfig => environment == Failed
      case DatabaseConnectivity => database == Failed
      case RedisConnectivity => redis == Failed
      case SecurityControls => security == Failed
      case MigrationGateCheck => Critical(migration)
      case RlsGateCheck => Critical(rls)
      case BackupPrerequisites => Critical(backup)
      case _ => false
  {
  }

  lemma GateChecksMean(input: Input)
    ensures Critical(CheckMigrationGate(input)) <==>
      var status := MigrationVerdict(input).status;
      status != MigrationGate.Valid && status != MigrationGate.ApprovalRequired
    ensures Critical(CheckRlsGate(input)) <==> RlsVerdict(input).status != RlsGate.CoverageComplete
    ensures Critical(CheckBackupPrerequisites(input)) <==> input.environment == Production && !input.backupVerified
    ensures CheckMigrationGate(input).name == MigrationGateCheck && CheckRlsGate(input).name == RlsGateCheck
    ensures CheckBackupPrerequisites(input).name == BackupPrerequisites
  {
  }

  lemma FailuresAreListed(environment: bool, database: bool, redis: bool, security: bool,
                          migration: Check, rls: Check, backup: Check, name: Name)
    requires migration.name == MigrationGateCheck && rls.name == RlsGateCheck && backup.name == BackupPrerequisites
    ensures var c := Listed(StatusIf(environment), StatusIf(database), StatusIf(redis), StatusIf(security),
                            migration, rls, backup);
      name in Names(Filter(c, Critical)) <==>
        match name
        case EnvironmentConfig => !environment
        case DatabaseConnectivity => !database
        case RedisConnectivity => !redis
        case SecurityControls => !security
        case MigrationGateCheck => Critical(migration)
        case RlsGateCheck => Critical(rls)
        case BackupPrerequisites => Critical(backup)
        case _ => false
  {
    var e, d, r, s := StatusIf(environment), StatusIf(database), StatusIf(redis), StatusIf(security);
    NamedFailures(Listed(e, d, r, s, migration, rls, backup), name);
    ListedFailures(e, d, r, s, migration, rls, backup, name);
    ListedCritical(e, d, r, s, migration, rls, backup, name);
  }

  lemma GatesAreListed(environment: bool, database: bool, redis: bool, security: bool,
                       migration: Check, rls: Check, backup: Check)
    requires migration.name == MigrationGateCheck && rls.name == RlsGateCheck && backup.name == BackupPrerequisites
    ensures var c := Listed(StatusIf(environment), StatusIf(database), StatusIf(redis), StatusIf(security),
                            migration, rls, backup);
      && (MigrationGateCheck in Names(Filter(c, Critical)) <==> Critical(migration))
      && (RlsGateCheck in Names(Filter(c, Critical)) <==> Critical(rls))
      && (BackupPrerequisites in Names(Filter(c, Critical)) <==> Critical(backup))
  {
    FailuresAreListed(environment, database, redis, security, migration, rls, backup, MigrationGateCheck);
    FailuresAreListed(environment, database, redis, security, migration, rls, backup, RlsGateCheck);
    FailuresAreListed(environment, database, redis, security, migration, rls, backup, BackupPrerequisites);
  }

  /** In every environment the run names as critical failures, among the checks that are no gates, exactly
      those whose input is missing or wrong. */
  lemma ConfigurationFailures(input: Input, name: Name)
    requires name != MigrationGateCheck && name != RlsGateCheck && name != BackupPrerequisites
    ensures name in Names(Filter(Checks(input), Critical)) <==>
      || (name == EnvironmentConfig && !input.environmentValid)
      || (name == DatabaseConnectivity && !input.databaseUrl)
      || (name == RedisConnectivity && !input.redisConfigured)
      || (name == SecurityControls && !(input.encryptionKey && input.jwtSecrets))
  {
    FailuresAreListed(input.environmentValid, input.databaseUrl, input.redisConfigured,
                      input.encryptionKey && input.jwtSecrets,
                      CheckMigrationGate(input), CheckRlsGate(input), CheckBackupPrerequisites(input), name);
  }

  /** And among the gates exactly those whose verdict is no pass, and the backup in production alone. */
  lemma GateFailures(input: Input)
    ensures MigrationGateCheck in Names(Filter(Checks(input), Critical)) <==>
      var status := MigrationVerdict(input).status;
      status != MigrationGate.Valid && status != MigrationGate.ApprovalRequired
    ensures RlsGateCheck in Names(Filter(Checks(input), Critical))
       <==> RlsVerdict(input).status != RlsGate.CoverageComplete
    ensures BackupPrerequisites in Names(Filter(Checks(input), Critical))
       <==> input.environment == Production && !input.backupVerified
  {
    GateChecksMean(input);
    GatesAreListed(input.environmentValid, input.databaseUrl, input.redisConfigured,
                   input.encryptionKey && input.jwtSecrets,
                   CheckMigrationGate(input), CheckRlsGate(input), CheckBackupPrerequisites(input));
  }

  lemma ListedChecks(environment: Status, database: Status, redis: Status, security: Status,
                     migration: Check, rls: Check, backup: Check, i: nat)
    requires migration.name == MigrationGateCheck && rls.name == RlsGateCheck && backup.name == BackupPrerequisites
    requires migration.isCritical && rls.isCritical
    requires i < 15
    ensures var check := Listed(environment, database, redis, security, migration, rls, backup)[i];
      && Position(check.name) == i
      && (check.isCritical <==>
            check.name != BillingControls && check.name != ExchangeConnectivity
            && (check.name == BackupPrerequisites ==> backup.isCritical))
      && ((3 <= i < 12 && check.name != SecurityControls) ==> check.status == Passed)
  {
  }

  lemma GatesAreCritical(input: Input)
    ensures CheckMigrationGate(input).isCritical && CheckRlsGate(input).isCritical
    ensures CheckBackupPrerequisites(input).isCritical <==> input.environment == Production
  {
  }

  /** The report lists the fifteen checks in their order. All are critical but billing, the exchange and,
      outside production, the backup; the checks without a probe of their own report a pass. */
  lemma ReportedChecks(input: Input, i: nat)
    requires i < 15
    ensures |Checks(input)| == 15
    ensures var check := Checks(input)[i];
      && Position(check.name) == i
      && (check.isCritical <==>
            check.name != BillingControls && check.name != ExchangeConnectivity
            && (check.name == BackupPrerequisites ==> input.environment == Production))
      && ((3 <= i < 12 && check.name != SecurityControls) ==> check.status == Passed)
  {
    GateChecksMean(input);
    GatesAreCritical(input);
    ListedChecks(StatusIf(input.environmentValid), StatusIf(input.databaseUrl), StatusIf(input.redisConfigured),
                 StatusIf(input.encryptionKey && input.jwtSecrets),
                 CheckMigrationGate(input), CheckRlsGate(input), CheckBackupPrerequisites(input), i);
  }

  /** In every environment the migration gate is named as failed unless the target is listed, the ids
      ascend, the schema file is valid and, in production, the backup is verified and the pending files
      are clean: outside production destructive files pass. */
  lemma MigrationFailureMeans(input: Input)
    ensures MigrationGateCheck !in Names(Filter(Checks(input), Critical)) <==>
      && input.target in MigrationGate.Ids(input.files) && MigrationGate.StrictlyAscending(input.files)
      && MigrationGate.SchemaFileValid(input.schema)
      && (input.environment == Production ==>
            input.backupVerified
            && MigrationGate.PendingFilesClean(input.files, input.current, input.target, input.scan))
  {
    GateFailures(input);
    MigrationGate.VerdictMeaning(GateInput(input), input.files, input.schema, input.scan);
  }

  // ----- What a pass means

  lemma ListedDecides(environment: Status, database: Status, redis: Status, security: Status,
                      migration: Check, rls: Check, backup: Check)
    ensures (forall check | check in Listed(environment, database, redis, security, migration, rls, backup) ::
               !Critical(check)) <==>
      && environment != Failed && database != Failed && redis != Failed && security != Failed
      && !Critical(migration) && !Critical(rls) && !Critical(backup)
  {
    var c := Listed(environment, database, redis, security, migration, rls, backup);
    if forall check | check in c :: !Critical(check) {
      assert !Critical(c[0]) && !Critical(c[1]) && !Critical(c[2]) && !Critical(c[4]);
      assert !Critical(c[12]) && !Critical(c[13]) && !Critical(c[14]);
    }
  }

  lemma GatesDecide(input: Input)
    ensures Passes(input) <==>
      && input.environmentValid && input.databaseUrl && input.redisConfigured
      && input.encryptionKey && input.jwtSecrets
      && !Critical(CheckMigrationGate(input)) && !Critical(CheckRlsGate(input))
      && !Critical(CheckBackupPrerequisites(input))
  {
    ListedDecides(StatusIf(input.environmentValid), StatusIf(input.databaseUrl),
                  StatusIf(input.redisConfigured), StatusIf(input.encryptionKey && input.jwtSecrets),
                  CheckMigrationGate(input), CheckRlsGate(input), CheckBackupPrerequisites(input));
  }

  /** There is a schema file, and every protected model that it declares is in the coverage file. */
  ghost predicate EveryModelHasPolicy(input: Input) {
    input.schema.Schema? &&
    forall m | m in RlsGate.PROTECTED
            && RlsGate.InSchema(m, input.schema.text, input.modelScan(input.schema.text)) ::
      RlsGate.HasPolicy(m, RlsGate.LoadCoverage(input.coverage))
  }

  /** On a valid schema file the second gate passes exactly when its artefacts are there and every
      protected model of that file has a policy. */
  lemma RlsPassesIff(input: Input)
    requires MigrationGate.SchemaFileValid(input.schema)
    ensures RlsVerdict(input).status == RlsGate.CoverageComplete
       <==> input.rlsArtifactsExist && EveryModelHasPolicy(input)
  {
    assert input.schema.text != [];
    RlsGate.PassesIffCovered(RlsGate.PROTECTED,
                             RlsGate.Input(input.schema, input.rlsArtifactsExist, input.coverage, input.modelScan));
  }

  /** In every environment a preflight passes exactly when the environment is configured, the history is
      strictly ascending and lists the target, the schema file is valid, and every protected model in that
      file has a policy; in production also a verified backup and clean pending files. */
  lemma PassesIff(input: Input)
    ensures Passes(input) <==>
      && input.environmentValid && input.databaseUrl && input.redisConfigured
      && input.encryptionKey && input.jwtSecrets
      && input.target in MigrationGate.Ids(input.files)
      && MigrationGate.StrictlyAscending(input.files)
      && (input.environment == Production ==>
            && input.backupVerified
            && MigrationGate.PendingFilesClean(input.files, input.current, input.target, input.scan))
      && MigrationGate.SchemaFileValid(input.schema)
      && input.rlsArtifactsExist && EveryModelHasPolicy(input)
  {
    GatesDecide(input);
    MigrationGate.VerdictMeaning(GateInput(input), input.files, input.schema, input.scan);
    if MigrationGate.SchemaFileValid(input.schema) {
      RlsPassesIff(input);
    }
  }

  /** A production preflight passes exactly when the environment is configured, a backup is
      verified, the history is strictly ascending and lists the target, no pending file matches a
      dangerous pattern, the schema file is valid, and every protected model in that file has a policy. */
  lemma ProductionPassesIff(input: Input)
    requires input.environment == Production
    ensures Passes(input) <==>
      && input.environmentValid && input.databaseUrl && input.redisConfigured
      && input.encryptionKey && input.jwtSecrets
      && input.backupVerified
      && input.target in MigrationGate.Ids(input.files)
      && MigrationGate.StrictlyAscending(input.files)
      && MigrationGate.PendingFilesClean(input.files, input.current, input.target, input.scan)
      && MigrationGate.SchemaFileValid(input.schema)
      && input.rlsArtifactsExist && EveryModelHasPolicy(input)
  {
    PassesIff(input);
  }

  /** In production the gate behind a passed preflight says VALID, never that approval is needed. */
  lemma ProductionVerdictIsValid(input: Input)
    requires input.environment == Production && Passes(input)
    ensures MigrationVerdict(input).status == MigrationGate.Valid
    ensures MigrationVerdict(input).operations == []
  {
    GatesDecide(input);
    MigrationGate.VerdictMeaning(GateInput(input), input.files, input.schema, input.scan);
  }

  /** Outside production a caller that forbids destructive migrations gets a verdict that is not a pass
      and yet does not block. */
  lemma DestructiveOutsideProductionIsNotBlocked(input: MigrationGate.Input,
      files: seq<MigrationGate.MigrationFile>, schema: SchemaFile, scan: MigrationGate.Scanner)
    requires input.environment != Production && !input.allowDestructive
    requires input.target in MigrationGate.Ids(files) && MigrationGate.StrictlyAscending(files)
    requires !MigrationGate.PendingFilesClean(files, input.current, input.target, scan)
    ensures var r := MigrationGate.Validate(input, files, schema, scan);
      r.status == MigrationGate.DestructiveDetected
      && !MigrationGate.MustBlockDeployment(r, input.environment)
  {
    MigrationGate.VerdictMeaning(input, files, schema, scan);
  }

  /** For every caller: the blocking rule stops exactly the verdicts that are no pass, except for one
      family. It lets a verdict through that is no pass exactly when, outside production, a caller
      forbids destructive migrations, the history is in order and a pending file is not clean. */
  lemma BlockingAgreesExcept(input: MigrationGate.Input, files: seq<MigrationGate.MigrationFile>,
                             schema: SchemaFile, scan: MigrationGate.Scanner)
    ensures var r := MigrationGate.Validate(input, files, schema, scan);
      var blocks := MigrationGate.MustBlockDeployment(r, input.environment);
      var passes := r.status == MigrationGate.Valid || r.status == MigrationGate.ApprovalRequired;
      var exempt := input.environment != Production && !input.allowDestructive
        && input.target in MigrationGate.Ids(files) && MigrationGate.StrictlyAscending(files)
        && !MigrationGate.PendingFilesClean(files, input.current, input.target, scan);
      && ((blocks <==> !passes) <==> !exempt)
      && !(blocks && passes)
  {
    MigrationGate.VerdictMeaning(input, files, schema, scan);
  }

  /** Preflight never asks for that family, so on its own verdict its check and the blocking rule agree
      in every environment. */
  lemma PreflightAgreesWithBlocking(input: Input)
    ensures Critical(CheckMigrationGate(input))
       <==> MigrationGate.MustBlockDeployment(MigrationVerdict(input), input.environment)
  {
    BlockingAgreesExcept(GateInput(input), input.files, input.schema, input.scan);
  }

  /** End to end: when a production preflight passes, every migration that a plan built from the
      same ids and the same history, listed in any order, would apply is the id of a scanned file
      without a dangerous match; the history is strictly ascending, the backup is verified and
      every protected model of the schema file has a policy. */
  lemma PlannedMigrationsWereScanned(input: Input, history: seq<Id>, id: Id)
    requires input.environment == Production && Passes(input)
    requires multiset(history) == multiset(MigrationGate.Ids(input.files))
    requires id in PlanPending(input.current, input.target, history)
    ensures exists file | file in input.files :: file.id == id && MigrationGate.Clean(file, input.scan)
    ensures id in MigrationVerdict(input).pending
    ensures MigrationGate.StrictlyAscending(input.files) && input.backupVerified
    ensures EveryModelHasPolicy(input)
  {
    ProductionPassesIff(input);
    MigrationGate.PlannedFileIsClean(input.files, input.current, input.target, input.scan, history, id);
  }
}
