/** Deployment plans: what a plan takes from its inputs, and when two plans count as the same. */
module DeploymentPlan {
  import opened CodeUnits
  import opened Environments
  import opened JsonText
  import opened Sorting
  import opened MigrationHistory

  datatype PlanInput = PlanInput(
    releaseId: JsString, targetMigrationId: Id, migrationHistory: seq<Id>, environment: Environment,
    currentMigrationId: Id, strategy: Choice, targetServices: seq<JsString>,
    correlationId: JsString, createdBy: JsString, approvalReference: Reference)

  datatype Choice = Default | Chosen(strategy: Strategy)

  /** An optional reference; JSON leaves a missing one out. */
  datatype Reference = NoReference | Reference(id: JsString)

  datatype MigrationState = MigrationState(
    current: Id, target: Id, pending: seq<Id>, hasDestructive: bool, requiresBackup: bool)

  datatype Approval = Approval(required: bool, requiredRoles: seq<JsString>, reference: Reference)

  datatype RollbackPlan = RollbackPlan(
    previousReleaseId: JsString, previousArtifactDigest: JsString, strategy: Strategy,
    requiresCompatibilityCheck: bool)

  datatype Verification = Verification(criteria: seq<JsString>, timeoutMs: nat, retryCount: nat)

  datatype Plan = Plan(
    deploymentId: JsString, releaseId: JsString, correlationId: JsString, environment: Environment,
    strategy: Strategy, targetServices: seq<JsString>, migrationState: MigrationState,
    healthGates: seq<JsString>, approval: Approval, rollback: RollbackPlan,
    verification: Verification, createdAt: JsString, createdBy: JsString)

  /** Hexadecimal SHA-256. */
  type Hash = JsString -> JsString

  datatype Planned = StrategyNotAllowed | Planned(plan: Plan)

  function DefaultStrategy(environment: Environment): Strategy {
    match environment
    case Production => BlueGreen
    case Staging => Rolling
    case Development => Recreate
  }

  function HealthGates(environment: Environment): seq<JsString> {
    var base := [Units("database_connectivity"), Units("redis_connectivity"), Units("queue_health"),
                 Units("api_health"), Units("auth_health"), Units("migration_state")];
    if environment == Production then
      base + [Units("frontend_health"), Units("security_controls"), Units("operations_controls"),
              Units("billing_health"), Units("exchange_health"), Units("custody_health"),
              Units("risk_health"), Units("compliance_health"), Units("oms_health"),
              Units("realtime_health"), Units("critical_path")]
    else base
  }

  function Criteria(environment: Environment): seq<JsString> {
    var base := [Units("http_200_health"), Units("database_query_ok"), Units("redis_ping_ok"),
                 Units("queue_depth_acceptable"), Units("migration_id_matches"), Units("auth_flow_works")];
    if environment == Production then
      base + [Units("frontend_loads"), Units("critical_path_trading_eligible"),
              Units("realtime_connects"), Units("no_critical_errors_in_logs")]
    else base
  }

  function RequiredRoles(environment: Environment): seq<JsString> {
    match environment
    case Production => [Units("PLATFORM_ADMIN"), Units("RELEASE_MANAGER")]
    case Staging => [Units("PLATFORM_ADMIN"), Units("DEVELOPER")]
    case Development => [Units("DEVELOPER")]
  }

  function VerificationTimeout(environment: Environment): nat {
    match environment
    case Production => 300000
    case Staging => 180000
    case Development => 60000
  }

  function DeploymentId(input: PlanInput, hash: Hash): JsString {
    var environment := EnvironmentText(input.environment);
    var digest := hash(input.releaseId + Units("-") + environment + Units("-") + input.correlationId);
    Units("dep_") + environment + Units("_") + if |digest| <= 12 then digest else digest[..12]
  }

  function SortDeterministically(plan: Plan): Plan {
    plan.(targetServices := Sort(plan.targetServices, Leq), healthGates := Sort(plan.healthGates, Leq),
          verification := plan.verification.(criteria := Sort(plan.verification.criteria, Leq)))
  }

  function StateOf(input: PlanInput): MigrationState {
    MigrationState(
      input.currentMigrationId, input.targetMigrationId,
      PlanPending(input.currentMigrationId, input.targetMigrationId, input.migrationHistory),
      false, PolicyOf(input.environment).requiresBackupBeforeMigration)
  }

  function StrategyOf(input: PlanInput): Strategy {
    if input.strategy.Chosen? then input.strategy.strategy else DefaultStrategy(input.environment)
  }

  predicate IsAllowed(input: PlanInput) {
    StrategyOf(input) in PolicyOf(input.environment).allowedStrategies
  }

  function CreatePlan(input: PlanInput, createdAt: JsString, hash: Hash): Planned {
    if !IsAllowed(input) then StrategyNotAllowed
    else
      Planned(SortDeterministically(Plan(
        DeploymentId(input, hash), input.releaseId, input.correlationId, input.environment, StrategyOf(input),
        Sort(input.targetServices, Leq), StateOf(input), HealthGates(input.environment),
        Approval(RequiresApproval(input.environment), RequiredRoles(input.environment), input.approvalReference),
        RollbackPlan(Units("prev_") + input.releaseId, [], BlueGreen, true),
        Verification(Criteria(input.environment), VerificationTimeout(input.environment), 3),
        createdAt, input.createdBy)))
  }

  // ----- The JSON text of a plan

  function Texts(items: seq<JsString>): Value {
    List(seq(|items|, i requires 0 <= i < |items| => Text(items[i])))
  }

  function StateValue(state: MigrationState): Value {
    Record([Property(Units("currentMigrationId"), Text(state.current)),
            Property(Units("targetMigrationId"), Text(state.target)),
            Property(Units("pendingMigrations"), Texts(state.pending)),
            Property(Units("hasDestructive"), Boolean(state.hasDestructive)),
            Property(Units("requiresBackup"), Boolean(state.requiresBackup))])
  }

  function ApprovalValue(approval: Approval): Value {
    Record([Property(Units("required"), Boolean(approval.required)),
            Property(Units("requiredRoles"), Texts(approval.requiredRoles))]
           + if approval.reference.NoReference? then []
             else [Property(Units("approvalReference"), Text(approval.reference.id))])
  }

  function RollbackValue(rollback: RollbackPlan): Value {
    Record([Property(Units("previousReleaseId"), Text(rollback.previousReleaseId)),
            Property(Units("previousArtifactDigest"), Text(rollback.previousArtifactDigest)),
            Property(Units("strategy"), Text(StrategyText(rollback.strategy))),
            Property(Units("requiresCompatibilityCheck"), Boolean(rollback.requiresCompatibilityCheck))])
  }

  function VerificationValue(verification: Verification): Value {
    Record([Property(Units("criteria"), Texts(verification.criteria)),
            Property(Units("timeoutMs"), Number(verification.timeoutMs)),
            Property(Units("retryCount"), Number(verification.retryCount))])
  }

  function PlanValue(plan: Plan): Value {
    Record([Property(Units("deploymentId"), Text(plan.deploymentId)),
            Property(Units("releaseId"), Text(plan.releaseId)),
            Property(Units("correlationId"), Text(plan.correlationId)),
            Property(Units("environment"), Text(EnvironmentText(plan.environment))),
            Property(Units("strategy"), Text(StrategyText(plan.strategy))),
            Property(Units("targetServices"), Texts(plan.targetServices)),
            Property(Units("migrationState"), StateValue(plan.migrationState)),
            Property(Units("healthGates"), Texts(plan.healthGates)),
            Property(Units("approval"), ApprovalValue(plan.approval)),
            Property(Units("rollback"), RollbackValue(plan.rollback)),
            Property(Units("verification"), VerificationValue(plan.verification)),
            Property(Units("createdAt"), Text(plan.createdAt)),
            Property(Units("createdBy"), Text(plan.createdBy))])
  }

  /** Two plans count as the same when the JSON texts of their sorted forms are equal. */
  predicate IsDeterministic(a: Plan, b: Plan) {
    Stringify(PlanValue(SortDeterministically(a))) == Stringify(PlanValue(SortDeterministically(b)))
  }

  lemma ListedTextsAgree(a: seq<JsString>, b: seq<JsString>)
    requires Texts(a) == Texts(b)
    ensures a == b
  {
    assert |Texts(a).items| == |Texts(b).items|;
    forall i | 0 <= i < |a|
      ensures a[i] == b[i]
    {
      assert Texts(a).items[i] == Texts(b).items[i];
    }
  }

  /** Records with equal values agree property by property. */
  lemma SameProperty(a: seq<Property>, b: seq<Property>, i: nat)
    requires Record(a) == Record(b) && i < |a|
    ensures |a| == |b| && a[i].value == b[i].value
  {
  }

  lemma StateIsRead(a: MigrationState, b: MigrationState)
    requires StateValue(a) == StateValue(b)
    ensures a == b
  {
    var p, q := StateValue(a).properties, StateValue(b).properties;
    SameProperty(p, q, 0);
    SameProperty(p, q, 1);
    SameProperty(p, q, 2);
    SameProperty(p, q, 3);
    SameProperty(p, q, 4);
    ListedTextsAgree(a.pending, b.pending);
  }

  lemma ApprovalIsRead(a: Approval, b: Approval)
    requires ApprovalValue(a) == ApprovalValue(b)
    ensures a == b
  {
    var p, q := ApprovalValue(a).properties, ApprovalValue(b).properties;
    SameProperty(p, q, 0);
    SameProperty(p, q, 1);
    ListedTextsAgree(a.requiredRoles, b.requiredRoles);
    if |p| == 3 {
      SameProperty(p, q, 2);
    }
  }

  lemma RollbackIsRead(a: RollbackPlan, b: RollbackPlan)
    requires RollbackValue(a) == RollbackValue(b)
    ensures a == b
  {
    var p, q := RollbackValue(a).properties, RollbackValue(b).properties;
    SameProperty(p, q, 0);
    SameProperty(p, q, 1);
    SameProperty(p, q, 2);
    SameProperty(p, q, 3);
    TextsDiffer(Development, Development, a.strategy, b.strategy);
  }

  lemma VerificationIsRead(a: Verification, b: Verification)
    requires VerificationValue(a) == VerificationValue(b)
    ensures a == b
  {
    var p, q := VerificationValue(a).properties, VerificationValue(b).properties;
    SameProperty(p, q, 0);
    SameProperty(p, q, 1);
    SameProperty(p, q, 2);
    ListedTextsAgree(a.criteria, b.criteria);
  }

  lemma PlanIsRead(a: Plan, b: Plan)
    requires PlanValue(a) == PlanValue(b)
    ensures a == b
  {
    var p, q := PlanValue(a).properties, PlanValue(b).properties;
    SameProperty(p, q, 0);
    SameProperty(p, q, 1);
    SameProperty(p, q, 2);
    SameProperty(p, q, 3);
    SameProperty(p, q, 4);
    SameProperty(p, q, 5);
    SameProperty(p, q, 6);
    SameProperty(p, q, 7);
    SameProperty(p, q, 8);
    SameProperty(p, q, 9);
    SameProperty(p, q, 10);
    SameProperty(p, q, 11);
    SameProperty(p, q, 12);
    TextsDiffer(a.environment, b.environment, a.strategy, b.strategy);
    ListedTextsAgree(a.targetServices, b.targetServices);
    ListedTextsAgree(a.healthGates, b.healthGates);
    StateIsRead(a.migrationState, b.migrationState);
    ApprovalIsRead(a.approval, b.approval);
    RollbackIsRead(a.rollback, b.rollback);
    VerificationIsRead(a.verification, b.verification);
  }

  /** Comparing the texts compares the sorted plans: every field, at every depth. */
  lemma TextsCompareThePlans(a: Plan, b: Plan)
    ensures IsDeterministic(a, b) <==> SortDeterministically(a) == SortDeterministically(b)
  {
    var va, vb := PlanValue(SortDeterministically(a)), PlanValue(SortDeterministically(b));
    TextDeterminesValue(va, vb);
    if va == vb {
      PlanIsRead(SortDeterministically(a), SortDeterministically(b));
    }
  }

  /** Two plans that may list services, gates and criteria in different orders and agree in all else. */
  ghost predicate SameButForOrder(a: Plan, b: Plan) {
    && multiset(a.targetServices) == multiset(b.targetServices)
    && multiset(a.healthGates) == multiset(b.healthGates)
    && multiset(a.verification.criteria) == multiset(b.verification.criteria)
    && a == b.(targetServices := a.targetServices, healthGates := a.healthGates,
               verification := b.verification.(criteria := a.verification.criteria))
  }

  lemma SortingComparesListings(a: seq<JsString>, b: seq<JsString>)
    ensures Sort(a, Leq) == Sort(b, Leq) <==> multiset(a) == multiset(b)
  {
    OrderIsTotal();
    SortIsSorted(a, Leq);
    SortIsSorted(b, Leq);
    if multiset(a) == multiset(b) {
      SortIgnoresOrder(a, b, Leq);
    }
  }

  /** Two plans are judged the same exactly when they agree in every field but for the order in which they
      list services, gates and criteria: the pending migrations and the roles are compared in order. */
  lemma DeterministicIff(a: Plan, b: Plan)
    ensures IsDeterministic(a, b) <==> SameButForOrder(a, b)
  {
    TextsCompareThePlans(a, b);
    SortingComparesListings(a.targetServices, b.targetServices);
    SortingComparesListings(a.healthGates, b.healthGates);
    SortingComparesListings(a.verification.criteria, b.verification.criteria);
  }

  lemma ListingDoesNotMatter(a: PlanInput, b: PlanInput, createdAt: JsString, hash: Hash)
    requires b == a.(targetServices := b.targetServices, migrationHistory := b.migrationHistory)
    requires multiset(a.targetServices) == multiset(b.targetServices)
    requires multiset(a.migrationHistory) == multiset(b.migrationHistory)
    ensures CreatePlan(a, createdAt, hash) == CreatePlan(b, createdAt, hash)
  {
    OrderIsTotal();
    SortIgnoresOrder(a.targetServices, b.targetServices, Leq);
    PlanIgnoresListing(a.currentMigrationId, a.targetMigrationId, a.migrationHistory, b.migrationHistory);
  }

  lemma TimeIsCarried(input: PlanInput, createdA: JsString, createdB: JsString, hash: Hash)
    requires IsAllowed(input)
    ensures CreatePlan(input, createdA, hash).Planned? && CreatePlan(input, createdB, hash).Planned?
    ensures CreatePlan(input, createdB, hash).plan == CreatePlan(input, createdA, hash).plan.(createdAt := createdB)
    ensures CreatePlan(input, createdA, hash).plan.createdAt == createdA
  {
  }

  lemma SortingKeepsTime(plan: Plan, createdAt: JsString)
    ensures SortDeterministically(plan) == SortDeterministically(plan.(createdAt := createdAt))
       <==> plan.createdAt == createdAt
  {
    assert SortDeterministically(plan).createdAt == plan.createdAt;
  }

  /** The order in which services and history are listed does not reach a plan; the time at which
      it is created does. So plans for one request count as the same exactly when they carry the
      same creation time. */
  lemma SameRequestSamePlan(a: PlanInput, b: PlanInput, createdA: JsString, createdB: JsString, hash: Hash)
    requires b == a.(targetServices := b.targetServices, migrationHistory := b.migrationHistory)
    requires multiset(a.targetServices) == multiset(b.targetServices)
    requires multiset(a.migrationHistory) == multiset(b.migrationHistory)
    ensures CreatePlan(a, createdA, hash) == CreatePlan(b, createdA, hash)
    ensures CreatePlan(a, createdA, hash).Planned? <==> CreatePlan(b, createdB, hash).Planned?
    ensures CreatePlan(a, createdA, hash).Planned? ==>
      (IsDeterministic(CreatePlan(a, createdA, hash).plan, CreatePlan(b, createdB, hash).plan) <==> createdA == createdB)
  {
    ListingDoesNotMatter(a, b, createdA, hash);
    ListingDoesNotMatter(a, b, createdB, hash);
    if CreatePlan(a, createdA, hash).Planned? {
      TimeIsCarried(a, createdA, createdB, hash);
      SortingKeepsTime(CreatePlan(a, createdA, hash).plan, createdB);
      TextsCompareThePlans(CreatePlan(a, createdA, hash).plan, CreatePlan(b, createdB, hash).plan);
    }
  }

  lemma SortedPermutation(s: seq<JsString>)
    ensures Ascending(Sort(s, Leq), Leq) && multiset(Sort(s, Leq)) == multiset(s)
    ensures Sort(Sort(s, Leq), Leq) == Sort(s, Leq)
  {
    OrderIsTotal();
    SortIsSorted(s, Leq);
    SortOfAscending(Sort(s, Leq), Leq);
  }

  lemma PlansIffTargetIsAbove(c: Id, t: Id, history: seq<Id>)
    ensures PlanPending(c, t, history) != [] <==> c in history && t in history && Less(c, t)
  {
    PlanNeedsBothIds(c, t, history);
    if c in history && t in history {
      RollbackIsDualToPlanning(c, t, history);
    }
  }

  /** What a plan carries: an allowed strategy, the requested services as a sorted permutation, the
      environment's gates and criteria likewise, approval and backup outside development only, and
      migrations to apply exactly when the history holds both ids and the target lies above the
      current one. */
  lemma PlanContents(input: PlanInput, createdAt: JsString, hash: Hash)
    requires IsAllowed(input)
    ensures CreatePlan(input, createdAt, hash).Planned?
    ensures var plan := CreatePlan(input, createdAt, hash).plan;
      && plan.strategy in PolicyOf(input.environment).allowedStrategies
      && Ascending(plan.targetServices, Leq) && multiset(plan.targetServices) == multiset(input.targetServices)
      && (plan.approval.required <==> input.environment != Development)
      && (plan.migrationState.requiresBackup <==> input.environment != Development)
      && (plan.migrationState.pending != [] <==>
            input.currentMigrationId in input.migrationHistory && input.targetMigrationId in input.migrationHistory
            && Less(input.currentMigrationId, input.targetMigrationId))
  {
    SortedPermutation(input.targetServices);
    PlansIffTargetIsAbove(input.currentMigrationId, input.targetMigrationId, input.migrationHistory);
  }

  lemma GatesAreSorted(input: PlanInput, createdAt: JsString, hash: Hash)
    requires IsAllowed(input)
    ensures CreatePlan(input, createdAt, hash).Planned?
    ensures var plan := CreatePlan(input, createdAt, hash).plan;
      && Ascending(plan.healthGates, Leq) && multiset(plan.healthGates) == multiset(HealthGates(input.environment))
      && Ascending(plan.verification.criteria, Leq)
      && multiset(plan.verification.criteria) == multiset(Criteria(input.environment))
  {
    SortedPermutation(HealthGates(input.environment));
    SortedPermutation(Criteria(input.environment));
  }

  /** The default strategy is allowed everywhere, so only an explicit choice can be refused. */
  lemma DefaultIsAllowed(input: PlanInput, createdAt: JsString, hash: Hash)
    ensures CreatePlan(input, createdAt, hash).StrategyNotAllowed?
       <==> input.strategy.Chosen? && input.strategy.strategy !in PolicyOf(input.environment).allowedStrategies
  {
  }

  /** The migration state of a plan is that of the request: its two ids, and on a duplicate-free history
      that holds both, in ascending order and once each, exactly the ids above the current one up to the
      target. */
  lemma PlannedMigrations(input: PlanInput, createdAt: JsString, hash: Hash, id: Id)
    requires IsAllowed(input) && NoDuplicates(input.migrationHistory)
    requires input.currentMigrationId in input.migrationHistory && input.targetMigrationId in input.migrationHistory
    ensures CreatePlan(input, createdAt, hash).Planned?
    ensures var state := CreatePlan(input, createdAt, hash).plan.migrationState;
      && state.current == input.currentMigrationId && state.target == input.targetMigrationId
      && Ascending(state.pending, Leq) && multiset(state.pending)[id] <= 1
      && (id in state.pending <==>
            id in input.migrationHistory && Less(input.currentMigrationId, id) && Leq(id, input.targetMigrationId))
  {
    var c, t, history := input.currentMigrationId, input.targetMigrationId, input.migrationHistory;
    PlanIsWithinGate(c, t, history);
    GatePendingMembers(c, t, history, id);
    GatePendingIsRange(c, t, history);
    SortedHistory(history);
    FilterAscends(Sort(history, Leq), x => Between(c, t, x), Leq);
    FilterCounts(Sort(history, Leq), x => Between(c, t, x), id);
    if id in history {
      DuplicateFreeMultiset(history, id);
    }
  }

  /** On any history at all, the plan lists nothing when an id is missing, and never an id below the
      current one; with repeated ids it lists what `MigrationHistory.PlanPending` says. */
  lemma PlannedOnAnyHistory(input: PlanInput, createdAt: JsString, hash: Hash, id: Id)
    requires IsAllowed(input)
    ensures CreatePlan(input, createdAt, hash).Planned?
    ensures var pending := CreatePlan(input, createdAt, hash).plan.migrationState.pending;
      && pending == PlanPending(input.currentMigrationId, input.targetMigrationId, input.migrationHistory)
      && (pending != [] ==>
            input.currentMigrationId in input.migrationHistory && input.targetMigrationId in input.migrationHistory)
      && (id in pending ==> Leq(input.currentMigrationId, id))
  {
    PlanNeedsBothIds(input.currentMigrationId, input.targetMigrationId, input.migrationHistory);
    PlanNeverGoesBack(input.currentMigrationId, input.targetMigrationId, input.migrationHistory);
  }

  /** What a plan carries over from the request, and what it says of a rollback. */
  lemma PlanCarriesTheRequest(input: PlanInput, createdAt: JsString, hash: Hash)
    requires IsAllowed(input)
    ensures CreatePlan(input, createdAt, hash).Planned?
    ensures var plan := CreatePlan(input, createdAt, hash).plan;
      && plan.releaseId == input.releaseId && plan.correlationId == input.correlationId
      && plan.environment == input.environment && plan.createdBy == input.createdBy && plan.createdAt == createdAt
      && plan.approval.reference == input.approvalReference
      && plan.strategy == (if input.strategy.Chosen? then input.strategy.strategy
                           else if input.environment == Production then BlueGreen
                           else if input.environment == Staging then Rolling else Recreate)
      && !plan.migrationState.hasDestructive
      && plan.rollback == RollbackPlan(Units("prev_") + input.releaseId, [], BlueGreen, true)
  {
  }

  /** No environment asks for a check, a criterion or an approval that production does not ask for, and
      none waits longer. */
  lemma ProductionAsksMost(environment: Environment)
    ensures HealthGates(environment) <= HealthGates(Production) && |HealthGates(Production)| == 17
    ensures Criteria(environment) <= Criteria(Production) && |Criteria(Production)| == 10
    ensures VerificationTimeout(environment) <= VerificationTimeout(Production)
    ensures environment != Production ==>
      |HealthGates(environment)| == |Criteria(environment)| == 6 && VerificationTimeout(environment) < 300000
  {
  }

  /** Who has to approve: a platform administrator outside development, a release manager in production
      alone, a developer everywhere else; and how long and how often a deployment is verified. */
  lemma RolesByEnvironment(environment: Environment)
    ensures Units("PLATFORM_ADMIN") in RequiredRoles(environment) <==> environment != Development
    ensures Units("RELEASE_MANAGER") in RequiredRoles(environment) <==> environment == Production
    ensures Units("DEVELOPER") in RequiredRoles(environment) <==> environment != Production
  {
    assert |Units("PLATFORM_ADMIN")| == 14 && |Units("RELEASE_MANAGER")| == 15 && |Units("DEVELOPER")| == 9;
  }

  lemma PlanFollowsTheEnvironment(input: PlanInput, createdAt: JsString, hash: Hash)
    requires IsAllowed(input)
    ensures CreatePlan(input, createdAt, hash).Planned?
    ensures var plan := CreatePlan(input, createdAt, hash).plan;
      && plan.approval.requiredRoles == RequiredRoles(input.environment)
      && plan.verification.retryCount == 3
      && plan.verification.timeoutMs == (if input.environment == Production then 300000
                                         else if input.environment == Staging then 180000 else 60000)
  {
  }

  // ----- Deployment identifiers

  /** The text that a deployment identifier abbreviates by its hash. */
  function Identified(input: PlanInput): JsString {
    input.releaseId + Units("-") + EnvironmentText(input.environment) + Units("-") + input.correlationId
  }

  /** The first twelve digits of the hash tell texts apart. */
  ghost predicate Distinguishes(hash: Hash) {
    && (forall text :: |hash(text)| >= 12)
    && (forall a, b :: hash(a)[..12] == hash(b)[..12] ==> a == b)
  }

  lemma IdentifierParts(input: PlanInput, hash: Hash)
    requires |hash(Identified(input))| >= 12
    ensures DeploymentId(input, hash)
         == Units("dep_") + EnvironmentText(input.environment) + Units("_") + hash(Identified(input))[..12]
  {
    assert hash(Identified(input))[..|hash(Identified(input))|] == hash(Identified(input));
  }

  lemma SameLengthPrefixes(a: JsString, b: JsString, c: JsString, d: JsString)
    requires a + b == c + d && |b| == |d|
    ensures a == c && b == d
  {
    assert (a + b)[..|a|] == a && (c + d)[..|c|] == c;
    assert (a + b)[|a|..] == b && (c + d)[|c|..] == d;
  }

  /** Two deployments have the same identifier exactly when they go to the same environment and the two
      ids, joined with a hyphen around its name, give the same text. */
  lemma DeploymentIdsAgreeIff(a: PlanInput, b: PlanInput, hash: Hash)
    requires Distinguishes(hash)
    ensures DeploymentId(a, hash) == DeploymentId(b, hash)
       <==> a.environment == b.environment && Identified(a) == Identified(b)
  {
    IdentifierParts(a, hash);
    IdentifierParts(b, hash);
    if DeploymentId(a, hash) == DeploymentId(b, hash) {
      var dep, under := Units("dep_"), Units("_");
      var ea, eb := EnvironmentText(a.environment), EnvironmentText(b.environment);
      SameLengthPrefixes(dep + ea + under, hash(Identified(a))[..12], dep + eb + under, hash(Identified(b))[..12]);
      SameLengthPrefixes(dep + ea, under, dep + eb, under);
      assert (dep + ea)[|dep|..] == ea && (dep + eb)[|dep|..] == eb;
      TextsDiffer(a.environment, b.environment, Recreate, Recreate);
    }
  }

  /** In general a hyphen in an id can stand for the one that joins the ids, so two different requests
      can share an identifier. */
  lemma DeploymentIdsCanCollide(input: PlanInput, hash: Hash)
    ensures var between := Units("-") + EnvironmentText(input.environment) + Units("-");
      var a := input.(releaseId := [114], correlationId := [120] + (between + [121]));
      var b := input.(releaseId := [114] + (between + [120]), correlationId := [121]);
      a != b && DeploymentId(a, hash) == DeploymentId(b, hash)
  {
    var between := Units("-") + EnvironmentText(input.environment) + Units("-");
    IdentifiedAround(input.(releaseId := [114], correlationId := [120] + (between + [121])), between);
    IdentifiedAround(input.(releaseId := [114] + (between + [120]), correlationId := [121]), between);
    Shift([114], between, [120], [121]);
    assert |[114] + (between + [120])| > 1;
  }

  lemma IdentifiedAround(input: PlanInput, between: JsString)
    requires between == Units("-") + EnvironmentText(input.environment) + Units("-")
    ensures Identified(input) == input.releaseId + (between + input.correlationId)
  {
  }

  lemma Shift(a: JsString, between: JsString, b: JsString, c: JsString)
    ensures a + (between + (b + (between + c))) == (a + (between + b)) + (between + c)
  {
  }
}
