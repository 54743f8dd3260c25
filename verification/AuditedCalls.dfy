/** The executor, the rollback service, the recovery service and backup verification, each against one
    audit object: the events a call adds, in full, and what it reports. Failure texts and evidence are
    given by the caller as functions of the outcome they accompany. */
module AuditedCalls {
  import opened CodeUnits
  import opened Environments
  import opened Evidence
  import opened Sorting
  import opened AuditLog
  import opened Operations
  import opened Measures

  datatype Notes = Notes(reason: Outcome -> JsString, evidence: Outcome -> seq<Field>)

  const UNKNOWN: JsString := Units("unknown")
  const NOT_APPLICABLE: JsString := Units("n/a")

  /** `operatorId.startsWith('ci_')` decides who acts. */
  function Acting(operatorId: JsString): Operator {
    Operator(operatorId, if Units("ci_") <= operatorId then Ci else User)
  }

  /** The events for what a script writes. */
  function Recorded(outcomes: seq<Outcome>, audit: Outcome -> AuditInput, auditIds: seq<JsString>,
                    clock: seq<int>, lower: Lower): seq<Event>
    requires |auditIds| >= |outcomes| && |clock| >= |outcomes|
  {
    seq(|outcomes|, i requires 0 <= i < |outcomes| => EventOf(audit(outcomes[i]), auditIds[i], clock[i], lower))
  }

  lemma RecordedOfOne(a: Outcome, audit: Outcome -> AuditInput, auditIds: seq<JsString>, clock: seq<int>, lower: Lower)
    requires |auditIds| == |clock| == 2
    ensures Recorded([a], audit, auditIds, clock, lower) == [EventOf(audit(a), auditIds[0], clock[0], lower)]
  {
  }

  /** What an execution records, branch by branch. */
  lemma ExecutionScript(input: ExecutionInput, fault: Fault)
    requires fault != OpeningRejected
    ensures CheckPolicyGates(input) != Allowed ==> Script(Execution(input, fault)) == [Blocked]
    ensures CheckPolicyGates(input) == Allowed && !input.approved && RequiresApproval(input.environment) ==>
      Script(Execution(input, fault)) == [BlockedMissingApproval]
    ensures CheckPolicyGates(input) == Allowed && !(!input.approved && RequiresApproval(input.environment)) ==>
      Script(Execution(input, fault)) == [Started, if fault == NoFault then Executed else Failed]
    ensures Cleared(input) <==>
      CheckPolicyGates(input) == Allowed && !(!input.approved && RequiresApproval(input.environment))
  {
  }

  lemma RecordedOfTwo(a: Outcome, b: Outcome, audit: Outcome -> AuditInput, auditIds: seq<JsString>,
                      clock: seq<int>, lower: Lower)
    requires |auditIds| == |clock| == 2
    ensures Recorded([a, b], audit, auditIds, clock, lower)
         == [EventOf(audit(a), auditIds[0], clock[0], lower)] + [EventOf(audit(b), auditIds[1], clock[1], lower)]
  {
  }

  // ----- Execution

  datatype ExecutionRequest = ExecutionRequest(
    releaseId: JsString, deploymentId: JsString, operatorId: JsString, commitSha: JsString,
    artifactDigest: JsString, migrationId: JsString, approvalReference: Option<JsString>,
    correlationId: JsString, startMs: int)

  /** What the executor records with an outcome. A blocked call is always put down to a user. */
  function ExecutionAudit(request: ExecutionRequest, environment: Environment, notes: Notes, result: Outcome)
    : AuditInput
  {
    var blocked := result == Blocked || result == BlockedMissingApproval;
    AuditInput(
      Subject(request.releaseId, Some(request.deploymentId), None, None, None, None), environment,
      DeploymentExecution, result,
      if blocked then Operator(request.operatorId, User) else Acting(request.operatorId),
      request.commitSha, Some(request.artifactDigest), Some(request.migrationId), request.startMs, None,
      if blocked || result == Failed then Some(notes.reason(result)) else None,
      if result == Started || result == Executed then request.approvalReference else None,
      request.correlationId, notes.evidence(result))
  }

  /** What the caller gets: a result that reports success or failure, or a rejected promise. */
  datatype Reply = Success | Failure | Rejection

  /** The executor, with nothing interleaved: the events it adds are those of its script, it reports
      success exactly when it wrote EXECUTED, and rejects exactly when its first recording does. */
  method Execute(audit: DeploymentAuditService, request: ExecutionRequest, input: ExecutionInput, fault: Fault,
                 notes: Notes, auditIds: seq<JsString>, clock: seq<int>, lower: Lower)
    returns (reply: Reply)
    requires |auditIds| == |clock| == 2
    modifies audit
    ensures audit.events == old(audit.events)
      + Recorded(Script(Execution(input, fault)), r => ExecutionAudit(request, input.environment, notes, r),
                 auditIds, clock, lower)
    ensures reply == Success <==> Cleared(input) && fault == NoFault
    ensures reply == Rejection <==> fault == OpeningRejected
  {
    ghost var inputs := r => ExecutionAudit(request, input.environment, notes, r);
    if fault == OpeningRejected {
      return Rejection;
    }
    ExecutionScript(input, fault);
    if CheckPolicyGates(input) != Allowed {
      var _ := audit.Record(ExecutionAudit(request, input.environment, notes, Blocked), auditIds[0], clock[0], lower);
      RecordedOfOne(Blocked, inputs, auditIds, clock, lower);
      return Failure;
    }
    if !input.approved && RequiresApproval(input.environment) {
      var _ := audit.Record(ExecutionAudit(request, input.environment, notes, BlockedMissingApproval),
                            auditIds[0], clock[0], lower);
      RecordedOfOne(BlockedMissingApproval, inputs, auditIds, clock, lower);
      return Failure;
    }
    var _ := audit.Record(ExecutionAudit(request, input.environment, notes, Started), auditIds[0], clock[0], lower);
    reply := if fault == NoFault then Success else Failure;
    var result := if fault == NoFault then Executed else Failed;
    var _ := audit.Record(ExecutionAudit(request, input.environment, notes, result), auditIds[1], clock[1], lower);
    RecordedOfTwo(Started, result, inputs, auditIds, clock, lower);
  }

  /** How the events of an execution are filed: a blocked call is put down to a user, the others to CI
      exactly if the operator's id says so; only STARTED and EXECUTED refer to the approval, only blocked and
      failed calls have a reason. */
  lemma ExecutionIsFiled(request: ExecutionRequest, environment: Environment, notes: Notes, result: Outcome,
                         auditId: JsString, nowMs: int, lower: Lower)
    ensures var event := EventOf(ExecutionAudit(request, environment, notes, result), auditId, nowMs, lower);
      var blocked := result == Blocked || result == BlockedMissingApproval;
      && event.subject.releaseId == request.releaseId && event.subject.deploymentId == Some(request.deploymentId)
      && event.environment == environment && event.result == result && event.correlationId == request.correlationId
      && event.commitSha == request.commitSha && event.migrationId == Some(request.migrationId)
      && event.artifactDigest == RedactDigest(Some(request.artifactDigest))
      && event.operator.id == request.operatorId
      && (event.operator.kind == Ci <==> !blocked && Units("ci_") <= request.operatorId)
      && (event.operator.kind == User <==> blocked || !(Units("ci_") <= request.operatorId))
      && event.approvalReference
         == (if result == Started || result == Executed then request.approvalReference else None)
      && event.failureReason == (if blocked || result == Failed then Some(notes.reason(result)) else None)
      && event.durationMs == nowMs - request.startMs
  {
  }

  // ----- Rollback

  datatype RollbackRequest = RollbackRequest(
    rollbackId: JsString, deploymentId: JsString, fromReleaseId: JsString, toReleaseId: JsString,
    environment: Environment, operatorId: JsString, approvedBy: Option<JsString>,
    targetArtifactDigest: JsString, targetMigrationId: JsString, correlationId: JsString, startMs: int)

  /** What a rollback records with an outcome: the release left behind, and the release reached only
      once the rollback is complete. */
  function RollbackAudit(request: RollbackRequest, notes: Notes, result: Outcome): AuditInput {
    var releaseId := if result == Completed then request.toReleaseId else request.fromReleaseId;
    AuditInput(
      Subject(releaseId, Some(request.deploymentId), Some(request.rollbackId), None, None, None),
      request.environment, Rollback, result,
      if result == Started then Acting(request.operatorId) else Operator(request.operatorId, User),
      UNKNOWN, Some(request.targetArtifactDigest), Some(request.targetMigrationId), request.startMs, None,
      if result == Started || result == Completed then None else Some(notes.reason(result)),
      if result == Started || result == Completed then request.approvedBy else None,
      request.correlationId, notes.evidence(result))
  }

  datatype RollbackResult = RollbackResult(
    status: Outcome, artifactVerified: bool, schemaCompatible: bool, requiresDbRecovery: bool, healthPassed: bool)

  /** The rollback service: STARTED and the reported status; complete exactly for a verified artifact
      and a compatible schema, database recovery asked for exactly when the schema is all that fails. */
  method RollbackRelease(audit: DeploymentAuditService, request: RollbackRequest, artifactVerified: bool,
                         schemaCompatible: bool, notes: Notes, auditIds: seq<JsString>, clock: seq<int>, lower: Lower)
    returns (result: RollbackResult)
    requires |auditIds| == |clock| == 2
    modifies audit
    ensures audit.events == old(audit.events)
      + Recorded(Script(RollbackTo(artifactVerified, schemaCompatible)), r => RollbackAudit(request, notes, r),
                 auditIds, clock, lower)
    ensures audit.events[|audit.events| - 1].result == result.status
    ensures result.status == Completed <==> artifactVerified && schemaCompatible
    ensures result.requiresDbRecovery <==> artifactVerified && !schemaCompatible
    ensures result.artifactVerified == artifactVerified && result.schemaCompatible == schemaCompatible
    ensures result.healthPassed <==> result.status == Completed
  {
    var _ := audit.Record(RollbackAudit(request, notes, Started), auditIds[0], clock[0], lower);
    if !artifactVerified {
      result := RollbackResult(BlockedUnverifiedArtifact, false, schemaCompatible, false, false);
    } else if !schemaCompatible {
      result := RollbackResult(BlockedIncompatibleSchema, true, false, true, false);
    } else {
      result := RollbackResult(Completed, true, true, false, true);
    }
    var _ := audit.Record(RollbackAudit(request, notes, result.status), auditIds[1], clock[1], lower);
  }

  /** How the two events of a rollback are filed: STARTED under the release left behind; the outcome under
      the release reached if and only if the rollback is complete, so a query for that release finds the
      completion alone. The approval is referred to unless the rollback was blocked, which has a reason. */
  lemma RollbackIsFiled(request: RollbackRequest, notes: Notes, artifactVerified: bool, schemaCompatible: bool,
                        auditIds: seq<JsString>, clock: seq<int>, lower: Lower)
    requires |auditIds| == |clock| == 2
    ensures var events := Recorded(Script(RollbackTo(artifactVerified, schemaCompatible)),
                                   r => RollbackAudit(request, notes, r), auditIds, clock, lower);
      var complete := artifactVerified && schemaCompatible;
      && |events| == 2 && events[0].result == Started && (events[1].result == Completed <==> complete)
      && events[0].subject.releaseId == request.fromReleaseId
      && events[1].subject.releaseId == (if complete then request.toReleaseId else request.fromReleaseId)
      && (request.fromReleaseId != request.toReleaseId ==>
            OfRelease(events, request.toReleaseId) == if complete then [events[1]] else [])
      && events[0].approvalReference == request.approvedBy && events[0].failureReason == None
      && events[1].approvalReference == (if complete then request.approvedBy else None)
      && (events[1].failureReason == None <==> complete)
  {
    var outcome := if !artifactVerified then BlockedUnverifiedArtifact
                   else if !schemaCompatible then BlockedIncompatibleSchema else Completed;
    RecordedOfTwo(Started, outcome, r => RollbackAudit(request, notes, r), auditIds, clock, lower);
    var first := EventOf(RollbackAudit(request, notes, Started), auditIds[0], clock[0], lower);
    var second := EventOf(RollbackAudit(request, notes, outcome), auditIds[1], clock[1], lower);
    TwoOfRelease(first, second, request.toReleaseId);
  }

  /** Both are filed under the rollback, its deployment and its target; only STARTED can be put down to CI. */
  lemma RollbackEventIsFiled(request: RollbackRequest, notes: Notes, result: Outcome, auditId: JsString,
                             nowMs: int, lower: Lower)
    ensures var event := EventOf(RollbackAudit(request, notes, result), auditId, nowMs, lower);
      && FiledUnderRollback(event, request) && event.result == result
      && (event.operator.kind == Ci <==> result == Started && Units("ci_") <= request.operatorId)
      && (event.operator.kind == User <==> event.operator.kind != Ci)
      && event.durationMs == nowMs - request.startMs
  {
  }

  ghost predicate FiledUnderRollback(event: Event, request: RollbackRequest) {
    && event.subject.deploymentId == Some(request.deploymentId) && event.subject.rollbackId == Some(request.rollbackId)
    && event.subject.backupId == event.subject.restoreId == event.subject.drId == None
    && event.action == Rollback && event.environment == request.environment
    && event.operator.id == request.operatorId && event.correlationId == request.correlationId
    && event.artifactDigest == RedactDigest(Some(request.targetArtifactDigest))
    && event.migrationId == Some(request.targetMigrationId) && event.startMs == request.startMs
    && event.commitSha == Units("unknown")
  }

  lemma TwoOfRelease(first: Event, second: Event, releaseId: JsString)
    ensures OfRelease([first] + [second], releaseId)
         == (if first.subject.releaseId == releaseId then [first] else [])
          + (if second.subject.releaseId == releaseId then [second] else [])
  {
    FilterOfSnoc([first], second, (e: Event) => e.subject.releaseId == releaseId);
    FilterOfSnoc([], first, (e: Event) => e.subject.releaseId == releaseId);
    assert [] + [first] == [first];
  }

  // ----- Backup verification

  predicate BackupExists(location: JsString) {
    location != [] && !Includes(location, Units("nonexistent"))
  }

  predicate BackupReadable(location: JsString) {
    location != [] && !Includes(location, Units("unreadable"))
  }

  predicate ChecksumValid(checksum: JsString) {
    checksum != [] && checksum != Units("invalid") && |checksum| == 64
  }

  datatype BackupRequest = BackupRequest(
    backupId: JsString, location: JsString, checksum: JsString, createdMs: int, environment: Environment,
    verifiedBy: JsString, correlationId: JsString, checkedMs: int)

  function BackupAudit(request: BackupRequest, notes: Notes, result: Outcome): AuditInput {
    AuditInput(
      Subject(NOT_APPLICABLE, None, None, Some(request.backupId), None, None), request.environment,
      BackupVerification, result, Operator(request.verifiedBy, System), NOT_APPLICABLE, None, None,
      request.checkedMs, None, if result == Verified then None else Some(notes.reason(result)), None,
      request.correlationId, notes.evidence(result))
  }

  function VerificationOf(request: BackupRequest, nowMs: int): Operation {
    Verification(BackupExists(request.location), BackupReadable(request.location),
                 ChecksumValid(request.checksum), RecentEnough(request.createdMs, nowMs, request.environment))
  }

  /** Backup verification: one event, VERIFIED exactly when the backup exists, is readable, has a
      checksum of the right length, and is younger than the limit of its environment and 18 seconds. */
  method VerifyBackup(audit: DeploymentAuditService, request: BackupRequest, notes: Notes, auditIds: seq<JsString>,
                      clock: seq<int>, nowMs: int, lower: Lower)
    returns (meetsPolicy: bool)
    requires |auditIds| == |clock| == 1
    modifies audit
    ensures audit.events == old(audit.events)
      + Recorded(Script(VerificationOf(request, nowMs)), r => BackupAudit(request, notes, r), auditIds, clock, lower)
    ensures audit.events[|audit.events| - 1].result == if meetsPolicy then Verified else VerificationFailed
    ensures meetsPolicy <==>
      && request.location != [] && !Includes(request.location, Units("nonexistent"))
      && !Includes(request.location, Units("unreadable")) && |request.checksum| == 64
      && nowMs - request.createdMs < PolicyOf(request.environment).requireRecentBackupHours * HOUR + 18000
  {
    var present := BackupExists(request.location);
    var readable := if present then BackupReadable(request.location) else false;
    var checksumValid := if present then ChecksumValid(request.checksum) else false;
    var recentEnough := RecentEnough(request.createdMs, nowMs, request.environment);
    meetsPolicy := present && readable && checksumValid && recentEnough;
    BackupAgeThreshold(request.createdMs, nowMs, request.environment);
    assert |Units("invalid")| == 7;
    var result := if meetsPolicy then Verified else VerificationFailed;
    var _ := audit.Record(BackupAudit(request, notes, result), auditIds[0], clock[0], lower);
  }

  // ----- Recovery

  datatype RecoveryStep = RecoveryStep(name: JsString, completed: bool)

  predicate Restores(steps: seq<RecoveryStep>, part: JsString) {
    exists step | step in steps :: step.completed && Includes(step.name, part)
  }

  /** What a sequence of steps brings back. A failed dependency is an unfinished step that is itself
      named FAILED. */
  function PartsOf(steps: seq<RecoveryStep>): Parts {
    Parts(Restores(steps, Units("database")), Restores(steps, Units("redis")), Restores(steps, Units("queue")),
          Restores(steps, Units("object_storage")) || Restores(steps, Units("s3")),
          exists step | step in steps :: !step.completed && step.name == Units("FAILED"))
  }

  lemma RestoresOfSnoc(steps: seq<RecoveryStep>, step: RecoveryStep, part: JsString)
    ensures Restores(steps + [step], part) <==> Restores(steps, part) || (step.completed && Includes(step.name, part))
  {
    assert step in steps + [step] && forall s | s in steps :: s in steps + [step];
    assert forall s | s in steps + [step] :: s in steps || s == step;
  }

  lemma FailedOfSnoc(steps: seq<RecoveryStep>, step: RecoveryStep, name: JsString)
    ensures (exists s | s in steps + [step] :: !s.completed && s.name == name)
       <==> (exists s | s in steps :: !s.completed && s.name == name) || (!step.completed && step.name == name)
  {
    assert step in steps + [step] && forall s | s in steps :: s in steps + [step];
    assert forall s | s in steps + [step] :: s in steps || s == step;
  }

  lemma PartsOfSnoc(steps: seq<RecoveryStep>, step: RecoveryStep)
    ensures var before, after := PartsOf(steps), PartsOf(steps + [step]);
      && after.database == (before.database || (step.completed && Includes(step.name, Units("database"))))
      && after.redis == (before.redis || (step.completed && Includes(step.name, Units("redis"))))
      && after.queue == (before.queue || (step.completed && Includes(step.name, Units("queue"))))
      && after.objectStorage == (before.objectStorage
           || (step.completed && (Includes(step.name, Units("object_storage")) || Includes(step.name, Units("s3")))))
      && after.dependencyFailed == (before.dependencyFailed || (!step.completed && step.name == Units("FAILED")))
  {
    RestoresOfSnoc(steps, step, Units("database"));
    RestoresOfSnoc(steps, step, Units("redis"));
    RestoresOfSnoc(steps, step, Units("queue"));
    RestoresOfSnoc(steps, step, Units("object_storage"));
    RestoresOfSnoc(steps, step, Units("s3"));
    FailedOfSnoc(steps, step, Units("FAILED"));
  }

  /** What a recovery is credited with: a part, if the name of a completed step speaks of it; a failed
      dependency, if a step named so is not completed. */
  lemma StepIsCredited(steps: seq<RecoveryStep>, step: RecoveryStep)
    requires step in steps
    ensures step.completed ==>
      && (Includes(step.name, Units("database")) ==> PartsOf(steps).database)
      && (Includes(step.name, Units("redis")) ==> PartsOf(steps).redis)
      && (Includes(step.name, Units("queue")) ==> PartsOf(steps).queue)
      && (Includes(step.name, Units("object_storage")) ==> PartsOf(steps).objectStorage)
      && (Includes(step.name, Units("s3")) ==> PartsOf(steps).objectStorage)
    ensures !step.completed && step.name == Units("FAILED") ==> PartsOf(steps).dependencyFailed
  {
  }

  /** Steps that are not completed restore nothing, and completed ones report no failed dependency. */
  lemma OnlyCompletedStepsCount(steps: seq<RecoveryStep>)
    ensures (forall step | step in steps :: !step.completed) ==>
      var parts := PartsOf(steps);
      !parts.database && !parts.redis && !parts.queue && !parts.objectStorage && RecoveredNames(steps) == []
    ensures (forall step | step in steps :: step.completed) ==>
      !PartsOf(steps).dependencyFailed && RecoveredNames(steps) == Names(steps)
  {
    if forall step | step in steps :: !step.completed {
      FilterIsNone(steps, (step: RecoveryStep) => step.completed);
    }
    if forall step | step in steps :: step.completed {
      FilterIsAll(steps, (step: RecoveryStep) => step.completed);
    }
  }

  /** The names of the completed steps, in order. */
  function RecoveredNames(steps: seq<RecoveryStep>): seq<JsString> {
    Names(Filter(steps, (step: RecoveryStep) => step.completed))
  }

  function Names(steps: seq<RecoveryStep>): seq<JsString> {
    seq(|steps|, i requires 0 <= i < |steps| => steps[i].name)
  }

  /** The loop over the recovery sequence. */
  method CollectParts(steps: seq<RecoveryStep>) returns (parts: Parts, recovered: seq<JsString>)
    ensures parts == PartsOf(steps)
    ensures recovered == RecoveredNames(steps)
  {
    var database, redis, queue, objectStorage, failed := false, false, false, false, false;
    recovered := [];
    for i := 0 to |steps|
      invariant recovered == RecoveredNames(steps[..i])
      invariant Parts(database, redis, queue, objectStorage, failed) == PartsOf(steps[..i])
    {
      var step := steps[i];
      assert steps[..i + 1] == steps[..i] + [step];
      PartsOfSnoc(steps[..i], step);
      FilterOfPrefix(steps, i, (s: RecoveryStep) => s.completed);
      if step.completed {
        if Includes(step.name, Units("database")) { database := true; }
        if Includes(step.name, Units("redis")) { redis := true; }
        if Includes(step.name, Units("queue")) { queue := true; }
        if Includes(step.name, Units("object_storage")) || Includes(step.name, Units("s3")) { objectStorage := true; }
        recovered := recovered + [step.name];
      } else if step.name == Units("FAILED") {
        failed := true;
      }
    }
    assert steps[..|steps|] == steps;
    parts := Parts(database, redis, queue, objectStorage, failed);
  }

  datatype RecoveryRequest = RecoveryRequest(
    drId: JsString, environment: Environment, backupMs: int, failureMs: int, triggeredBy: JsString,
    correlationId: JsString)

  /** What a recovery records with an outcome. The finish of the closing event is the time at which the
      recovery began. */
  function RecoveryAudit(request: RecoveryRequest, measuredMs: int, notes: Notes, result: Outcome): AuditInput {
    AuditInput(
      Subject(NOT_APPLICABLE, None, None, None, None, Some(request.drId)), request.environment,
      DisasterRecovery, result, Operator(request.triggeredBy, System), NOT_APPLICABLE, None, None,
      request.failureMs, if result == Started then None else Some(measuredMs),
      if result == Failed then Some(notes.reason(result)) else None, None,
      request.correlationId, notes.evidence(result))
  }

  /** The moments at which a recovery reads the clock: as it begins (for its record and for its
      duration), for the age of the backup, and twice when its steps are done. */
  datatype Moments = Moments(measuredMs: int, startMs: int, agedMs: int, restoredMs: int, recoveredMs: int)

  /** Hundredths of minutes. */
  datatype Timings = Timings(rpo: int, rto: int, backupAge: int, restoreDuration: int)

  datatype RecoveryResult = RecoveryResult(
    status: Outcome, timings: Timings, parts: Parts, recovered: seq<JsString>)

  /** The measure meets a whole number of minutes exactly under that many minutes and 300
      milliseconds. */
  ghost predicate MeetsExactly(hundredths: int, ms: int) {
    forall minutes :: Within(hundredths, minutes) <==> ms < minutes * MINUTE + 300
  }

  ghost predicate Reports(timings: Timings, request: RecoveryRequest, moments: Moments) {
    && MeetsExactly(timings.rpo, request.failureMs - request.backupMs)
    && MeetsExactly(timings.rto, moments.recoveredMs - request.failureMs)
    && MeetsExactly(timings.backupAge, moments.agedMs - request.backupMs)
    && MeetsExactly(timings.restoreDuration, moments.restoredMs - moments.startMs)
  }

  lemma HundredthsMeet(ms: int)
    ensures MeetsExactly(Hundredths(ms, MINUTE), ms)
  {
    forall minutes
      ensures Within(Hundredths(ms, MINUTE), minutes) <==> ms < minutes * MINUTE + 300
    {
      LimitThreshold(ms, MINUTE, minutes, 300);
    }
  }

  lemma TimingsReport(timings: Timings, request: RecoveryRequest, moments: Moments)
    requires timings.rpo == RpoHundredths(request.backupMs, request.failureMs)
    requires timings.rto == RtoHundredths(request.failureMs, moments.recoveredMs)
    requires timings.backupAge == Hundredths(moments.agedMs - request.backupMs, MINUTE)
    requires timings.restoreDuration == Hundredths(moments.restoredMs - moments.startMs, MINUTE)
    ensures Reports(timings, request, moments)
  {
    HundredthsMeet(request.failureMs - request.backupMs);
    HundredthsMeet(moments.recoveredMs - request.failureMs);
    HundredthsMeet(moments.agedMs - request.backupMs);
    HundredthsMeet(moments.restoredMs - moments.startMs);
  }

  /** The recovery service: STARTED and the status that the restored parts give, the completed steps by
      name, and measures that meet a whole-minute objective exactly under that objective and 300
      milliseconds. */
  method ExecuteRecovery(audit: DeploymentAuditService, request: RecoveryRequest, steps: seq<RecoveryStep>,
                         moments: Moments, notes: Notes, auditIds: seq<JsString>,
                         clock: seq<int>, lower: Lower)
    returns (result: RecoveryResult)
    requires |auditIds| == |clock| == 2
    modifies audit
    ensures audit.events == old(audit.events)
      + Recorded(Script(Recovery(PartsOf(steps))), r => RecoveryAudit(request, moments.measuredMs, notes, r),
                 auditIds, clock, lower)
    ensures audit.events[|audit.events| - 1].result == result.status
    ensures audit.events[|audit.events| - 1].durationMs == moments.measuredMs - request.failureMs
    ensures result.status == Failed <==>
      !(Restores(steps, Units("database")) && Restores(steps, Units("redis")) && Restores(steps, Units("queue")))
    ensures result.parts == PartsOf(steps) && result.recovered == RecoveredNames(steps)
    ensures Reports(result.timings, request, moments)
  {
    var _ := audit.Record(RecoveryAudit(request, moments.measuredMs, notes, Started), auditIds[0], clock[0], lower);
    var rpo := RpoHundredths(request.backupMs, request.failureMs);
    var backupAge := Hundredths(moments.agedMs - request.backupMs, MINUTE);
    var parts, recovered := CollectParts(steps);
    var restoreDuration := Hundredths(moments.restoredMs - moments.startMs, MINUTE);
    var rto := RtoHundredths(request.failureMs, moments.recoveredMs);
    var applicationHealthy := parts.database && parts.redis && parts.queue;
    var status := Recovered;
    if !applicationHealthy {
      status := Failed;
    } else if parts.dependencyFailed {
      status := Partial;
    } else if parts.objectStorage {
      status := Verified;
    }
    result := RecoveryResult(status, Timings(rpo, rto, backupAge, restoreDuration), parts, recovered);
    var _ := audit.Record(RecoveryAudit(request, moments.measuredMs, notes, status), auditIds[1], clock[1], lower);
    TimingsReport(result.timings, request, moments);
  }

  /** How the two events of a recovery are filed: under no release, so that no query for a release finds
      them; STARTED ends when it is recorded, the outcome when the run was measured; a failed recovery has
      a reason and no other has. */
  lemma RecoveryIsFiled(request: RecoveryRequest, measuredMs: int, notes: Notes, parts: Parts,
                        auditIds: seq<JsString>, clock: seq<int>, lower: Lower)
    requires |auditIds| == |clock| == 2
    ensures var events := Recorded(Script(Recovery(parts)), r => RecoveryAudit(request, measuredMs, notes, r),
                                   auditIds, clock, lower);
      && |events| == 2 && events[0].result == Started && events[1].result == RecoveryStatus(parts)
      && (forall i | 0 <= i < 2 :: FiledUnderRecovery(events[i], request))
      && events[0].durationMs == clock[0] - request.failureMs
      && events[1].durationMs == measuredMs - request.failureMs
      && events[0].failureReason == None
      && (events[1].failureReason.Some? <==> !(parts.database && parts.redis && parts.queue))
  {
    RecordedOfTwo(Started, RecoveryStatus(parts), r => RecoveryAudit(request, measuredMs, notes, r),
                  auditIds, clock, lower);
  }

  ghost predicate FiledUnderRecovery(event: Event, request: RecoveryRequest) {
    && event.subject.releaseId == Units("n/a") && event.subject.drId == Some(request.drId)
    && event.subject.deploymentId == event.subject.rollbackId == event.subject.backupId == None
    && event.subject.restoreId == None
    && event.action == DisasterRecovery && event.environment == request.environment
    && event.operator == Operator(request.triggeredBy, System) && event.correlationId == request.correlationId
    && event.commitSha == Units("n/a") && event.artifactDigest == event.migrationId == event.approvalReference == None
    && event.startMs == request.failureMs
  }

  /** How a backup verification is filed: under its backup and no release, with a reason exactly if it
      failed. */
  lemma BackupIsFiled(request: BackupRequest, notes: Notes, result: Outcome, auditId: JsString, nowMs: int,
                      lower: Lower)
    ensures var event := EventOf(BackupAudit(request, notes, result), auditId, nowMs, lower);
      && event.subject.releaseId == Units("n/a") && event.subject.backupId == Some(request.backupId)
      && event.subject.deploymentId == event.subject.rollbackId == event.subject.restoreId == event.subject.drId == None
      && event.action == BackupVerification && event.environment == request.environment && event.result == result
      && event.operator == Operator(request.verifiedBy, System) && event.correlationId == request.correlationId
      && event.commitSha == Units("n/a") && event.artifactDigest == event.migrationId == event.approvalReference == None
      && event.startMs == request.checkedMs && event.durationMs == nowMs - request.checkedMs
      && (event.failureReason == None <==> result == Verified)
  {
  }
}
