# Release control plane, row-level security and handover document: a Dafny model

This project models the part of the copy-trading platform that decides whether a release may be
deployed and records what happened, the generator of its row-level-security scripts, and the
generator of its handover document, and proves what each of them promises over all inputs, runs and
interleavings.

- **Migration history** (`MigrationHistory`, `ReleaseRuns`, `MigrationGate`, `DeploymentPlan`, `Preflight`): pending
  migrations are computed twice, by sort-and-slice and by filter-and-sort; a rollback check and a
  preflight rest on the same order.
- **Deployment protocol** (`StatusMachines`, `AuditLog`, `Evidence`, `Operations`, `AuditedCalls`,
  `AuditedRuns`, with `EvidenceKept`): two transition tables with retry loops, and executions, rollbacks, recoveries and backup
  verifications that interleave at their awaits over one append-only log with redacted evidence.
- **Row-level security** (`RlsPolicy`, `RlsSessions`, `RlsScripts`, `RlsGate`): the generated policy as a filter on
  the statements of a session, the enable and disable scripts as programs over catalog flags, and the
  gate that compares coverage with a list of protected models.
- **Handover document** (`HandoverDocument`, `HandoverLayout`, `HandoverIndex`, `TextWrap`, `TextRewrap`,
  `HeaderReflow`, `HeaderOutline`, `WrapAgain`, `WrapLoss`, `ReflowAgain`, `HandoverAssembly`, with `Folding`, `TextLines`
  and `TextWords` below them): files printed into Markdown, read back by a CommonMark reader, indexed by a
  heading pattern, under a header whose bullets are re-wrapped.
- **Texts and measures** (`JsonText`, `ReleaseManifest`, `Measures`): JSON text as a prefix code, the
  identity of manifests and plans through it, and limits on rounded durations.

JavaScript strings are sequences of 16-bit code units ordered lexicographically (`CodeUnits`); Python
texts are Dafny strings. Times are whole milliseconds, and rounding is floor(x + 1/2) over exact
rationals. `dafny verify dfyconfig.toml` checks the whole project.

## Where the code differs from what is said about it

- Plans are described as deterministic, but the compared plan includes its creation time:
  `DeploymentPlan.SameRequestSamePlan` gives the exact condition.
- The redaction is meant to keep every key; assigning `__proto__` on the new object adds no property:
  `Evidence.KeysPreservedIff`.
- The generator leaves tables with an optional tenant out by design, while the gate lists `AuditLog`,
  `SecurityEvent` and `Role` as protected, so the gate fails closed on the generator's own coverage
  unless a table name happens to match: `RlsGate.ExcludedProtectedModelBlocks`, and
  `RlsGate.GateFailsOnAuditLog` for every schema that the generator accepts and where none does.
- The rule for blocking a deployment lets DESTRUCTIVE_DETECTED through outside production:
  `Preflight.BlockingAgreesExcept` gives the exact condition.
- A protected model counts as declared when a longer model name begins with its name:
  `RlsGate.LongerNameDeclares`.
- Deployment identifiers are meant to be those of one request; ids with hyphens can share one:
  `DeploymentPlan.DeploymentIdsCanCollide`.
- A gate result can report a valid schema that was never read: `MigrationGate.FlagMeaning`.
- A database whose current id is not in the history is never given a plan:
  `MigrationHistory.PlanNeedsBothIds`.
- Re-wrapping is meant never to double a bullet marker; it does for a bullet without a word:
  `HeaderReflow.WordsSurvive`, `HeaderReflow.BareBulletIsDoubled`.
- Re-flowing an emitted header again can move line breaks: `ReflowAgain.ReflowIsNotIdempotent` is such a
  header, and `ReflowAgain.ReflowIsIdempotentIff` the exact condition.
- The closing event of a recovery is recorded with the moment the recovery began as its completion:
  `AuditedCalls.ExecuteRecovery`.

## Model

| member | source | states |
|---|---|---|
| `MigrationHistory.PendingComputationsAgree` | whitelabel-copytrade/ops/production/deployment-plan.service.ts:100-107 | with both ids in the history, the plan's sort-and-slice equals the gate's filter-and-sort exactly when the target is not above the current id or neither id is listed twice |
| `MigrationHistory.RepeatedCurrentIsPlannedAgain` | whitelabel-copytrade/ops/production/deployment-plan.service.ts:100-107 | on any history in which the current id stands twice below a listed target, the plan applies the current id again, while the gate leaves it out |
| `MigrationHistory.RepeatedTargetIsPlannedOnce` | whitelabel-copytrade/ops/production/deployment-plan.service.ts:100-107 | on any history in which the target stands twice above a listed current id, the plan applies it once and the gate lists it as often as it stands there |
| `MigrationHistory.PlanNeedsBothIds` | whitelabel-copytrade/ops/production/deployment-plan.service.ts:104 | an id missing from the history empties the plan even where the gate lists the target as pending, so a database without a recorded migration is never given one |
| `MigrationHistory.PlanIsWithinGate` | whitelabel-copytrade/ops/production/migration-gate.service.ts:56-59 | on every duplicate-free history the plan applies the gate's pending list, or nothing when an id is missing |
| `MigrationHistory.PlanIgnoresListing` | whitelabel-copytrade/ops/production/deployment-plan.service.ts:101 | the order in which a history is listed reaches neither the plan nor the compatibility check |
| `MigrationHistory.GatePendingMembers` | whitelabel-copytrade/ops/production/migration-gate.service.ts:56-59 | the gate's pending list holds exactly the ids of the history above the current and not above the target |
| `MigrationHistory.StagedUpgrade` | whitelabel-copytrade/ops/production/migration-gate.service.ts:56-59 | pending from a to c is pending from a to b followed by pending from b to c, for the gate on every history and for the plan on duplicate-free ones |
| `MigrationHistory.RollbackIsDualToPlanning` | whitelabel-copytrade/ops/production/rollback.service.ts:187-193 | for every history with both ids, a rollback target is schema-compatible exactly when the plan towards it is empty, and exactly when it is not above the current id |
| `MigrationHistory.CompatibilityIsTotalOrder` | whitelabel-copytrade/ops/production/rollback.service.ts:187-197 | compatibility is reflexive, total and transitive on the ids of a history, and database recovery is waived exactly for pairs compatible both ways |
| `MigrationHistory.CompatibilityMeaning` | whitelabel-copytrade/ops/production/rollback.service.ts:187-197 | on every history, compatible means that both ids are in it and the target is not above the current id; an id that is missing is compatible with nothing; recovery is needed exactly for different ids |
| `ReleaseRuns.DeployKeepsUpToDate` | whitelabel-copytrade/ops/production/deployment-plan.service.ts:100-107 | executing one plan whose history adds ids only above the current one keeps the applied list equal to the sorted history up to the current id |
| `ReleaseRuns.RunStaysUpToDate` | whitelabel-copytrade/ops/production/deployment-plan.service.ts:100-107 | the same over every run of releases |
| `ReleaseRuns.NothingTwiceNothingSkipped` | whitelabel-copytrade/ops/production/deployment-plan.service.ts:100-107 | over every such run no migration is applied twice, exactly the ids of the newest history up to the current one are applied, and what was applied before stays in place |
| `ReleaseRuns.LateMigrationIsNeverApplied` | whitelabel-copytrade/ops/production/deployment-plan.service.ts:104-106 | in every run whatsoever, a migration that is missing once the database has passed it is never applied |
| `MigrationHistory.PlanNeverGoesBack` | whitelabel-copytrade/ops/production/deployment-plan.service.ts:105-106 | no plan lists an id below the current one, whatever the history |
| `MigrationGate.ValidateHistoryOrdering` | whitelabel-copytrade/ops/production/migration-gate.service.ts:216-223 | the neighbour-comparing loop accepts exactly the strictly ascending lists |
| `MigrationGate.DetectDestructiveOperations` | whitelabel-copytrade/ops/production/migration-gate.service.ts:225-245 | the three nested loops list, file by file and pattern by pattern, every match in order |
| `MigrationGate.OperationsOfFile` | whitelabel-copytrade/ops/production/migration-gate.service.ts:225-245 | one file is reported under its own id: dropped tables, then dropped columns, then dropped types, each in the order of the text |
| `MigrationGate.ReportedOperations` | whitelabel-copytrade/ops/production/migration-gate.service.ts:99-157 | an operation is reported exactly if some file of the pending range has that id and that match of that pattern, in a run whose ordering was accepted |
| `MigrationGate.ReportedIds` | whitelabel-copytrade/ops/production/migration-gate.service.ts:51-59 | whatever the status, both reported lists are sorted: pending holds the ids of the files above the current id and not above the target, applied those not above the current id |
| `MigrationGate.RunGate` | whitelabel-copytrade/ops/production/migration-gate.service.ts:47-190 | the gate decides as the specification `Validate` that the lemmas below are about |
| `MigrationGate.OrderingCheckMeansSorted` | whitelabel-copytrade/ops/production/migration-gate.service.ts:216-223 | the ordering check accepts exactly the duplicate-free lists that code-unit sorting leaves alone |
| `MigrationGate.GateSortsAreIdle` | whitelabel-copytrade/ops/production/migration-gate.service.ts:51-59 | after an accepted ordering the gate's own two sorts change nothing, whatever comparison `localeCompare` made when the files were loaded |
| `MigrationGate.StagedOperations` | whitelabel-copytrade/ops/production/migration-gate.service.ts:225-245 | the destructive operations found for an upgrade are those found for its stages, in order |
| `MigrationGate.VerdictMeaning` | whitelabel-copytrade/ops/production/migration-gate.service.ts:47-190 | each verdict, if and only if its conditions on ids, ordering, scanned files, backup and schema hold; PENDING_MIGRATIONS is never given |
| `MigrationGate.FlagMeaning` | whitelabel-copytrade/ops/production/migration-gate.service.ts:99-157 | when the history, destructive, schema and approval flags are set; a run ended by a destructive or unbacked migration reports a valid schema without reading it |
| `MigrationGate.MissingPartNeverPasses` | whitelabel-copytrade/ops/production/migration-gate.service.ts:247-254 | a schema file without its datasource, generator or tenant model never passes |
| `MigrationGate.PendingFilesScanned` | whitelabel-copytrade/ops/production/migration-gate.service.ts:99-101 | nothing is found exactly when every file in the pending range is free of matches |
| `MigrationGate.PlannedFileIsClean` | whitelabel-copytrade/ops/production/migration-gate.service.ts:99-101 | behind an accepted gate, each id that a plan over the same ids applies is the id of a scanned file without a match |
| `Preflight.Collect` | whitelabel-copytrade/ops/production/preflight.service.ts:81-90 | over any checks, the loop lists the critical failures and the degraded checks in order, and passes exactly when nothing critical failed |
| `Preflight.Run` | whitelabel-copytrade/ops/production/preflight.service.ts:60-101 | the fifteen checks in order; a pass exactly when none of them is a critical failure, which `PassesIff` below gives on the inputs; no check is ever degraded, so the list of warnings is always empty |
| `Preflight.PassesIff` | whitelabel-copytrade/ops/production/preflight.service.ts:60-101 | in every environment a run passes if and only if the configuration is there, the target is in a strictly ascending history, the schema file is valid, the RLS artefacts exist, every protected model of that schema file has a policy, and, in production, the backup is verified and the pending files are clean |
| `Preflight.ReportedChecks` | whitelabel-copytrade/ops/production/preflight.service.ts:65-79 | the report lists the fifteen checks in their order; all are critical but billing, the exchange and, outside production, the backup; checks without a probe report a pass |
| `Preflight.ConfigurationFailures` | whitelabel-copytrade/ops/production/preflight.service.ts:103-196 | which configuration checks are named as critical failures, in every environment: exactly those whose input is missing or wrong |
| `Preflight.GateFailures` | whitelabel-copytrade/ops/production/preflight.service.ts:275-368 | which gates are: exactly those whose verdict is no pass, and the backup exactly in production without one |
| `Preflight.MigrationFailureMeans` | whitelabel-copytrade/ops/production/preflight.service.ts:275-313 | on the inputs: the migration gate is not named as failed exactly if the target is in a strictly ascending history, the schema file is valid and, in production, the backup is verified and the pending files are clean |
| `Preflight.ProductionPassesIff` | whitelabel-copytrade/ops/production/preflight.service.ts:275-368 | a production preflight passes if and only if configuration, backup, strict history with the target in it, clean pending files, the schema file, the RLS artefacts, and a policy for every protected model of that same schema file are all in order |
| `Preflight.ProductionVerdictIsValid` | whitelabel-copytrade/ops/production/preflight.service.ts:275-289 | behind a passed production preflight the gate says VALID, never APPROVAL_REQUIRED |
| `Preflight.BlockingAgreesExcept` | whitelabel-copytrade/ops/production/migration-gate.service.ts:256-263 | for every input, files, schema and scan: the blocking rule and passing are opposite except exactly outside production, with destructive migrations forbidden, the target in a strictly ascending history and a match in the pending files; never do both hold. Preflight never asks for that case |
| `Preflight.DestructiveOutsideProductionIsNotBlocked` | whitelabel-copytrade/ops/production/migration-gate.service.ts:256-263 | in that case the verdict is DESTRUCTIVE_DETECTED, and it blocks nothing |
| `Preflight.PlannedMigrationsWereScanned` | whitelabel-copytrade/ops/production/preflight.service.ts:60-101 | end to end: after a passed production preflight every migration the plan applies was scanned with no dangerous match, in a strictly ascending history, with a verified backup and a policy for every protected model of the schema file |
| `DeploymentPlan.TextsCompareThePlans` | whitelabel-copytrade/ops/production/deployment-plan.service.ts:164-182 | comparing the JSON texts of two sorted plans compares every field of them: the check holds if and only if the sorted plans are equal |
| `DeploymentPlan.SameRequestSamePlan` | whitelabel-copytrade/ops/production/deployment-plan.service.ts:168-182 | listing services or history in another order gives the same plan, identifier included, and plans for one request count as deterministic exactly when their creation times agree |
| `DeploymentPlan.PlanContents` | whitelabel-copytrade/ops/production/deployment-plan.service.ts:30-83 | an allowed strategy, services as a sorted permutation, approval and backup outside development only, and migrations exactly when the target lies above the current id in the history; which ones, `PlannedMigrations` says |
| `DeploymentPlan.PlannedMigrations` | whitelabel-copytrade/ops/production/deployment-plan.service.ts:39-60 | on a duplicate-free history with both ids, the list in the plan is ascending and holds each id above the current and not above the target once and nothing else, and the plan names the two ids of the request |
| `DeploymentPlan.PlannedOnAnyHistory` | whitelabel-copytrade/ops/production/deployment-plan.service.ts:100-107 | on any history the plan lists what sort-and-slice gives of the two ids and the history of the request: nothing when an id is missing, and never an id below the current one |
| `DeploymentPlan.PlanCarriesTheRequest` | whitelabel-copytrade/ops/production/deployment-plan.service.ts:47-80 | which fields the plan carries over, the default strategy of each environment, and the rollback part |
| `DeploymentPlan.PlanFollowsTheEnvironment` | whitelabel-copytrade/ops/production/deployment-plan.service.ts:62-77 | roles, retries and the verification time by environment |
| `DeploymentPlan.RolesByEnvironment` | whitelabel-copytrade/ops/production/deployment-plan.service.ts:137-141 | a platform administrator approves outside development, a release manager in production alone, a developer everywhere else |
| `DeploymentPlan.ProductionAsksMost` | whitelabel-copytrade/ops/production/deployment-plan.service.ts:109-166 | no environment has a health gate or a criterion that production has not, and none verifies longer |
| `DeploymentPlan.DeterministicIff` | whitelabel-copytrade/ops/production/deployment-plan.service.ts:168-182 | for any two plans: the check holds if and only if they agree in every field but for the order in which services, gates and criteria are listed |
| `DeploymentPlan.DeploymentIdsAgreeIff` | whitelabel-copytrade/ops/production/deployment-plan.service.ts:85-92 | with a hash whose first twelve digits tell texts apart, two deployments share an identifier exactly if environment and hyphenated text are the same |
| `DeploymentPlan.DeploymentIdsCanCollide` | whitelabel-copytrade/ops/production/deployment-plan.service.ts:85-92 | two different requests that share an identifier whatever the hash, because a hyphen inside an id reads like the one between ids |
| `Environments.AllowedStrategies` | whitelabel-copytrade/ops/production/environment-policy.service.ts:10-125 | rolling is allowed everywhere, recreating in development alone, blue-green and canary outside it; two approvals are asked for in production, one in staging, none in development |
| `Environments.EnvironmentNames` | whitelabel-copytrade/ops/production/production.types.ts:10-14 | the names that identifiers, versions and plan texts hold |
| `DeploymentPlan.GatesAreSorted` | whitelabel-copytrade/ops/production/deployment-plan.service.ts:168-178 | health gates and criteria are sorted permutations of those of the environment |
| `DeploymentPlan.DefaultIsAllowed` | whitelabel-copytrade/ops/production/deployment-plan.service.ts:33-37 | a plan is refused exactly for an explicit strategy outside the policy; the default never is |
| `StatusMachines.DeploymentTableIsLawful` | whitelabel-copytrade/ops/production/production.types.ts:577-599 | the deployment table has the entry, depth and failure laws on which the run theorems rest |
| `StatusMachines.ReleaseTableIsLawful` | whitelabel-copytrade/ops/production/production.types.ts:557-575 | so has the release table |
| `StatusMachines.RunFollowsPath` | whitelabel-copytrade/ops/production/production.types.ts:557-599 | since its last start, every run standing on the unfailed path has gone through exactly the statuses before it, in order |
| `StatusMachines.ExecutionIsGated` | whitelabel-copytrade/ops/production/production.types.ts:577-599 | whatever run reaches EXECUTING or beyond passed preflight, migration, RLS, security and approval in that order since its last PLANNED, with no failed status between |
| `StatusMachines.ReleaseIsGated` | whitelabel-copytrade/ops/production/production.types.ts:557-575 | whatever run reaches DEPLOYING or beyond passed security gates, manifest, signing and approval since its last CREATED |
| `StatusMachines.VerifiedIsAbsorbing` | whitelabel-copytrade/ops/production/production.types.ts:596 | once VERIFIED, a run stays VERIFIED |
| `StatusMachines.ProgressBound` | whitelabel-copytrade/ops/production/production.types.ts:557-599 | a run that has not reached VERIFIED is bounded by its failures and its depth, for every lawful table |
| `StatusMachines.DeploymentProgress` | whitelabel-copytrade/ops/production/production.types.ts:577-599 | a deployment run of n steps with f failures that is not VERIFIED has n <= 15f + 13 |
| `StatusMachines.DeploymentProgressIsTight` | whitelabel-copytrade/ops/production/production.types.ts:577-599 | for every f some run reaches 15f + 13 |
| `StatusMachines.ReleaseProgress` | whitelabel-copytrade/ops/production/production.types.ts:557-575 | a release run likewise has n <= 13f + 11 |
| `StatusMachines.ReleaseProgressIsTight` | whitelabel-copytrade/ops/production/production.types.ts:557-575 | for every f some run reaches 13f + 11 |
| `StatusMachines.DeploymentEntries` | whitelabel-copytrade/ops/production/production.types.ts:577-599 | which edges lead into a status of the path: exactly those from the one before it, from VERIFIED to itself, and from FAILED and ROLLED_BACK back to PLANNED |
| `StatusMachines.DeploymentFailures` | whitelabel-copytrade/ops/production/production.types.ts:577-599 | which edges lead into a failed status: exactly those from each gate to its own, and to FAILED from the four failed gates, AWAITING_APPROVAL, EXECUTING and VERIFYING |
| `StatusMachines.ReleaseEntries` | whitelabel-copytrade/ops/production/production.types.ts:557-575 | the same of the release path, back to CREATED |
| `StatusMachines.ReleaseFailures` | whitelabel-copytrade/ops/production/production.types.ts:557-575 | exactly those from the security gates and PENDING_APPROVAL to SECURITY_GATES_FAILED and REJECTED, and to FAILED from these two, BUILDING, DEPLOYING and VERIFYING |
| `StatusMachines.FailuresLeadBack` | whitelabel-copytrade/ops/production/production.types.ts:557-599 | out of every failed status leads exactly one edge, back to the start, or to FAILED and from there to the start |
| `Operations.LogOnlyGrows` | whitelabel-copytrade/ops/production/deployment-audit.service.ts:68 | in every interleaving the log before a step is a prefix of the log after it |
| `Operations.RunKeepsConsistent` | whitelabel-copytrade/ops/production/deployment-executor.service.ts:55-196 | in every interleaving each entry belongs to a call and each call has written what its segments so far write |
| `Operations.CallsFollowTheirScript` | whitelabel-copytrade/ops/production/deployment-executor.service.ts:55-196 | in every interleaving what one call has written is a beginning of its script |
| `Operations.ExecutedOnlyWhenCleared` | whitelabel-copytrade/ops/production/deployment-executor.service.ts:55-215 | in every interleaving an EXECUTED event comes from a call whose input passed every gate, was approved where required and had a verified backup in production, and STARTED stands before it |
| `Operations.ScriptExecutesIffCleared` | whitelabel-copytrade/ops/production/deployment-executor.service.ts:58-215 | a call can write EXECUTED exactly when its input is cleared and nothing fails, and STARTED exactly when it is cleared and its first recording is not rejected |
| `Operations.RefusalMeaning` | whitelabel-copytrade/ops/production/deployment-executor.service.ts:198-215 | which refusal an input gets: that of the first gate it misses, in the order migration, RLS, security, artifact, backup |
| `Operations.RecoveryStatusMeaning` | whitelabel-copytrade/ops/production/disaster-recovery.service.ts:100-115 | each status of a recovery, if and only if its conditions on the restored parts hold |
| `Operations.StartedMinusTerminalIsInFlight` | whitelabel-copytrade/ops/production/deployment-executor.service.ts:122-183 | in every interleaving STARTED events minus terminal events is the number of operations in flight, overall and for each correlation id |
| `AuditedCalls.Execute` | whitelabel-copytrade/ops/production/deployment-executor.service.ts:55-196 | against the audit object: the events added, with all their fields, are those of the script of the call; success is reported exactly for a cleared input without a fault, and the promise rejected exactly when the first recording is |
| `AuditedCalls.ExecutionIsFiled` | whitelabel-copytrade/ops/production/deployment-executor.service.ts:60-183 | how each event of an execution is filed: under the ids of the request, as CI exactly if it is not blocked and the operator id says so, with the approval only for STARTED and EXECUTED and a reason only for blocked and failed ones |
| `AuditedCalls.RollbackRelease` | whitelabel-copytrade/ops/production/rollback.service.ts:40-185 | against the audit object: STARTED under the current release, then the reported status; COMPLETED exactly for a verified artifact and a compatible schema, and then under the target release; database recovery exactly for an incompatible one |
| `AuditedCalls.RollbackIsFiled` | whitelabel-copytrade/ops/production/rollback.service.ts:43-182 | a query for the release rolled back to finds the completion alone, and nothing if the rollback was blocked; which of the two events has the approval and which a reason |
| `AuditedCalls.RollbackEventIsFiled` | whitelabel-copytrade/ops/production/rollback.service.ts:43-182 | both are filed under the rollback, its deployment, target digest and target migration; only STARTED can be put down to CI |
| `AuditedCalls.CollectParts` | whitelabel-copytrade/ops/production/disaster-recovery.service.ts:62-79 | the loop over the recovery sequence restores exactly the parts named by completed steps |
| `AuditedCalls.StepIsCredited` | whitelabel-copytrade/ops/production/disaster-recovery.service.ts:62-79 | a completed step whose name speaks of a part restores it, `s3` standing for the object storage; an uncompleted step named FAILED marks a failed dependency |
| `AuditedCalls.OnlyCompletedStepsCount` | whitelabel-copytrade/ops/production/disaster-recovery.service.ts:62-79 | uncompleted steps restore nothing and are not named, and completed ones mark no failed dependency |
| `AuditedCalls.ExecuteRecovery` | whitelabel-copytrade/ops/production/disaster-recovery.service.ts:36-149 | against the audit object: STARTED then the reported status; FAILED exactly when database, redis or queue is not restored; the result names the completed steps; recovery point, recovery time, backup age and restore duration each meet a whole number of minutes exactly under it and 300 milliseconds; the closing event's duration runs only to the moment the recovery began |
| `AuditedCalls.RecoveryIsFiled` | whitelabel-copytrade/ops/production/disaster-recovery.service.ts:38-145 | both events of a recovery are filed under it and no release; the duration of the first ends when it is recorded, that of the second when the run was measured; a reason exactly for a failed one |
| `AuditedRuns.PlayIsRun` | whitelabel-copytrade/ops/production/deployment-audit.service.ts:36-71 | runs that append whole events to the audit log are, field by field, the interleavings of the protocol, so all that holds of every interleaving holds of the log |
| `AuditedRuns.OwnEventsFollowTheScript` | whitelabel-copytrade/ops/production/deployment-executor.service.ts:55-196 | in every interleaving the events that one execution, rollback, recovery or backup verification has recorded are, in all their fields, a beginning of what it records alone |
| `AuditedRuns.QueryReturnsTheJob` | whitelabel-copytrade/ops/production/deployment-audit.service.ts:133-135 | in every interleaving the query for a correlation id that one job uses returns a beginning of what that job records alone: nothing foreign, missing or out of order |
| `AuditedRuns.ExecutedEventsAreCleared` | whitelabel-copytrade/ops/production/deployment-executor.service.ts:122-165 | in every interleaving an EXECUTED event in the log is, in all its fields, that of a request whose input passed every gate |
| `AuditedCalls.VerifyBackup` | whitelabel-copytrade/ops/production/backup-verification.service.ts:37-106 | against the audit object: one event, VERIFIED exactly for an existing, readable backup with a 64-character checksum, younger than the limit and 18 seconds |
| `AuditedCalls.BackupIsFiled` | whitelabel-copytrade/ops/production/backup-verification.service.ts:68-90 | the event of a verification is filed under its backup and no release, put down to the system, with a reason exactly if it failed |
| `AuditLog.DeploymentAuditService.Record` | whitelabel-copytrade/ops/production/deployment-audit.service.ts:36-71 | appends one event that carries every field of the input, with safe evidence, and leaves the events before it as they were |
| `AuditLog.EventCarriesInput` | whitelabel-copytrade/ops/production/deployment-audit.service.ts:36-66 | which field of an event is which field of its input, and that its duration runs from the start to the finish given or else to the moment of recording |
| `AuditLog.DigestIsAbbreviated` | whitelabel-copytrade/ops/production/deployment-audit.service.ts:123-127 | a digest is left out if empty or missing, hidden up to twelve units, and else shown by its first eight and last four |
| `AuditLog.QueriesPartitionTheLog` | whitelabel-copytrade/ops/production/deployment-audit.service.ts:129-139 | the answers by correlation id, over all correlation ids, are together the whole log as a multiset, and so are those by release id |
| `AuditLog.DeploymentAuditService.GetEventsByCorrelationId` | whitelabel-copytrade/ops/production/deployment-audit.service.ts:133-135 | exactly the recorded events with the id, each as often as recorded |
| `AuditLog.DeploymentAuditService.GetEventsByReleaseId` | whitelabel-copytrade/ops/production/deployment-audit.service.ts:137-139 | exactly the recorded events of the release, each as often as recorded |
| `Evidence.RedactEvidence` | whitelabel-copytrade/ops/production/deployment-audit.service.ts:82-121 | the loop that fills the new object computes the specification the lemmas are about, field by field as `EvidenceKept` says, and ends on every finite tree |
| `Evidence.RedactionIsIdempotentAndSafe` | whitelabel-copytrade/ops/production/deployment-audit.service.ts:82-121 | on every evidence tree redaction is idempotent, and at every depth forbidden keys carry only the marker, texts show no connection URL and have at most 1000 code units; what is kept, `SafeEvidenceIsKept` and `CleanTextIsKept` say |
| `Evidence.KeysSurvive` | whitelabel-copytrade/ops/production/deployment-audit.service.ts:103-120 | the keys of a redacted object are its own keys in order without `__proto__` |
| `Evidence.KeysPreservedIff` | whitelabel-copytrade/ops/production/deployment-audit.service.ts:103-120 | the keys are preserved exactly when none of them is `__proto__` |
| `Evidence.ArrayKeys` | whitelabel-copytrade/ops/production/deployment-audit.service.ts:104-115 | an array in the evidence becomes an object keyed by its indices in order |
| `EvidenceKept.SafeEvidenceIsKept` | whitelabel-copytrade/ops/production/deployment-audit.service.ts:82-121 | evidence that is already safe, with distinct keys and no `__proto__` at every depth, is stored unchanged |
| `EvidenceKept.FieldsAreRedactedEach` | whitelabel-copytrade/ops/production/deployment-audit.service.ts:104-119 | the new object holds each field but `__proto__` in order, redacted by itself |
| `EvidenceKept.CleanTextIsKept` | whitelabel-copytrade/ops/production/deployment-audit.service.ts:108-118 | under an allowed key a text without a connection URL comes out as its first 1000 code units, and numbers, booleans and null as they were |
| `EvidenceKept.SecretIsReplaced` | whitelabel-copytrade/ops/production/deployment-audit.service.ts:106-110 | everything under a forbidden key becomes one marker, a text with a connection URL another |
| `EvidenceKept.InnerFieldsAreRedacted` | whitelabel-copytrade/ops/production/deployment-audit.service.ts:114-115 | an object under an allowed key becomes the object of its redacted fields |
| `EvidenceKept.InnerItemsAreRedacted` | whitelabel-copytrade/ops/production/deployment-audit.service.ts:114-115 | an array becomes the object of its redacted items under their indices |
| `EvidenceKept.KeyWithWordIsForbidden` | whitelabel-copytrade/ops/production/deployment-audit.service.ts:105 | a key that holds one of the words in any casing is forbidden |
| `EvidenceKept.SecretNamesAreForbidden` | whitelabel-copytrade/ops/production/deployment-audit.service.ts:83-92 | a field named like one of the nine secrets is forbidden whatever lower-casing does |
| `EvidenceKept.SettingNamesAreForbidden` | whitelabel-copytrade/ops/production/deployment-audit.service.ts:93-100 | so is one named like one of the eight settings |
| `EvidenceKept.UrlIsRecognised` | whitelabel-copytrade/ops/production/deployment-audit.service.ts:109 | a connection URL anywhere in a text is recognised |
| `JsonText.StringRoundTrip` | whitelabel-copytrade/ops/production/release-manifest.service.ts:106-117 | reading the JSON text of a string by section 7 of RFC 8259 gives the string back, whatever follows it |
| `JsonText.JsonStringIsPrefixCode` | whitelabel-copytrade/ops/production/release-manifest.service.ts:106-117 | the JSON text of a string determines the string and where it ends |
| `JsonText.StringifyIsPrefixCode` | whitelabel-copytrade/ops/production/release-manifest.service.ts:106-117 | the JSON text of a value, nested to any depth, determines the value and where it ends |
| `JsonText.TextDeterminesValue` | whitelabel-copytrade/ops/production/deployment-plan.service.ts:180-182 | two values have the same JSON text if and only if they are the same value |
| `JsonText.TextIsJson` | whitelabel-copytrade/ops/production/release-manifest.service.ts:106-117 | the text is that of RFC 8259 without white space: items and members with commas between them in brackets and braces |
| `JsonText.PlainTextIsQuoted` | whitelabel-copytrade/ops/production/release-manifest.service.ts:106-117 | a text without quotes, backslashes, controls and surrogates stands as it is between quotes |
| `JsonText.EscapeIsPrintable` | whitelabel-copytrade/ops/production/release-manifest.service.ts:106-117 | every other unit is written in printable ASCII with lower-case digits, a lone surrogate included |
| `ReleaseManifest.ManifestIdentity` | whitelabel-copytrade/ops/production/release-manifest.service.ts:105-138 | two built manifests satisfy `isDeterministic` exactly when their inputs agree on the ten checksummed fields |
| `ReleaseManifest.SameForAnyHash` | whitelabel-copytrade/ops/production/release-manifest.service.ts:131-138 | without trust in the hash: manifests judged the same are of one commit, migration, image and schema, and inputs that agree on the ten fields are judged the same |
| `ReleaseManifest.ManifestCarries` | whitelabel-copytrade/ops/production/release-manifest.service.ts:37-103 | what a manifest carries over, the commit cut to eight units, and the version, which names the environment outside production |
| `ReleaseManifest.ChecksummedText` | whitelabel-copytrade/ops/production/release-manifest.service.ts:105-119 | the text behind the checksum is one object with these ten members in this order |
| `ReleaseManifest.ReleaseIdsAgreeIff` | whitelabel-copytrade/ops/production/release-manifest.service.ts:88-95 | with commits named without hyphens and a hash whose first sixteen digits tell texts apart, two builds share a release identifier exactly if commit, environment and migration are the same |
| `ReleaseManifest.HistoryOrderDoesNotMatter` | whitelabel-copytrade/ops/production/release-manifest.service.ts:37-86 | permuting the migration history changes nothing in the manifest apart from `builtAt` |
| `Measures.LimitThreshold` | whitelabel-copytrade/ops/production/backup-verification.service.ts:108-112 | rounding to hundredths lets a whole-unit limit be exceeded by less than half a hundredth of the unit and by nothing more |
| `Measures.BackupAgeThreshold` | whitelabel-copytrade/ops/production/backup-verification.service.ts:44-46 | a backup passes an H-hour limit exactly when its age is under H hours plus 18 seconds |
| `Measures.BackupAgeLimits` | whitelabel-copytrade/ops/production/environment-policy.service.ts:48-125 | in numbers: a week in development, a day in staging, six hours in production, each and 18 seconds |
| `Measures.ReadinessAgreesWithVerification` | whitelabel-copytrade/ops/production/production-readiness.service.ts:110-118 | the literal six hours of the readiness check and the policy table accept the same production backups |
| `Measures.ObjectiveThreshold` | whitelabel-copytrade/ops/production/disaster-recovery.service.ts:184-190 | a whole-minute RPO or RTO objective is met exactly under the objective plus 300 milliseconds |
| `Measures.RpoPlusRto` | whitelabel-copytrade/ops/production/disaster-recovery.service.ts:151-163 | reported RPO plus reported RTO is within a hundredth of a minute of recovery minus backup |
| `RlsPolicy.StatementIsConfined` | whitelabel-copytrade/scripts/gen_part11_rls.py:109-115 | a statement under one tenant leaves the rows every other tenant sees unchanged |
| `RlsPolicy.OwnViewDecides` | whitelabel-copytrade/scripts/gen_part11_rls.py:109-115 | what a statement does to its own tenant's rows, and whether it is refused, depends on those rows only |
| `RlsPolicy.NonInterference` | whitelabel-copytrade/scripts/gen_part11_rls.py:99-115 | over every run on a filtered table, a tenant sees at the end, and has refused, what it would have had nobody else sent anything |
| `RlsPolicy.OthersChangeNothing` | whitelabel-copytrade/scripts/gen_part11_rls.py:99-115 | a run of requests by others leaves the rows a tenant sees unchanged |
| `RlsPolicy.NoTenantIsInert` | whitelabel-copytrade/scripts/gen_part11_rls.py:103-106 | with the setting unset, empty or malformed nothing is visible and nothing changes; `RlsSessions` says what a valid setting does |
| `RlsPolicy.UnfilteredRoleInterferes` | whitelabel-copytrade/scripts/gen_part11_rls.py:155-160 | every role that the policy does not filter can change what another tenant sees, so the checklist's condition is necessary |
| `RlsPolicy.ViewsPartition` | whitelabel-copytrade/scripts/gen_part11_rls.py:114-115 | the tenants' views partition the table |
| `RlsPolicy.UnfilteredActsOnAll` | whitelabel-copytrade/scripts/gen_part11_rls.py:155-160 | what no policy filters acts on the whole table as a tenant acts on a table that is all its own |
| `RlsSessions.SettingShowsOwnRows` | whitelabel-copytrade/scripts/gen_part11_rls.py:103-115 | a setting that reads as a tenant shows exactly the rows of that tenant, in order |
| `RlsSessions.InsertUnderSetting` | whitelabel-copytrade/scripts/gen_part11_rls.py:109-115 | an INSERT under it appends its rows if all are of the tenant, and is refused if one is not |
| `RlsSessions.UpdateUnderSetting` | whitelabel-copytrade/scripts/gen_part11_rls.py:109-115 | an UPDATE changes exactly the rows of the tenant that it selects, or is refused if it would give one away |
| `RlsSessions.DeleteUnderSetting` | whitelabel-copytrade/scripts/gen_part11_rls.py:109-115 | a DELETE removes exactly the rows of the tenant that it selects |
| `RlsSessions.RefusedWithoutTenant` | whitelabel-copytrade/scripts/gen_part11_rls.py:103-115 | a malformed setting refuses every statement; an unset or empty one refuses an INSERT exactly if it inserts a row |
| `RlsSessions.ConfinedIff` | whitelabel-copytrade/scripts/gen_part11_rls.py:155-160 | a role can never change what another tenant sees, if and only if row security is enabled, the role is no superuser and bypasses nothing, and it is forced on the owner |
| `RlsSessions.SessionsDoNotInterfere` | whitelabel-copytrade/scripts/gen_part11_rls.py:99-115 | over every run of calls that carry their settings, a tenant sees at the end its own rows as they would be had only the calls whose setting names it been made |
| `RlsScripts.ParseTenantTables` | whitelabel-copytrade/scripts/gen_part11_rls.py:60-81 | the loop returns the two sorted lists, or refuses a tenant column that is not a uuid |
| `RlsScripts.Generate` | whitelabel-copytrade/scripts/gen_part11_rls.py:252-255 | the lists are used, or the run is refused when fewer than 20 models are covered |
| `RlsScripts.GeneratesIff` | whitelabel-copytrade/scripts/gen_part11_rls.py:60-81 | files are written exactly if no mapped model has a required tenant of another type and at least twenty models are covered |
| `RlsScripts.ListsAreSorted` | whitelabel-copytrade/scripts/gen_part11_rls.py:80-81 | both lists are sorted and hold a pair once for each model that gives it |
| `RlsScripts.ListedExactly` | whitelabel-copytrade/scripts/gen_part11_rls.py:60-81 | covered are exactly the mapped models with a required uuid tenant, excluded exactly those with an optional one |
| `RlsScripts.OutputIgnoresModelOrder` | whitelabel-copytrade/scripts/gen_part11_rls.py:60-81 | the lists do not depend on the order of the models in the schema |
| `RlsScripts.EnableSetsOn` | whitelabel-copytrade/scripts/gen_part11_rls.py:140-145 | from every catalog the enable script ends with the covered tables enabled and forced and all others as they were |
| `RlsScripts.DisableSetsOff` | whitelabel-copytrade/scripts/gen_part11_rls.py:185-190 | from every catalog the disable script ends with the covered tables off and all others as they were |
| `RlsScripts.InverseFromAnyInterruption` | whitelabel-copytrade/scripts/gen_part11_rls.py:140-190 | after any prefix of the enable script the disable script gives what it gives from the start, which is the start itself if covered tables were off |
| `RlsScripts.ReenableFromAnyInterruption` | whitelabel-copytrade/scripts/gen_part11_rls.py:140-190 | after any prefix of the disable script the enable script gives what it gives from the start |
| `RlsScripts.ScriptsAreIdempotent` | whitelabel-copytrade/scripts/gen_part11_rls.py:140-190 | both scripts are idempotent |
| `RlsScripts.EnableStaysSound` | whitelabel-copytrade/scripts/gen_part11_rls.py:140-145 | every intermediate state of the enable script keeps forced tables enabled |
| `RlsScripts.DisableStaysSound` | whitelabel-copytrade/scripts/gen_part11_rls.py:185-190 | every intermediate state of the disable script does too |
| `RlsScripts.ExcludedNeverChange` | whitelabel-copytrade/scripts/gen_part11_rls.py:180-190 | tables outside the covered list are the same at every point of both scripts |
| `RlsScripts.EnabledTablesAreIsolated` | whitelabel-copytrade/scripts/gen_part11_rls.py:140-160 | after the enable script tenants do not interfere on any covered table, the table owner included |
| `RlsGate.RunGate` | whitelabel-copytrade/ops/production/rls-gate.service.ts:56-154 | the loop with its three lists decides as the specification `Validate` |
| `RlsGate.ReportedModels` | whitelabel-copytrade/ops/production/rls-gate.service.ts:105-154 | which protected models are reported covered, uncovered and missing with which table, whether the gate passes, fails or misses its artefacts |
| `RlsGate.DeclarationCounts` | whitelabel-copytrade/ops/production/rls-gate.service.ts:106 | a model is taken for declared if the scan finds it, and if its declaration stands anywhere in the text |
| `RlsGate.LongerNameDeclares` | whitelabel-copytrade/ops/production/rls-gate.service.ts:106 | so the declaration of a longer name declares every protected model whose name begins it, and without a policy for that model the gate fails closed |
| `RlsGate.SplitWordsMeaning` | whitelabel-copytrade/ops/production/rls-gate.service.ts:199-203 | the table name puts an underscore at every step from a lower-case to an upper-case letter and nowhere else |
| `RlsGate.TableNameIsLower` | whitelabel-copytrade/ops/production/rls-gate.service.ts:199-203 | and has no upper-case letter left |
| `RlsGate.RoundsToHundred` | whitelabel-copytrade/ops/production/rls-gate.service.ts:126 | a share rounds to 100 per cent exactly when at most one in 200 is missing |
| `RlsGate.PercentHidesFailure` | whitelabel-copytrade/ops/production/rls-gate.service.ts:105-154 | for any protected list, the percentage reads 100 while the gate fails closed exactly when something, but at most one in 200, is uncovered |
| `RlsGate.ReadinessAgreesWithGate` | whitelabel-copytrade/ops/production/production-readiness.service.ts:93-98 | for the program's 28 protected models, complete coverage, a rounded 100 and a passed readiness check are the same |
| `RlsGate.ProtectedModels` | whitelabel-copytrade/ops/production/rls-gate.service.ts:25-54 | the program protects 28 models |
| `RlsGate.PassesIffCovered` | whitelabel-copytrade/ops/production/rls-gate.service.ts:105-154 | the gate lets a deployment through exactly when its inputs are there and every protected model of the schema has a policy |
| `RlsGate.GateOnGeneratedCoverage` | whitelabel-copytrade/ops/production/rls-gate.service.ts:161-172 | for any protected list, on the generator's own coverage file the gate passes exactly when every protected model of the schema is covered or shares a table name with a covered one |
| `RlsGate.ExcludedProtectedModelBlocks` | whitelabel-copytrade/ops/production/rls-gate.service.ts:25-54 | a protected model that the generator excludes makes the gate fail closed on the generator's own coverage |
| `RlsGate.GateFailsOnAuditLog` | whitelabel-copytrade/apps/api/prisma/rls/rls_coverage.json:180-204 | every schema with at least 20 covered tables and the audit log mapped to `audit_logs` with an optional tenant: the generator writes a coverage file, and the gate fails closed on it because of `AuditLog`, unless another model has the table name the gate expects |
| `RlsGate.GateFailsOnWrittenFile` | whitelabel-copytrade/scripts/gen_part11_rls.py:252-272 | for 20 ordinary tenant tables and the audit log the generator writes a file, and the gate blocks the deployment on it |
| `HandoverDocument.HeadingRoundTrip` | whitelabel-copytrade/scripts/gen_part22_handover.py:436-439 | a file heading gives its path back, whatever the path contains |
| `HandoverDocument.BlockYields` | whitelabel-copytrade/scripts/gen_part22_handover.py:390-439 | from any point outside a fence, a block whose body has no closing line reads as its path and normalised text |
| `HandoverDocument.BlockSpoils` | whitelabel-copytrade/scripts/gen_part22_handover.py:390-439 | a block whose body closes its fence reads differently from any such point |
| `HandoverDocument.NoRunOfFourIsSafe` | whitelabel-copytrade/scripts/gen_part22_handover.py:390-392 | a text without four backticks in a row never closes its own fence |
| `HandoverDocument.DocumentRoundTrip` | whitelabel-copytrade/scripts/gen_part22_handover.py:1075-1080 | under prose that opens no fence, a reader by section 4.5 of the CommonMark Spec recovers every path and normalised text in order, exactly when no body closes its own fence |
| `HandoverLayout.DocumentLayout` | whitelabel-copytrade/scripts/gen_part22_handover.py:1075-1080 | the lines of the document: those of the prose, the title of the created files and their blocks, the title of the modified files and theirs |
| `HandoverLayout.BodyIsText` | whitelabel-copytrade/scripts/gen_part22_handover.py:390-413 | a body is its text without the newlines at its end |
| `HandoverLayout.FenceOf` | whitelabel-copytrade/scripts/gen_part22_handover.py:390-413 | four backticks and `text` exactly for a text that holds three, and else three and the language of the path |
| `HandoverLayout.LanguageBySuffix` | whitelabel-copytrade/scripts/gen_part22_handover.py:393-412 | the language is that of a listed extension which the path ends in; with none, `dotenv` for the example environment, `yaml` for a Dockerfile and nothing else |
| `HandoverLayout.ProgramLanguage` | whitelabel-copytrade/scripts/gen_part22_handover.py:394-400 | which languages the six program and data extensions give |
| `HandoverLayout.TextLanguage` | whitelabel-copytrade/scripts/gen_part22_handover.py:401-406 | and the six of configuration and text files |
| `HandoverLayout.CountOfLines` | whitelabel-copytrade/scripts/gen_part22_handover.py:436-439 | where newlines are the only line breaks, the count in a heading is that of the lines, an empty last one aside |
| `HandoverIndex.Baselines` | whitelabel-copytrade/scripts/gen_part22_handover.py:420-433 | the nested loops fill the table in which an earlier entry overrides every later one |
| `HandoverIndex.SetDefaults` | whitelabel-copytrade/scripts/gen_part22_handover.py:431-432 | the inner loop sets defaults for the headings of one document |
| `HandoverIndex.NewestWins` | whitelabel-copytrade/scripts/gen_part22_handover.py:420-433 | however the documents are split, what the newer ones record overrides the older ones |
| `TextLines.LineIsSplitOff` | whitelabel-copytrade/scripts/gen_part22_handover.py:417 | a line is split off at each of the ten line boundaries, and at a carriage return with its line feed as one |
| `TextLines.SpaceCodes` | whitelabel-copytrade/scripts/gen_part22_handover.py:968 | white space and line boundaries by their code points; every line boundary is white space |
| `HandoverIndex.CountIsLines` | whitelabel-copytrade/scripts/gen_part22_handover.py:1094 | counting a newline followed by the mark counts the lines after the first that start with it |
| `HandoverIndex.HeadingIsIndexed` | whitelabel-copytrade/scripts/gen_part22_handover.py:431-439 | a heading is indexed under its path with its count exactly when the path is nonempty, has no space around it and holds no count past its first character |
| `HandoverIndex.EmissionCheck` | whitelabel-copytrade/scripts/gen_part22_handover.py:1093-1097 | the emission check passes exactly when no embedded text has a line that looks like a file heading |
| `HandoverIndex.IndexRoundTrip` | whitelabel-copytrade/scripts/gen_part22_handover.py:420-439 | a document that passes the check, with distinct indexable paths, records exactly its printed line counts, in front of what any older documents record |
| `TextWrap.WrappedWords` | whitelabel-copytrade/scripts/gen_part22_handover.py:976-983 | wrapping keeps the word sequence behind one bullet |
| `TextWrap.WrappedWidth` | whitelabel-copytrade/scripts/gen_part22_handover.py:976-983 | no wrapped line is wider than 92 columns unless it holds a single token longer than 90 |
| `TextWrap.TabStops` | whitelabel-copytrade/scripts/gen_part22_handover.py:976-983 | a tab is expanded to the next multiple of eight columns |
| `TextRewrap.WrapIsGreedy` | whitelabel-copytrade/scripts/gen_part22_handover.py:976-983 | single-spaced words wrap greedily: every line fits or is one word, and the next word would not have fitted |
| `WrapAgain.WrappedLinesFlatten` | whitelabel-copytrade/scripts/gen_part22_handover.py:968-983 | stripping wrapped lines without white space at their edges and joining them with spaces gives the text back with each gap at a line break made one space |
| `WrapLoss.ComingBackIsTidy` | whitelabel-copytrade/scripts/gen_part22_handover.py:968-983 | lines that wrap to themselves again have no white space at their edges: what stripping takes from an edge, wrapping never brings back |
| `WrapLoss.WrappingAgain` | whitelabel-copytrade/scripts/gen_part22_handover.py:968-983 | for every text with a word, wrapping what the lines flatten to gives the same lines if and only if no line starts or ends in white space and none had room for a space and the first token of the next |
| `HeaderReflow.ReflowHeader` | whitelabel-copytrade/scripts/gen_part22_handover.py:944-985 | the loop over the chunks computes the specification the lemmas are about; `HeaderOutline` says what that keeps, without chunks |
| `HeaderReflow.ChunksTile` | whitelabel-copytrade/scripts/gen_part22_handover.py:963 | the split loses nothing and cuts exactly in front of the markers at line starts, which `HeaderOutline.OutlineSurvives` states of the lines |
| `HeaderOutline.OutlineSurvives` | whitelabel-copytrade/scripts/gen_part22_handover.py:957-985 | for every text: the lines that are headings of level two or three come out as they are, in order, among as many lines that start as bullets, each in its place |
| `HeaderOutline.HeadingSectionIsKept` | whitelabel-copytrade/scripts/gen_part22_handover.py:957-966 | wherever it stands, the text from a heading up to the next heading or bullet comes out unchanged between what stands before and after it |
| `HeaderOutline.ReflowOfSections` | whitelabel-copytrade/scripts/gen_part22_handover.py:963-985 | a text cut in front of any heading or bullet line is re-flowed in the two pieces |
| `HeaderOutline.BulletSectionIsRewrapped` | whitelabel-copytrade/scripts/gen_part22_handover.py:967-984 | the text from a bullet up to the next section comes out as that bullet re-wrapped, followed by a blank line exactly if it was |
| `HeaderOutline.BulletSectionIsIndented` | whitelabel-copytrade/scripts/gen_part22_handover.py:976-984 | its first line keeps the marker and every other line that is not blank is indented by two spaces |
| `HeaderReflow.ReflowedChunks` | whitelabel-copytrade/scripts/gen_part22_handover.py:963-985 | the chunks of the result are the processed chunks; chunks that are no bullet are unchanged |
| `HeaderReflow.BulletWords` | whitelabel-copytrade/scripts/gen_part22_handover.py:964-984 | a re-wrapped bullet keeps its words; a bare one gets its marker doubled |
| `HeaderReflow.WordsSurvive` | whitelabel-copytrade/scripts/gen_part22_handover.py:944-985 | re-flowing keeps the exact word sequence of a text if and only if no bullet is bare |
| `HeaderReflow.BareBulletIsDoubled` | whitelabel-copytrade/scripts/gen_part22_handover.py:968-984 | the text `* ` and a newline shows that a bare bullet is doubled |
| `HeaderReflow.BulletIsNarrow` | whitelabel-copytrade/scripts/gen_part22_handover.py:976-984 | every line of a re-wrapped bullet is at most 92 columns wide or holds one longer token |
| `ReflowAgain.RewrappingIsStableIff` | whitelabel-copytrade/scripts/gen_part22_handover.py:964-984 | re-wrapping any bullet again changes nothing if and only if every line of the first pass had no white space at its edges and no room for the first token of the next |
| `ReflowAgain.ReflowIsIdempotentIff` | whitelabel-copytrade/scripts/gen_part22_handover.py:944-985 | for every text, re-flowing it again changes nothing if and only if that holds of every bullet |
| `ReflowAgain.UsualSpaceIsTidy` | whitelabel-copytrade/scripts/gen_part22_handover.py:968-983 | in a bullet whose only white space is what wrapping or line splitting cuts at, such as spaces, tabs and newlines, no line has white space at its edges, so room for the next token alone decides |
| `ReflowAgain.ReflowIsIdempotent` | whitelabel-copytrade/scripts/gen_part22_handover.py:944-985 | in particular re-flowing is idempotent on texts with single-spaced bullets |
| `ReflowAgain.GapDecides` | whitelabel-copytrade/scripts/gen_part22_handover.py:944-985 | a two-word bullet that breaks at the gap between its words is re-flowed differently the second time exactly when both words fit on one line with a single space |
| `ReflowAgain.ReflowIsNotIdempotent` | whitelabel-copytrade/scripts/gen_part22_handover.py:944-985 | a bullet of 44 letters, two spaces and 45 letters comes out differently the second time |
| `HandoverAssembly.Assemble` | whitelabel-copytrade/scripts/gen_part22_handover.py:1075-1097 | the pushed parts, joined and counted: the document the theorems are about, and the outcome of the emission check |
| `HandoverAssembly.ReflowKeepsFenceFree` | whitelabel-copytrade/scripts/gen_part22_handover.py:1075 | re-flowing brings no fence to a line start if no word of the header starts one |
| `HandoverAssembly.ReflowKeepsHeadings` | whitelabel-copytrade/scripts/gen_part22_handover.py:1075 | re-flowing keeps the sequence of lines that look like a file heading, each as it was and in the same order |
| `HandoverAssembly.AssembledRoundTrip` | whitelabel-copytrade/scripts/gen_part22_handover.py:1075-1097 | for the document as assembled, under any header that opens no fence once re-flowed: it reads back exactly when no body closes its own fence, and passes the emission check exactly when no text holds a heading-like line |
| `HandoverAssembly.FenceFreeRoundTrip` | whitelabel-copytrade/scripts/gen_part22_handover.py:1075-1097 | the same from a condition on the header as written: none of its words starts a fence |
| `HandoverAssembly.AssembledIsIndexed` | whitelabel-copytrade/scripts/gen_part22_handover.py:420-439 | an assembled document that passes the emission check, with distinct indexable paths, is indexed with exactly its printed line counts, in front of what older documents record |

## Left out

- `DeploymentPlan.SameRequestSamePlan`: the hash behind the deployment identifier is any function.
- `ReleaseManifest.ManifestIdentity`: takes the hash as any collision-free function.
- `ReleaseManifest.ReleaseIdsAgreeIff`: that the truncated hash tells texts apart is a condition on the hash, as it is in `DeploymentPlan.DeploymentIdsAgreeIff`.
- `RlsScripts.ParseTenantTables`: takes the models already matched in the schema text, and the order on pairs as any total order.
- `MigrationGate.DetectDestructiveOperations`: the matches of a pattern in a SQL text, with the table name and the shortened text of each, are given by a function parameter.
- `RlsGate.RunGate`: the scan for models that mention a tenant column is a function parameter, and `modelToTable` is modelled for ASCII names.
- `Evidence.RedactEvidence`: lower-casing is a function parameter, and evidence is a finite tree; a cyclic object, on which the code does not return, is not a value of the model.
- `AuditLog.DeploymentAuditService.Record`: the audit id is an input.
- `AuditedCalls.Execute`: failure texts and evidence are given by functions of the outcome, and recording FAILED, whose evidence is empty, is not rejected.
- Rejected recordings of a rollback, a recovery or a backup verification: those calls record without a handler, so the call would reject there.
- `AuditedCalls.RollbackEventIsFiled`: a moment read just before a recording and the moment of the recording are one clock reading, here and in executions and backup verifications.
- `AuditedCalls.ExecuteRecovery`: the recovery sequence is an input; the code always returns seven completed steps.
- `Preflight.Run`: critical failures and warnings are listed by check name, without their error texts; the environment validator's verdict and an exception inside a gate are not modelled.
- `HandoverDocument.DocumentRoundTrip`: the reader knows fenced code blocks, indentation and file headings; block quotes, lists and HTML blocks that could enclose a fence are not part of this model, and lines end with a newline only.
- `HandoverIndex.Baselines`: whether a document exists is an input; digits are those of version 14.0 of the Unicode Standard.
- Files, directories, environment variables, clocks and the network: contents, presence and times are inputs.
- Floating-point error in rounded measures: quotients are exact.
- SQL beyond row filtering: unique and foreign-key constraints, through which a tenant can learn of rows it does not see, and the text of the generated scripts around their ALTER statements.
- ROLLED_BACK as a machine step: no edge of either table enters it, so a run never meets it.
- Counts of failed recovery steps: the code compares the step's name, not its status, with FAILED, and the model follows it without saying more.
- Artifact integrity, image security, SBOM, vulnerability and security gates, deployment and restore verification, backup creation and maintenance integration: they return canned evidence or would add only branch lemmas.
- The handover generators of earlier parts, the prose, the line-count deltas, the sweep for elisions and the measuring of gates.
