/** Executions, rollbacks, recoveries and backup verifications over one shared audit log. Each call
    is cut at its awaits into segments; an interleaving is any order of running segments. */
module Operations {
  import opened CodeUnits
  import opened Environments
  import opened AuditLog

  // ----- Calls

  datatype ExecutionInput = ExecutionInput(
    environment: Environment, migrationGateValid: bool, rlsGateValid: bool,
    securityGatePassed: bool, artifactVerified: bool, backupVerified: bool, approved: bool)

  datatype Refusal =
    | Allowed | MigrationGateFailed | RlsGateFailed | SecurityGateFailed
    | ArtifactIntegrityFailed | BackupRequired

  function CheckPolicyGates(input: ExecutionInput): Refusal {
    if !input.migrationGateValid then MigrationGateFailed
    else if !input.rlsGateValid then RlsGateFailed
    else if !input.securityGatePassed then SecurityGateFailed
    else if !input.artifactVerified then ArtifactIntegrityFailed
    else if input.environment == Production && !input.backupVerified then BackupRequired
    else Allowed
  }

  /** A refusal names the first gate that an input fails. */
  lemma RefusalMeaning(input: ExecutionInput)
    ensures var refusal := CheckPolicyGates(input);
      var backedUp := input.environment == Production ==> input.backupVerified;
      && (refusal == MigrationGateFailed <==> !input.migrationGateValid)
      && (refusal == RlsGateFailed <==> input.migrationGateValid && !input.rlsGateValid)
      && (refusal == SecurityGateFailed <==>
            input.migrationGateValid && input.rlsGateValid && !input.securityGatePassed)
      && (refusal == ArtifactIntegrityFailed <==>
            input.migrationGateValid && input.rlsGateValid && input.securityGatePassed && !input.artifactVerified)
      && (refusal == BackupRequired <==>
            input.migrationGateValid && input.rlsGateValid && input.securityGatePassed && input.artifactVerified
            && !backedUp)
  {
  }

  /** What no deployment may bypass. */
  ghost predicate Cleared(input: ExecutionInput) {
    && input.migrationGateValid && input.rlsGateValid
    && input.securityGatePassed && input.artifactVerified
    && (input.environment == Production ==> input.backupVerified)
    && (RequiresApproval(input.environment) ==> input.approved)
  }

  /** What a recovery sequence has brought back. */
  datatype Parts = Parts(database: bool, redis: bool, queue: bool, objectStorage: bool,
                         dependencyFailed: bool)

  function RecoveryStatus(parts: Parts): Outcome {
    if !(parts.database && parts.redis && parts.queue) then Failed
    else if parts.dependencyFailed then Partial
    else if parts.objectStorage then Verified
    else Recovered
  }

  /** Each status of a recovery, by the parts that are back. */
  lemma RecoveryStatusMeaning(parts: Parts)
    ensures var healthy := parts.database && parts.redis && parts.queue;
      && (RecoveryStatus(parts) == Failed <==> !healthy)
      && (RecoveryStatus(parts) == Partial <==> healthy && parts.dependencyFailed)
      && (RecoveryStatus(parts) == Verified <==> healthy && !parts.dependencyFailed && parts.objectStorage)
      && (RecoveryStatus(parts) == Recovered <==> healthy && !parts.dependencyFailed && !parts.objectStorage)
  {
  }

  /** What can go wrong in an execution: its first recording is rejected, the deployment mechanism
      throws, or the recording of its success is rejected. Recording a failure carries no evidence
      that could be refused. */
  datatype Fault = NoFault | OpeningRejected | MechanismThrows | ClosingRejected

  datatype Operation =
    | Execution(input: ExecutionInput, fault: Fault)
    | RollbackTo(artifactVerified: bool, schemaCompatible: bool)
    | Recovery(parts: Parts)
    | Verification(present: bool, readable: bool, checksumValid: bool, recentEnough: bool)

  predicate MeetsPolicy(operation: Operation)
    requires operation.Verification?
  {
    operation.present && operation.readable && operation.checksumValid && operation.recentEnough
  }

  datatype Call = Call(operation: Operation, correlationId: JsString)

  function ActionOf(operation: Operation): Action {
    match operation
    case Execution(_, _) => DeploymentExecution
    case RollbackTo(_, _) => Rollback
    case Recovery(_) => DisasterRecovery
    case Verification(_, _, _, _) => BackupVerification
  }

  // ----- Segments

  /** What one segment adds to the log. */
  datatype Emission = Silent | Emit(result: Outcome)

  /** The segments of a call, each ending at an await or at the return. Recording has no await of
      its own, so an event is in the log before the recording caller is suspended. */
  function Segments(operation: Operation): seq<Emission> {
    match operation
    case Execution(input, fault) =>
      if fault == OpeningRejected then [Silent, Silent]
      else if CheckPolicyGates(input) != Allowed then [Emit(Blocked), Silent]
      else if !input.approved && RequiresApproval(input.environment) then
        [Emit(BlockedMissingApproval), Silent]
      else if fault == ClosingRejected then [Emit(Started), Silent, Silent, Emit(Failed), Silent]
      else [Emit(Started), Silent, Emit(if fault == NoFault then Executed else Failed), Silent]
    case RollbackTo(artifactVerified, schemaCompatible) =>
      if !artifactVerified then [Emit(Started), Emit(BlockedUnverifiedArtifact), Silent]
      else if !schemaCompatible then [Emit(Started), Emit(BlockedIncompatibleSchema), Silent]
      else [Emit(Started), Emit(Completed), Silent]
    case Recovery(parts) =>
      [Emit(Started), Silent, Emit(RecoveryStatus(parts)), Silent]
    case Verification(present, _, _, _) =>
      var result := Emit(if MeetsPolicy(operation) then Verified else VerificationFailed);
      if present then [Silent, Silent, Silent, result, Silent] else [Silent, result, Silent]
  }

  function Emissions(segments: seq<Emission>): seq<Outcome> {
    if segments == [] then []
    else Emissions(segments[..|segments| - 1]) + Written(segments[|segments| - 1])
  }

  function Written(emission: Emission): seq<Outcome> {
    if emission.Emit? then [emission.result] else []
  }

  // ----- Interleavings

  datatype Running = Running(call: Call, pc: nat)
  datatype Entry = Entry(caller: nat, action: Action, result: Outcome, correlationId: JsString)
  datatype State = State(calls: seq<Running>, log: seq<Entry>)
  datatype Step = Begin(call: Call) | Resume(caller: nat)

  const IDLE: State := State([], [])

  predicate Enabled(state: State, step: Step) {
    step.Resume? ==>
      step.caller < |state.calls| &&
      state.calls[step.caller].pc < |Segments(state.calls[step.caller].call.operation)|
  }

  /** Running the next segment of a call. */
  function Advance(state: State, caller: nat): State
    requires caller < |state.calls|
    requires state.calls[caller].pc < |Segments(state.calls[caller].call.operation)|
  {
    var running := state.calls[caller];
    var emission := Segments(running.call.operation)[running.pc];
    State(state.calls[caller := running.(pc := running.pc + 1)],
          state.log + EntriesOf(caller, running.call, emission))
  }

  function EntriesOf(caller: nat, call: Call, emission: Emission): seq<Entry> {
    if emission.Silent? then []
    else [Entry(caller, ActionOf(call.operation), emission.result, call.correlationId)]
  }

  /** A step that is not enabled changes nothing. */
  function Apply(state: State, step: Step): State {
    if !Enabled(state, step) then state
    else match step
      case Begin(call) => Advance(State(state.calls + [Running(call, 0)], state.log), |state.calls|)
      case Resume(caller) => Advance(state, caller)
  }

  function Run(state: State, steps: seq<Step>): State
    decreases |steps|
  {
    if steps == [] then state else Run(Apply(state, steps[0]), steps[1..])
  }

  /** What one caller wrote, in order. */
  function Trace(log: seq<Entry>, caller: nat): seq<Outcome> {
    if log == [] then []
    else
      var last := log[|log| - 1];
      Trace(log[..|log| - 1], caller) + (if last.caller == caller then [last.result] else [])
  }

  // ----- The log of every interleaving

  ghost predicate Labelled(state: State, entry: Entry) {
    && entry.caller < |state.calls|
    && entry.action == ActionOf(state.calls[entry.caller].call.operation)
    && entry.correlationId == state.calls[entry.caller].call.correlationId
  }

  ghost predicate OnTrack(state: State, caller: nat)
    requires caller < |state.calls|
  {
    var segments := Segments(state.calls[caller].call.operation);
    state.calls[caller].pc <= |segments|
    && Trace(state.log, caller) == Emissions(segments[..state.calls[caller].pc])
  }

  /** Every entry belongs to a call, and every call has written what its segments so far write. */
  ghost predicate Consistent(state: State) {
    && (forall entry | entry in state.log :: Labelled(state, entry))
    && (forall caller | 0 <= caller < |state.calls| :: OnTrack(state, caller))
  }

  lemma {:induction false} TraceOfStranger(log: seq<Entry>, caller: nat)
    requires forall entry | entry in log :: entry.caller != caller
    ensures Trace(log, caller) == []
  {
    if log != [] {
      TraceOfStranger(log[..|log| - 1], caller);
    }
  }

  lemma TraceOfExtension(log: seq<Entry>, entry: Entry, caller: nat)
    ensures Trace(log + [entry], caller)
         == Trace(log, caller) + (if entry.caller == caller then [entry.result] else [])
  {
    assert (log + [entry])[..|log|] == log;
  }

  lemma EmissionsOfNext(segments: seq<Emission>, pc: nat)
    requires pc < |segments|
    ensures Emissions(segments[..pc + 1]) == Emissions(segments[..pc]) + Written(segments[pc])
  {
    assert segments[..pc + 1][..pc] == segments[..pc];
  }

  lemma TraceOfEntries(log: seq<Entry>, caller: nat, call: Call, emission: Emission, other: nat)
    ensures Trace(log + EntriesOf(caller, call, emission), other)
         == Trace(log, other) + (if other == caller then Written(emission) else [])
  {
    if emission.Emit? {
      TraceOfExtension(log, EntriesOf(caller, call, emission)[0], other);
    } else {
      assert log + [] == log;
    }
  }

  lemma AdvanceKeepsTrack(state: State, caller: nat, other: nat)
    requires caller < |state.calls| && other < |state.calls| && OnTrack(state, other)
    requires state.calls[caller].pc < |Segments(state.calls[caller].call.operation)|
    ensures OnTrack(Advance(state, caller), other)
  {
    var running := state.calls[caller];
    var segments := Segments(running.call.operation);
    TraceOfEntries(state.log, caller, running.call, segments[running.pc], other);
    if other == caller {
      EmissionsOfNext(segments, running.pc);
    }
  }

  lemma AdvanceKeepsConsistent(state: State, caller: nat)
    requires Consistent(state) && caller < |state.calls|
    requires state.calls[caller].pc < |Segments(state.calls[caller].call.operation)|
    ensures Consistent(Advance(state, caller))
  {
    var after := Advance(state, caller);
    forall other | 0 <= other < |after.calls|
      ensures OnTrack(after, other)
    {
      AdvanceKeepsTrack(state, caller, other);
    }
    forall entry | entry in after.log
      ensures Labelled(after, entry)
    {
      assert entry in state.log ==> Labelled(state, entry);
    }
  }

  lemma ApplyKeepsConsistent(state: State, step: Step)
    requires Consistent(state)
    ensures Consistent(Apply(state, step))
  {
    if Enabled(state, step) {
      if step.Begin? {
        var begun := State(state.calls + [Running(step.call, 0)], state.log);
        forall caller | 0 <= caller < |begun.calls|
          ensures OnTrack(begun, caller)
        {
          if caller < |state.calls| {
            assert OnTrack(state, caller);
          } else {
            TraceOfStranger(state.log, caller);
          }
        }
        AdvanceKeepsConsistent(begun, |state.calls|);
      } else {
        AdvanceKeepsConsistent(state, step.caller);
      }
    }
  }

  lemma {:induction false} RunKeepsConsistent(state: State, steps: seq<Step>)
    requires Consistent(state)
    ensures Consistent(Run(state, steps))
    decreases |steps|
  {
    if steps != [] {
      ApplyKeepsConsistent(state, steps[0]);
      RunKeepsConsistent(Apply(state, steps[0]), steps[1..]);
    }
  }

  /** The log only grows. */
  lemma {:induction false} LogOnlyGrows(state: State, steps: seq<Step>)
    ensures state.log <= Run(state, steps).log
    decreases |steps|
  {
    if steps != [] {
      LogOnlyGrows(Apply(state, steps[0]), steps[1..]);
    }
  }

  // ----- No execution bypasses a gate

  lemma {:induction false} TraceContains(log: seq<Entry>, entry: Entry)
    requires entry in log
    ensures entry.result in Trace(log, entry.caller)
  {
    if log[|log| - 1] != entry {
      TraceContains(log[..|log| - 1], entry);
    }
  }

  lemma EmissionsOfPrefix(operation: Operation, pc: nat)
    requires pc <= |Segments(operation)|
    ensures Emissions(Segments(operation)[..pc]) <= Emissions(Segments(operation))
  {
    PrefixEmits(Segments(operation), pc);
  }

  lemma {:induction false} PrefixEmits(segments: seq<Emission>, pc: nat)
    requires pc <= |segments|
    ensures Emissions(segments[..pc]) <= Emissions(segments)
  {
    if pc == |segments| {
      assert segments[..pc] == segments;
    } else {
      PrefixEmits(segments[..|segments| - 1], pc);
      assert segments[..|segments| - 1][..pc] == segments[..pc];
    }
  }

  /** All that a call can ever write. */
  function Script(operation: Operation): seq<Outcome> {
    match operation
    case Execution(input, fault) =>
      if fault == OpeningRejected then []
      else if CheckPolicyGates(input) != Allowed then [Blocked]
      else if !input.approved && RequiresApproval(input.environment) then [BlockedMissingApproval]
      else [Started, if fault == NoFault then Executed else Failed]
    case RollbackTo(artifactVerified, schemaCompatible) =>
      [Started,
       if !artifactVerified then BlockedUnverifiedArtifact
       else if !schemaCompatible then BlockedIncompatibleSchema else Completed]
    case Recovery(parts) => [Started, RecoveryStatus(parts)]
    case Verification(_, _, _, _) => [if MeetsPolicy(operation) then Verified else VerificationFailed]
  }

  lemma EmissionsOfExtension(segments: seq<Emission>, emission: Emission)
    ensures Emissions(segments + [emission]) == Emissions(segments) + Written(emission)
  {
    assert (segments + [emission])[..|segments|] == segments;
  }

  lemma EmissionsOfThree(a: Emission, b: Emission, c: Emission)
    ensures Emissions([a, b]) == Written(a) + Written(b)
    ensures Emissions([a, b, c]) == Written(a) + Written(b) + Written(c)
  {
    EmissionsOfExtension([], a);
    EmissionsOfExtension([a], b);
    EmissionsOfExtension([a, b], c);
    assert [a, b, c] == [a, b] + [c] && [a, b] == [a] + [b] && [a] == [] + [a];
  }

  lemma EmissionsOfFive(a: Emission, b: Emission, c: Emission, d: Emission, e: Emission)
    ensures Emissions([a, b, c, d]) == Written(a) + Written(b) + Written(c) + Written(d)
    ensures Emissions([a, b, c, d, e]) == Written(a) + Written(b) + Written(c) + Written(d) + Written(e)
  {
    EmissionsOfThree(a, b, c);
    EmissionsOfExtension([a, b, c], d);
    EmissionsOfExtension([a, b, c, d], e);
    assert [a, b, c, d] == [a, b, c] + [d] && [a, b, c, d, e] == [a, b, c, d] + [e];
  }

  lemma ExecutionWritesScript(operation: Operation)
    requires operation.Execution?
    ensures Emissions(Segments(operation)) == Script(operation)
  {
    var input, fault := operation.input, operation.fault;
    if fault == OpeningRejected {
      EmissionsOfThree(Silent, Silent, Silent);
    } else if CheckPolicyGates(input) != Allowed {
      EmissionsOfThree(Emit(Blocked), Silent, Silent);
    } else if !input.approved && RequiresApproval(input.environment) {
      EmissionsOfThree(Emit(BlockedMissingApproval), Silent, Silent);
    } else if fault == ClosingRejected {
      EmissionsOfFive(Emit(Started), Silent, Silent, Emit(Failed), Silent);
    } else {
      EmissionsOfFive(Emit(Started), Silent, Emit(if fault == NoFault then Executed else Failed), Silent, Silent);
    }
  }

  lemma RollbackWritesScript(operation: Operation)
    requires operation.RollbackTo?
    ensures Emissions(Segments(operation)) == Script(operation)
  {
    var s := Segments(operation);
    EmissionsOfThree(s[0], s[1], s[2]);
    assert s == [s[0], s[1], s[2]];
  }

  lemma RecoveryWritesScript(operation: Operation)
    requires operation.Recovery?
    ensures Emissions(Segments(operation)) == Script(operation)
  {
    var s := Segments(operation);
    EmissionsOfFive(s[0], s[1], s[2], s[3], Silent);
    assert s == [s[0], s[1], s[2], s[3]];
  }

  lemma VerificationWritesScript(operation: Operation)
    requires operation.Verification?
    ensures Emissions(Segments(operation)) == Script(operation)
  {
    var s := Segments(operation);
    if operation.present {
      EmissionsOfFive(s[0], s[1], s[2], s[3], s[4]);
      assert s == [s[0], s[1], s[2], s[3], s[4]];
    } else {
      EmissionsOfThree(s[0], s[1], s[2]);
      assert s == [s[0], s[1], s[2]];
    }
  }

  lemma SegmentsWriteScript(operation: Operation)
    ensures Emissions(Segments(operation)) == Script(operation)
  {
    if operation.Execution? {
      ExecutionWritesScript(operation);
    } else if operation.RollbackTo? {
      RollbackWritesScript(operation);
    } else if operation.Recovery? {
      RecoveryWritesScript(operation);
    } else {
      VerificationWritesScript(operation);
    }
  }

  /** In every interleaving, what a call has written is a beginning of its script. */
  lemma CallsFollowTheirScript(steps: seq<Step>, caller: nat)
    requires caller < |Run(IDLE, steps).calls|
    ensures var state := Run(IDLE, steps);
      Trace(state.log, caller) <= Script(state.calls[caller].call.operation)
  {
    RunKeepsConsistent(IDLE, steps);
    var state := Run(IDLE, steps);
    assert OnTrack(state, caller);
    EmissionsOfPrefix(state.calls[caller].call.operation, state.calls[caller].pc);
    SegmentsWriteScript(state.calls[caller].call.operation);
  }

  /** In every interleaving, each EXECUTED event of a deployment belongs to a call whose input
      passed every gate, was approved where approval is required, and had a verified backup in
      production; that call wrote STARTED before it, and wrote nothing else. */
  lemma ExecutedOnlyWhenCleared(steps: seq<Step>, entry: Entry)
    requires entry in Run(IDLE, steps).log
    requires entry.action == DeploymentExecution && entry.result == Executed
    ensures var state := Run(IDLE, steps);
      && entry.caller < |state.calls|
      && state.calls[entry.caller].call.operation.Execution?
      && Cleared(state.calls[entry.caller].call.operation.input)
      && Trace(state.log, entry.caller) == [Started, Executed]
  {
    RunKeepsConsistent(IDLE, steps);
    var state := Run(IDLE, steps);
    assert Labelled(state, entry);
    CallsFollowTheirScript(steps, entry.caller);
    TraceContains(state.log, entry);
    var script := Script(state.calls[entry.caller].call.operation);
    assert Executed in script;
    assert |script| == 2 && script[1] == Executed;
    var trace := Trace(state.log, entry.caller);
    assert trace == script[..|trace|];
  }

  /** Conversely, a cleared execution without a fault is the only kind that can write EXECUTED. */
  lemma ScriptExecutesIffCleared(input: ExecutionInput, fault: Fault)
    ensures Executed in Script(Execution(input, fault)) <==> Cleared(input) && fault == NoFault
    ensures Started in Script(Execution(input, fault)) <==> Cleared(input) && fault != OpeningRejected
  {
  }

  // ----- Conservation

  predicate Terminal(action: Action, result: Outcome) {
    match action
    case DeploymentExecution => result == Executed || result == Failed
    case Rollback => result != Started
    case DisasterRecovery => result != Started
    case BackupVerification => false
  }

  /** +1 for an event that opens an operation, -1 for one that closes it. */
  function Weight(action: Action, result: Outcome): int {
    if result == Started then 1 else if Terminal(action, result) then -1 else 0
  }

  /** STARTED events minus terminal events, among the selected correlation ids. */
  function Balance(log: seq<Entry>, select: JsString -> bool): int {
    if log == [] then 0
    else
      var last := log[|log| - 1];
      Balance(log[..|log| - 1], select)
        + (if select(last.correlationId) then Weight(last.action, last.result) else 0)
  }

  /** A call that has written STARTED and no terminal event. */
  predicate InFlight(running: Running) {
    var segments := Segments(running.call.operation);
    running.pc <= |segments|
    && Emit(Started) in segments[..running.pc]
    && forall k | 0 <= k < running.pc ::
         segments[k].Emit? ==> !Terminal(ActionOf(running.call.operation), segments[k].result)
  }

  function CountInFlight(calls: seq<Running>, select: JsString -> bool): nat {
    if calls == [] then 0
    else
      var last := calls[|calls| - 1];
      CountInFlight(calls[..|calls| - 1], select)
        + (if select(last.call.correlationId) && InFlight(last) then 1 else 0)
  }

  function Counts(running: Running, select: JsString -> bool): nat {
    if select(running.call.correlationId) && InFlight(running) then 1 else 0
  }

  lemma CountOfSnoc(calls: seq<Running>, last: Running, select: JsString -> bool)
    ensures CountInFlight(calls + [last], select) == CountInFlight(calls, select) + Counts(last, select)
  {
    assert (calls + [last])[..|calls|] == calls;
  }

  lemma {:induction false} CountAfterUpdate(calls: seq<Running>, i: nat, running: Running,
                                            select: JsString -> bool)
    requires i < |calls|
    ensures CountInFlight(calls[i := running], select)
         == CountInFlight(calls, select) + Counts(running, select) - Counts(calls[i], select)
  {
    var init, last := calls[..|calls| - 1], calls[|calls| - 1];
    assert calls == init + [last];
    CountOfSnoc(init, last, select);
    if i == |calls| - 1 {
      assert calls[i := running] == init + [running];
      CountOfSnoc(init, running, select);
    } else {
      CountAfterUpdate(init, i, running, select);
      assert calls[i := running] == init[i := running] + [last];
      CountOfSnoc(init[i := running], last, select);
    }
  }

  /** A segment opens or closes its call exactly as the event it writes says. */
  lemma SegmentWeight(call: Call, pc: nat)
    requires pc < |Segments(call.operation)|
    ensures (if InFlight(Running(call, pc + 1)) then 1 else 0) - (if InFlight(Running(call, pc)) then 1 else 0)
         == var emission := Segments(call.operation)[pc];
            if emission.Emit? then Weight(ActionOf(call.operation), emission.result) else 0
  {
    var segments := Segments(call.operation);
    assert segments[..pc + 1] == segments[..pc] + [segments[pc]];
    if pc > 0 {
      assert segments[..pc][0] == segments[0];
    }
  }

  lemma BalanceOfEntries(log: seq<Entry>, caller: nat, call: Call, emission: Emission, select: JsString -> bool)
    ensures Balance(log + EntriesOf(caller, call, emission), select)
         == Balance(log, select)
          + if emission.Emit? && select(call.correlationId) then Weight(ActionOf(call.operation), emission.result) else 0
  {
    if emission.Emit? {
      assert (log + EntriesOf(caller, call, emission))[..|log|] == log;
    } else {
      assert log + [] == log;
    }
  }

  lemma AdvanceBalances(state: State, caller: nat, select: JsString -> bool)
    requires caller < |state.calls|
    requires state.calls[caller].pc < |Segments(state.calls[caller].call.operation)|
    ensures var after := Advance(state, caller);
      Balance(after.log, select) - CountInFlight(after.calls, select)
        == Balance(state.log, select) - CountInFlight(state.calls, select)
  {
    var running := state.calls[caller];
    var next := running.(pc := running.pc + 1);
    assert running == Running(running.call, running.pc) && next == Running(running.call, running.pc + 1);
    SegmentWeight(running.call, running.pc);
    CountAfterUpdate(state.calls, caller, next, select);
    BalanceOfEntries(state.log, caller, running.call, Segments(running.call.operation)[running.pc], select);
  }

  lemma NewCallIsNotInFlight(calls: seq<Running>, call: Call, select: JsString -> bool)
    ensures CountInFlight(calls + [Running(call, 0)], select) == CountInFlight(calls, select)
  {
    assert (calls + [Running(call, 0)])[..|calls|] == calls;
    assert Segments(call.operation)[..0] == [];
  }

  lemma ApplyBalances(state: State, step: Step, select: JsString -> bool)
    ensures var after := Apply(state, step);
      Balance(after.log, select) - CountInFlight(after.calls, select)
        == Balance(state.log, select) - CountInFlight(state.calls, select)
  {
    if Enabled(state, step) {
      if step.Begin? {
        BeginBalances(state, step.call, select);
      } else {
        AdvanceBalances(state, step.caller, select);
      }
    }
  }

  lemma BeginBalances(state: State, call: Call, select: JsString -> bool)
    ensures var begun := State(state.calls + [Running(call, 0)], state.log);
      var after := Advance(begun, |state.calls|);
      Balance(after.log, select) - CountInFlight(after.calls, select)
        == Balance(state.log, select) - CountInFlight(state.calls, select)
  {
    NewCallIsNotInFlight(state.calls, call, select);
    AdvanceBalances(State(state.calls + [Running(call, 0)], state.log), |state.calls|, select);
  }

  lemma {:induction false} RunBalances(state: State, steps: seq<Step>, select: JsString -> bool)
    ensures var after := Run(state, steps);
      Balance(after.log, select) - CountInFlight(after.calls, select)
        == Balance(state.log, select) - CountInFlight(state.calls, select)
    decreases |steps|
  {
    if steps != [] {
      ApplyBalances(state, steps[0], select);
      RunBalances(Apply(state, steps[0]), steps[1..], select);
    }
  }

  /** In every interleaving, STARTED events minus terminal events is the number of operations in
      flight: overall, and for each correlation id. */
  lemma StartedMinusTerminalIsInFlight(steps: seq<Step>, correlationId: JsString)
    ensures var state := Run(IDLE, steps);
      && Balance(state.log, _ => true) == CountInFlight(state.calls, _ => true)
      && Balance(state.log, id => id == correlationId)
           == CountInFlight(state.calls, id => id == correlationId)
  {
    RunBalances(IDLE, steps, _ => true);
    RunBalances(IDLE, steps, id => id == correlationId);
  }
}
