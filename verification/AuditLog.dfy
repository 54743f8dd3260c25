/** The audit service: an append-only list of events with redacted evidence. */
module AuditLog {
  import opened CodeUnits
  import opened Environments
  import opened Evidence
  import opened Sorting

  datatype Action = DeploymentExecution | Rollback | BackupVerification | DisasterRecovery

  datatype Outcome =
    | Started | Blocked | BlockedMissingApproval | Executed | Failed
    | BlockedUnverifiedArtifact | BlockedIncompatibleSchema | Completed
    | Recovered | Partial | Verified | VerificationFailed

  datatype Option<+T> = None | Some(value: T)

  /** What an event is about. */
  datatype Subject = Subject(
    releaseId: JsString, deploymentId: Option<JsString>, rollbackId: Option<JsString>,
    backupId: Option<JsString>, restoreId: Option<JsString>, drId: Option<JsString>)

  datatype OperatorType = User | Ci | System
  datatype Operator = Operator(id: JsString, kind: OperatorType)

  datatype AuditInput = AuditInput(
    subject: Subject, environment: Environment, action: Action, result: Outcome, operator: Operator,
    commitSha: JsString, artifactDigest: Option<JsString>, migrationId: Option<JsString>, startMs: int,
    finishMs: Option<int>, failureReason: Option<JsString>, approvalReference: Option<JsString>,
    correlationId: JsString, evidence: seq<Field>)

  datatype Event = Event(
    auditId: JsString, subject: Subject, environment: Environment, action: Action, result: Outcome,
    operator: Operator, commitSha: JsString, artifactDigest: Option<JsString>, migrationId: Option<JsString>,
    startMs: int, finishMs: int, durationMs: int, failureReason: Option<JsString>,
    approvalReference: Option<JsString>, correlationId: JsString, evidence: seq<Field>)

  const DIGEST_MARKER: JsString := Units("***REDACTED***")

  /** A missing or empty digest is left out, a short one is hidden, a long one is abbreviated. */
  function RedactDigest(digest: Option<JsString>): Option<JsString> {
    match digest
    case None => None
    case Some(text) =>
      if text == [] then None
      else if |text| <= 12 then Some(DIGEST_MARKER)
      else Some(text[..8] + Units("...") + text[|text| - 4..])
  }

  function EventOf(input: AuditInput, auditId: JsString, nowMs: int, lower: Lower): Event {
    var finishMs := if input.finishMs.Some? then input.finishMs.value else nowMs;
    Event(auditId, input.subject, input.environment, input.action, input.result, input.operator,
          input.commitSha, RedactDigest(input.artifactDigest), input.migrationId, input.startMs, finishMs,
          finishMs - input.startMs, input.failureReason, input.approvalReference, input.correlationId,
          RedactFields(input.evidence, lower))
  }

  /** An event carries what it was given; its duration runs from its start to the given finish, or to the
      moment of the recording. */
  lemma EventCarriesInput(input: AuditInput, auditId: JsString, nowMs: int, lower: Lower)
    ensures var event := EventOf(input, auditId, nowMs, lower);
      && event.auditId == auditId && event.subject == input.subject && event.environment == input.environment
      && event.action == input.action && event.result == input.result && event.operator == input.operator
      && event.commitSha == input.commitSha && event.migrationId == input.migrationId
      && event.failureReason == input.failureReason && event.approvalReference == input.approvalReference
      && event.correlationId == input.correlationId && event.startMs == input.startMs
      && (input.finishMs == None ==> event.durationMs == nowMs - input.startMs)
      && (input.finishMs.Some? ==> event.durationMs == input.finishMs.value - input.startMs)
      && event.finishMs == event.startMs + event.durationMs
      && event.evidence == RedactFields(input.evidence, lower)
  {
  }

  /** A digest is shown by its first eight and last four units if it is longer than twelve, hidden if it is
      shorter, and left out if it is missing or empty. */
  lemma DigestIsAbbreviated(digest: Option<JsString>)
    ensures var shown := RedactDigest(digest);
      && (shown == None <==> digest == None || digest == Some([]))
      && (shown.Some? ==>
            var text := digest.value;
            if |text| <= 12 then shown == Some(Units("***REDACTED***"))
            else shown == Some(text[..8] + [46, 46, 46] + text[|text| - 4..]))
  {
    assert Units("...") == [46, 46, 46];
  }

  function OfCorrelation(events: seq<Event>, correlationId: JsString): seq<Event> {
    Filter(events, (e: Event) => e.correlationId == correlationId)
  }

  function OfRelease(events: seq<Event>, releaseId: JsString): seq<Event> {
    Filter(events, (e: Event) => e.subject.releaseId == releaseId)
  }

  /** The selections for each of the ids, put together. */
  function Selections(events: seq<Event>, ids: seq<JsString>, select: (seq<Event>, JsString) -> seq<Event>)
    : multiset<Event>
  {
    if ids == [] then multiset{} else multiset(select(events, ids[0])) + Selections(events, ids[1..], select)
  }

  lemma {:induction false} SelectionsCount(events: seq<Event>, ids: seq<JsString>, e: Event)
    requires NoDuplicates(ids)
    ensures Selections(events, ids, OfCorrelation)[e] == if e.correlationId in ids then multiset(events)[e] else 0
    ensures Selections(events, ids, OfRelease)[e] == if e.subject.releaseId in ids then multiset(events)[e] else 0
  {
    if ids != [] {
      assert forall i | 0 <= i < |ids[1..]| :: ids[1..][i] == ids[i + 1];
      SelectionsCount(events, ids[1..], e);
      FilterCounts(events, (f: Event) => f.correlationId == ids[0], e);
      FilterCounts(events, (f: Event) => f.subject.releaseId == ids[0], e);
    }
  }

  /** What the two queries return over all ids is what the unfiltered query returns: each partitions
      the log. */
  lemma QueriesPartitionTheLog(events: seq<Event>, correlationIds: seq<JsString>, releaseIds: seq<JsString>)
    requires NoDuplicates(correlationIds) && NoDuplicates(releaseIds)
    requires forall e | e in events :: e.correlationId in correlationIds && e.subject.releaseId in releaseIds
    ensures Selections(events, correlationIds, OfCorrelation) == multiset(events)
    ensures Selections(events, releaseIds, OfRelease) == multiset(events)
  {
    forall e
      ensures Selections(events, correlationIds, OfCorrelation)[e] == multiset(events)[e]
      ensures Selections(events, releaseIds, OfRelease)[e] == multiset(events)[e]
    {
      SelectionsCount(events, correlationIds, e);
      SelectionsCount(events, releaseIds, e);
      assert e in multiset(events) ==> e in events;
    }
  }

  class DeploymentAuditService {
    var events: seq<Event>

    constructor ()
      ensures events == []
    {
      events := [];
    }

    /** Appends one event, whose evidence is safe; the events before it stay as they were. */
    method Record(input: AuditInput, auditId: JsString, nowMs: int, lower: Lower) returns (event: Event)
      modifies this
      ensures events == old(events) + [event]
      ensures event == EventOf(input, auditId, nowMs, lower)
      ensures Safe(event.evidence, lower)
    {
      var safeEvidence := RedactEvidence(Object(input.evidence), lower);
      RedactionIsIdempotentAndSafe(Object(input.evidence), lower);
      var finishMs := if input.finishMs.Some? then input.finishMs.value else nowMs;
      event := Event(auditId, input.subject, input.environment, input.action, input.result, input.operator,
                     input.commitSha, RedactDigest(input.artifactDigest), input.migrationId, input.startMs,
                     finishMs, finishMs - input.startMs, input.failureReason, input.approvalReference,
                     input.correlationId, safeEvidence);
      events := events + [event];
    }

    /** Exactly the recorded events with the id, each as often and in the order recorded. */
    method GetEventsByCorrelationId(correlationId: JsString) returns (r: seq<Event>)
      ensures forall e :: multiset(r)[e] == if e.correlationId == correlationId then multiset(events)[e] else 0
      ensures r == OfCorrelation(events, correlationId)
    {
      r := Filter(events, (e: Event) => e.correlationId == correlationId);
      forall e {
        FilterCounts(events, (e: Event) => e.correlationId == correlationId, e);
      }
    }

    method GetEventsByReleaseId(releaseId: JsString) returns (r: seq<Event>)
      ensures forall e :: multiset(r)[e] == if e.subject.releaseId == releaseId then multiset(events)[e] else 0
      ensures r == OfRelease(events, releaseId)
    {
      r := Filter(events, (e: Event) => e.subject.releaseId == releaseId);
      forall e {
        FilterCounts(events, (e: Event) => e.subject.releaseId == releaseId, e);
      }
    }
  }
}
