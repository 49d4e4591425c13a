/** Tables and value types shared by every service: the columns of the ORM models that the
    modelled code reads or writes, and the meaning of the incident timeline. */
module Schema {

  datatype Option<+T> = None | Some(value: T)

  /** A UUID. New ones are drawn from a counter, which is what "fresh" amounts to. */
  type Id = nat

  /** Timestamps are integers, in microseconds. */
  type Time = int

  const SECOND: Time := 1_000_000

  datatype IncidentStatus =
    | DETECTED | CORRELATING | INVESTIGATING | DIAGNOSED | AWAITING_APPROVAL
    | REMEDIATING | VERIFYING | RESOLVED | FAILED

  predicate Terminal(s: IncidentStatus) {
    s == RESOLVED || s == FAILED
  }

  /** The severities of alerts (critical, high, warning, info) and of incidents
      (critical, high, medium, low) share one rank table in the source. */
  datatype Severity = Critical | High | Medium | Low | Warning | Info

  /** The event_type of a timeline row, with the detail that matters. */
  datatype TimelineKind =
    | INCIDENT_CREATED
    | ALERT_CORRELATED(alertId: Id)
    | INVESTIGATION_STARTED
    | RCA_COMPLETED
    | STATUS_CHANGED(newStatus: IncidentStatus)
    | APPROVAL_REQUESTED
    | REMEDIATION_EXECUTED
    | VERIFICATION_COMPLETED
    | AUTO_REMEDIATED
    | APPROVAL_AWAITED
    | POLICY_REJECTED
    | STATUS_CHANGED_UNNAMED   // a STATUS_CHANGED row without details

  /** What one timeline row says about the status of its incident. */
  function StatusAfter(kind: TimelineKind, before: Option<IncidentStatus>): Option<IncidentStatus> {
    match kind
    case INCIDENT_CREATED => Some(DETECTED)
    case INVESTIGATION_STARTED => Some(INVESTIGATING)
    case RCA_COMPLETED => Some(DIAGNOSED)
    case STATUS_CHANGED(s) => Some(s)
    case _ => before
  }

  /** The status that a reader of the timeline alone would compute. */
  function Fold(kinds: seq<TimelineKind>): Option<IncidentStatus> {
    if kinds == [] then None
    else StatusAfter(kinds[|kinds| - 1], Fold(kinds[..|kinds| - 1]))
  }

  lemma FoldAppend(kinds: seq<TimelineKind>, kind: TimelineKind)
    ensures Fold(kinds + [kind]) == StatusAfter(kind, Fold(kinds))
  {
    assert (kinds + [kind])[..|kinds|] == kinds;
  }
}
