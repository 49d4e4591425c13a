/** The alert correlator: one database transaction per raw alert. */
module Correlator {
  import opened Schema

  // ---------------------------------------------------------------- events

  /** An alerts.raw message. None is a missing key. */
  datatype RawEvent = RawEvent(
    eventId: Option<string>,
    alertName: Option<string>,
    service: Option<string>,
    namespace: Option<string>,
    severity: Option<string>,
    status: Option<string>)

  datatype AlertStatus = Firing | ResolvedAlert

  datatype Normalized = Normalized(
    service: string, namespace: string, severity: Severity, status: AlertStatus, fingerprint: string)

  function Get(field: Option<string>, default: string): string {
    if field.Some? then field.value else default
  }

  function EventId(e: RawEvent): string {
    Get(e.eventId, "")
  }

  /** The text that the source hashes. The hash itself is not modelled. */
  function Fingerprint(alertName: string, service: string, namespace: string): string {
    alertName + ":" + service + ":" + namespace
  }

  function ParseSeverity(s: string): Option<Severity> {
    if s == "critical" then Some(Critical)
    else if s == "high" then Some(High)
    else if s == "warning" then Some(Warning)
    else if s == "info" then Some(Info)
    else None
  }

  function ParseStatus(s: string): Option<AlertStatus> {
    if s == "firing" then Some(Firing) else if s == "resolved" then Some(ResolvedAlert) else None
  }

  /** None: an unknown severity or status makes the handler raise. */
  function Normalize(e: RawEvent): Option<Normalized> {
    var service, namespace := Get(e.service, "unknown"), Get(e.namespace, "default");
    match (ParseSeverity(Get(e.severity, "warning")), ParseStatus(Get(e.status, "firing")))
    case (Some(severity), Some(status)) =>
      Some(Normalized(service, namespace, severity, status,
                      Fingerprint(Get(e.alertName, ""), service, namespace)))
    case _ => None
  }

  /** The events that reach the database at all. */
  predicate Effective(e: RawEvent) {
    Normalize(e).Some? && Normalize(e).value.status == Firing
  }

  // ---------------------------------------------------------------- severity

  function Rank(s: Severity): nat {
    match s
    case Critical => 4
    case High => 3
    case Medium => 2
    case Low => 1
    case Warning => 2
    case Info => 0
  }

  function IncidentSeverity(s: Severity): Severity {
    match s
    case Critical => Critical
    case High => High
    case Warning => Medium
    case Info => Low
    case _ => Medium
  }

  predicate IncidentScale(s: Severity) {
    s in {Critical, High, Medium, Low}
  }

  // ---------------------------------------------------------------- dependency graph

  /** One entry of the dependency dictionary: a service and what it depends on. */
  datatype Dependency = Dependency(service: string, dependsOn: seq<string>)
  type Graph = seq<Dependency>

  const SERVICE_DEPENDENCY_GRAPH: Graph := [
    Dependency("checkout", ["payment", "inventory"]),
    Dependency("payment", ["postgres", "demo-postgres"]),
    Dependency("inventory", ["redis", "demo-redis"])
  ]

  /** The service itself and its direct dependents. */
  function Related(g: Graph, service: string): set<string> {
    {service} + set d | d in g && service in d.dependsOn :: d.service
  }

  method RootServices(g: Graph, service: string) returns (dependents: set<string>)
    ensures dependents == Related(g, service)
  {
    dependents := {service};
    for i := 0 to |g|
      invariant dependents == Related(g[..i], service)
    {
      assert g[..i + 1] == g[..i] + [g[i]];
      if service in g[i].dependsOn {
        dependents := dependents + {g[i].service};
      }
    }
    assert g[..|g|] == g;
  }

  // ---------------------------------------------------------------- tables

  datatype Alert = Alert(
    id: Id, incidentId: Id, service: string, namespace: string, severity: Severity,
    status: AlertStatus, fingerprint: string, createdAt: Time)

  datatype Incident = Incident(
    id: Id, service: string, namespace: string, severity: Severity, status: IncidentStatus,
    alertIds: seq<Id>, createdAt: Time)

  datatype TimelineRow = TimelineRow(incidentId: Id, kind: TimelineKind)

  datatype Topic = INCIDENTS_CREATED | INCIDENTS_UPDATED

  /** An outbox row: the envelope's event_id and the payload fields that matter. */
  datatype OutboxRow = OutboxRow(
    topic: Topic, eventId: Id, incidentId: Id, status: IncidentStatus, alertIds: seq<Id>, createdAt: Time)

  /** The tables the correlator touches. `processed` holds the event ids stored for its consumer
      group; `next` is the next fresh id. */
  datatype Db = Db(
    alerts: seq<Alert>, incidents: seq<Incident>, timeline: seq<TimelineRow>, outbox: seq<OutboxRow>,
    processed: set<string>, next: Id)

  const EMPTY_DB := Db([], [], [], [], {}, 0)

  // ---------------------------------------------------------------- queries

  const DUPLICATE_WINDOW: Time := 60 * SECOND
  const CORRELATION_WINDOW: Time := 300 * SECOND

  predicate IsDuplicateAlert(alerts: seq<Alert>, fingerprint: string, now: Time) {
    exists a :: a in alerts && a.fingerprint == fingerprint
                && a.createdAt >= now - DUPLICATE_WINDOW && a.status == Firing
  }

  predicate Matches(inc: Incident, related: set<string>, namespace: string, now: Time) {
    && inc.service in related
    && inc.namespace == namespace
    && !Terminal(inc.status)
    && inc.createdAt >= now - CORRELATION_WINDOW
  }

  /** Index `i` may be the one row of "order by created_at desc limit 1". */
  predicate IsNewestMatch(incidents: seq<Incident>, related: set<string>, namespace: string, now: Time, i: nat) {
    && i < |incidents|
    && Matches(incidents[i], related, namespace, now)
    && forall j :: 0 <= j < |incidents| && Matches(incidents[j], related, namespace, now) ==>
         incidents[j].createdAt <= incidents[i].createdAt
  }

  function FirstNewest(incidents: seq<Incident>, related: set<string>, namespace: string, now: Time): (r: Option<nat>)
    ensures r.Some? ==> IsNewestMatch(incidents, related, namespace, now, r.value)
    ensures r.None? ==> forall inc :: inc in incidents ==> !Matches(inc, related, namespace, now)
  {
    if incidents == [] then None
    else
      var last := |incidents| - 1;
      var best := FirstNewest(incidents[..last], related, namespace, now);
      if Matches(incidents[last], related, namespace, now)
         && (best.None? || incidents[best.value].createdAt < incidents[last].createdAt)
      then Some(last)
      else best
  }

  /** The query of _find_open_incident. Rows with equal created_at may come in any order:
      `pick` is the database's choice among them. */
  function FindOpenIncident(
    incidents: seq<Incident>, related: set<string>, namespace: string, now: Time, pick: nat): (r: Option<nat>)
    ensures r.Some? ==> IsNewestMatch(incidents, related, namespace, now, r.value)
    ensures r.None? ==> forall inc :: inc in incidents ==> !Matches(inc, related, namespace, now)
    ensures IsNewestMatch(incidents, related, namespace, now, pick) ==> r == Some(pick)
  {
    if IsNewestMatch(incidents, related, namespace, now, pick) then Some(pick)
    else FirstNewest(incidents, related, namespace, now)
  }

  // ---------------------------------------------------------------- the transaction as a function

  function Escalate(alert: Severity, incident: Severity): Severity {
    if Rank(alert) > Rank(incident) then IncidentSeverity(alert) else incident
  }

  /** Attach a new alert to incidents[i]. */
  function Attach(db: Db, eventId: string, n: Normalized, now: Time, i: nat): Db
    requires i < |db.incidents|
  {
    var inc := db.incidents[i];
    var alertIds := inc.alertIds + [db.next];
    Db(db.alerts + [Alert(db.next, inc.id, n.service, n.namespace, n.severity, n.status, n.fingerprint, now)],
       db.incidents[i := inc.(alertIds := alertIds, severity := Escalate(n.severity, inc.severity))],
       db.timeline + [TimelineRow(inc.id, ALERT_CORRELATED(db.next))],
       db.outbox + [OutboxRow(INCIDENTS_UPDATED, db.next + 1, inc.id, inc.status, alertIds, now)],
       db.processed + {eventId},
       db.next + 2)
  }

  /** Open a new incident for a new alert. */
  function Open(db: Db, eventId: string, n: Normalized, now: Time): Db {
    var id := db.next + 1;
    Db(db.alerts + [Alert(db.next, id, n.service, n.namespace, n.severity, n.status, n.fingerprint, now)],
       db.incidents + [Incident(id, n.service, n.namespace, IncidentSeverity(n.severity), DETECTED, [db.next], now)],
       db.timeline + [TimelineRow(id, INCIDENT_CREATED)],
       db.outbox + [OutboxRow(INCIDENTS_CREATED, db.next + 2, id, DETECTED, [db.next], now)],
       db.processed + {eventId},
       db.next + 3)
  }

  function Save(g: Graph, db: Db, eventId: string, n: Normalized, now: Time, pick: nat): Db {
    match FindOpenIncident(db.incidents, Related(g, n.service), n.namespace, now, pick)
    case Some(i) => Attach(db, eventId, n, now, i)
    case None => Open(db, eventId, n, now)
  }

  function Handle(g: Graph, db: Db, e: RawEvent, now: Time, pick: nat): Db {
    if !Effective(e) || EventId(e) in db.processed then db
    else
      var n := Normalize(e).value;
      if IsDuplicateAlert(db.alerts, n.fingerprint, now)
      then db.(processed := db.processed + {EventId(e)})
      else Save(g, db, EventId(e), n, now, pick)
  }

  // ---------------------------------------------------------------- the handler

  datatype HandlerResult = Raised | SkippedResolved | SkippedProcessed | Suppressed | Correlated | Created

  /** The database session of one correlator, with the handler that writes through it. */
  class CorrelatorSession {
    var alerts: seq<Alert>
    var incidents: seq<Incident>
    var timeline: seq<TimelineRow>
    var outbox: seq<OutboxRow>
    var processed: set<string>
    var next: Id

    function Contents(): Db
      reads this
    {
      Db(alerts, incidents, timeline, outbox, processed, next)
    }

    constructor ()
      ensures Contents() == EMPTY_DB
    {
      alerts, incidents, timeline, outbox, processed, next := [], [], [], [], {}, 0;
    }

    method NewId() returns (id: Id)
      modifies this`next
      ensures id == old(next) && next == old(next) + 1
    {
      id, next := next, next + 1;
    }

    method RecordOutbox(topic: Topic, incidentId: Id, status: IncidentStatus, alertIds: seq<Id>, now: Time)
      modifies this`outbox, this`next
      ensures outbox == old(outbox) + [OutboxRow(topic, old(next), incidentId, status, alertIds, now)]
      ensures next == old(next) + 1
    {
      var eventId := NewId();
      outbox := outbox + [OutboxRow(topic, eventId, incidentId, status, alertIds, now)];
    }

    method MarkProcessed(eventId: string)
      modifies this`processed
      ensures processed == old(processed) + {eventId}
    {
      processed := processed + {eventId};
    }

    /** Committing a transaction that returned early leaves the tables as they are, except for the
        processed mark of a suppressed duplicate. */
    method HandleRawAlert(g: Graph, e: RawEvent, now: Time, pick: nat) returns (r: HandlerResult)
      modifies this
      ensures Contents() == Handle(g, old(Contents()), e, now, pick)
      ensures r == Raised <==> Normalize(e).None?
      ensures r in {Raised, SkippedResolved, SkippedProcessed} ==> Contents() == old(Contents())
      ensures r in {Suppressed, Correlated, Created} <==> EventId(e) in processed - old(processed)
      ensures r in {Correlated, Created} <==> |alerts| == |old(alerts)| + 1
      ensures r == Created <==> |incidents| == |old(incidents)| + 1
    {
      var normalized := Normalize(e);
      if normalized.None? {
        return Raised;
      }
      var n := normalized.value;
      if n.status == ResolvedAlert {
        return SkippedResolved;
      }
      var eventId := EventId(e);
      if eventId in processed {
        return SkippedProcessed;
      }
      if IsDuplicateAlert(alerts, n.fingerprint, now) {
        MarkProcessed(eventId);
        return Suppressed;
      }
      var related := RootServices(g, n.service);
      var existing := FindOpenIncident(incidents, related + {n.service}, n.namespace, now, pick);
      assert related + {n.service} == Related(g, n.service);
      if existing.Some? {
        CorrelateInto(existing.value, n, now);
        r := Correlated;
      } else {
        OpenIncident(n, now);
        r := Created;
      }
      MarkProcessed(eventId);
    }

    /** Attach the alert to an existing incident. The processed mark follows separately. */
    method CorrelateInto(i: nat, n: Normalized, now: Time)
      requires i < |incidents|
      modifies this
      ensures forall eventId :: Contents().(processed := processed + {eventId})
                                == Attach(old(Contents()), eventId, n, now, i)
      ensures processed == old(processed)
    {
      var alertId := NewId();
      var inc := incidents[i];
      alerts := alerts + [Alert(alertId, inc.id, n.service, n.namespace, n.severity, n.status, n.fingerprint, now)];
      var alertIds := inc.alertIds + [alertId];
      var updated := inc.(alertIds := alertIds);
      if Rank(n.severity) > Rank(inc.severity) {
        updated := updated.(severity := IncidentSeverity(n.severity));
      }
      incidents := incidents[i := updated];
      timeline := timeline + [TimelineRow(inc.id, ALERT_CORRELATED(alertId))];
      RecordOutbox(INCIDENTS_UPDATED, inc.id, inc.status, alertIds, now);
    }

    /** Create an incident for the alert. The processed mark follows separately. */
    method OpenIncident(n: Normalized, now: Time)
      modifies this
      ensures forall eventId :: Contents().(processed := processed + {eventId})
                                == Open(old(Contents()), eventId, n, now)
      ensures processed == old(processed)
    {
      var alertId := NewId();
      var incidentId := NewId();
      incidents := incidents
        + [Incident(incidentId, n.service, n.namespace, IncidentSeverity(n.severity), DETECTED, [alertId], now)];
      alerts := alerts + [Alert(alertId, incidentId, n.service, n.namespace, n.severity, n.status, n.fingerprint, now)];
      timeline := timeline + [TimelineRow(incidentId, INCIDENT_CREATED)];
      RecordOutbox(INCIDENTS_CREATED, incidentId, DETECTED, [alertId], now);
    }
  }

  // ---------------------------------------------------------------- runs

  /** A step of a serial run: one delivery to the handler, or a commit by which another service logs a row of one
      incident and gives it the status that the row names, if it names one. */
  datatype Step =
    | Deliver(event: RawEvent, now: Time, pick: nat)
    | Transition(incident: Id, row: TimelineKind)

  /** The rows that others than the correlator write. */
  predicate Foreign(kind: TimelineKind) {
    !kind.INCIDENT_CREATED? && !kind.ALERT_CORRELATED?
  }

  function Moved(inc: Incident, id: Id, kind: TimelineKind): Incident {
    if inc.id == id then inc.(status := StatusAfter(kind, Some(inc.status)).value) else inc
  }

  function Move(incidents: seq<Incident>, id: Id, kind: TimelineKind): (r: seq<Incident>)
    ensures |r| == |incidents|
    ensures forall i :: 0 <= i < |r| ==> r[i] == Moved(incidents[i], id, kind)
  {
    seq(|incidents|, i requires 0 <= i < |incidents| => Moved(incidents[i], id, kind))
  }

  predicate HasIncident(incidents: seq<Incident>, id: Id) {
    exists inc :: inc in incidents && inc.id == id
  }

  function Apply(g: Graph, db: Db, step: Step): Db {
    match step
    case Deliver(e, now, pick) => Handle(g, db, e, now, pick)
    case Transition(id, kind) =>
      if HasIncident(db.incidents, id) && Foreign(kind)
      then db.(incidents := Move(db.incidents, id, kind), timeline := db.timeline + [TimelineRow(id, kind)])
      else db
  }

  /** The tables after a serial run from empty tables. */
  function Run(g: Graph, steps: seq<Step>): Db {
    if steps == [] then EMPTY_DB
    else Apply(g, Run(g, steps[..|steps| - 1]), steps[|steps| - 1])
  }
}
