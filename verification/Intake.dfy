/** What a delivery that is saved writes: the new rows against the event and against each other, and the meaning of
    the severities. */
module Intake {
  import opened Schema
  import opened Correlator
  import opened Conservation

  // ---------------------------------------------------------------- names

  const ALERT_SEVERITIES := {Critical, High, Warning, Info}

  function SeverityName(s: Severity): string
    requires s in ALERT_SEVERITIES
  {
    match s
    case Critical => "critical"
    case High => "high"
    case Warning => "warning"
    case Info => "info"
  }

  function StatusName(s: AlertStatus): string {
    match s
    case Firing => "firing"
    case ResolvedAlert => "resolved"
  }

  /** Names are read back exactly, and nothing else is a name. */
  lemma NamesRoundTrip(text: string, s: Severity, t: AlertStatus)
    ensures ParseSeverity(text) == Some(s) <==> s in ALERT_SEVERITIES && text == SeverityName(s)
    ensures ParseStatus(text) == Some(t) <==> text == StatusName(t)
  {
    assert |"critical"| == 8 && |"high"| == 4 && |"warning"| == 7 && |"info"| == 4 && "high"[0] != "info"[0];
    assert |"firing"| == 6 && |"resolved"| == 8;
  }

  /** Which events raise and which reach the database: the severity must be one of the four names, or missing, and
      the status firing, or missing. */
  lemma EffectiveExact(e: RawEvent)
    ensures var severity := if e.severity.Some? then e.severity.value else "warning";
            var status := if e.status.Some? then e.status.value else "firing";
            && (Normalize(e).Some? <==>
                  severity in {"critical", "high", "warning", "info"} && status in {"firing", "resolved"})
            && (Effective(e) <==> severity in {"critical", "high", "warning", "info"} && status == "firing")
  {
    assert |"firing"| == 6 && |"resolved"| == 8;
  }

  /** Mapping to the incident scale keeps the order of severities and reaches all of it: the four alert severities
      become the four incident severities in rank order. */
  lemma MappingKeepsOrder(a: Severity, b: Severity)
    requires a in ALERT_SEVERITIES && b in ALERT_SEVERITIES
    ensures Rank(a) < Rank(b) <==> Rank(IncidentSeverity(a)) < Rank(IncidentSeverity(b))
    ensures a != b ==> IncidentSeverity(a) != IncidentSeverity(b)
    ensures IncidentScale(IncidentSeverity(a))
  {
  }

  /** The ranks: critical above high above warning above info, on both scales. */
  lemma RanksDescend()
    ensures Rank(Critical) > Rank(High) > Rank(Warning) > Rank(Info)
    ensures Rank(Critical) > Rank(High) > Rank(Medium) > Rank(Low)
    ensures Rank(IncidentSeverity(Warning)) == Rank(Warning) && Rank(IncidentSeverity(Info)) > Rank(Info)
  {
  }

  // ---------------------------------------------------------------- the saved alert

  /** The alert tells what the event said, with the defaults for what it left out. */
  predicate TellsEvent(a: Alert, e: RawEvent) {
    && a.service == (if e.service.Some? then e.service.value else "unknown")
    && a.namespace == (if e.namespace.Some? then e.namespace.value else "default")
    && a.severity in ALERT_SEVERITIES
    && SeverityName(a.severity) == (if e.severity.Some? then e.severity.value else "warning")
    && StatusName(a.status) == (if e.status.Some? then e.status.value else "firing")
    && a.fingerprint == (if e.alertName.Some? then e.alertName.value else "") + ":" + a.service + ":" + a.namespace
  }

  /** The new rows agree: the alert, the incident it belongs to, and the timeline and outbox rows that tell of it. */
  predicate RowsAgree(before: Db, after: Db, now: Time)
    requires |after.alerts| > 0 && |after.outbox| > 0 && |after.timeline| > 0
  {
    var a, row := after.alerts[|after.alerts| - 1], after.outbox[|after.outbox| - 1];
    var t := after.timeline[|after.timeline| - 1];
    && a.createdAt == now && row.createdAt == now && a.id != row.eventId
    && row.incidentId == a.incidentId && t.incidentId == a.incidentId
    && exists i :: 0 <= i < |after.incidents| &&
         var inc := after.incidents[i];
         && inc.id == a.incidentId && inc.namespace == a.namespace
         && row.alertIds == inc.alertIds && inc.alertIds != [] && inc.alertIds[|inc.alertIds| - 1] == a.id
         && row.status == inc.status
         && if i < |before.incidents|
            then row.topic == INCIDENTS_UPDATED && t.kind == ALERT_CORRELATED(a.id)
            else row.topic == INCIDENTS_CREATED && t.kind == INCIDENT_CREATED
                 && inc.service == a.service && inc.createdAt == now && inc.status == DETECTED
                 && inc.severity == IncidentSeverity(a.severity) && inc.alertIds == [a.id]
  }

  /** Everything a delivery adds when it saves its alert. */
  lemma SavedRows(g: Graph, db: Db, e: RawEvent, now: Time, pick: nat)
    requires |Handle(g, db, e, now, pick).alerts| > |db.alerts|
    ensures var db' := Handle(g, db, e, now, pick);
            && |db'.alerts| == |db.alerts| + 1 && |db'.outbox| == |db.outbox| + 1 && |db'.timeline| == |db.timeline| + 1
            && TellsEvent(db'.alerts[|db.alerts|], e)
            && RowsAgree(db, db', now)
            && db'.processed == db.processed + {if e.eventId.Some? then e.eventId.value else ""}
  {
    var n, db' := Normalize(e).value, Handle(g, db, e, now, pick);
    NamesRoundTrip(if e.severity.Some? then e.severity.value else "warning", n.severity, n.status);
    NamesRoundTrip(if e.status.Some? then e.status.value else "firing", n.severity, n.status);
    var found := FindOpenIncident(db.incidents, Related(g, n.service), n.namespace, now, pick);
    var i := if found.Some? then found.value else |db.incidents|;
    assert db'.incidents[i].id == db'.alerts[|db.alerts|].incidentId;
  }

  /** A delivery saves nothing else than its alert, and what it does not name stays: other incidents, and of its own
      everything but the list and the severity. */
  lemma OtherRowsStay(g: Graph, db: Db, e: RawEvent, now: Time, pick: nat)
    ensures var db' := Handle(g, db, e, now, pick);
            && |db'.incidents| >= |db.incidents|
            && (forall i :: 0 <= i < |db.alerts| ==> i < |db'.alerts| && db'.alerts[i] == db.alerts[i])
            && (forall i :: 0 <= i < |db.incidents| ==>
                  && db'.incidents[i].(alertIds := db.incidents[i].alertIds, severity := db.incidents[i].severity)
                     == db.incidents[i]
                  && (db'.incidents[i] != db.incidents[i] ==>
                        |db'.alerts| > |db.alerts| && db'.alerts[|db.alerts|].incidentId == db.incidents[i].id))
  {
  }
}
