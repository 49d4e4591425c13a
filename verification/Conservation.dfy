/** What every serial run of the correlator keeps: conservation between the alerts, incidents and
    outbox tables, severity as a maximum, and the timeline as a log of the status. */
module Conservation {
  import opened Schema
  import opened Correlator

  // ---------------------------------------------------------------- conservation

  /** The ids of the alerts attached to an incident, in the order they were saved. */
  function IdsOf(alerts: seq<Alert>, incident: Id): seq<Id> {
    if alerts == [] then []
    else
      var last := alerts[|alerts| - 1];
      var before := IdsOf(alerts[..|alerts| - 1], incident);
      if last.incidentId == incident then before + [last.id] else before
  }

  ghost predicate Keys(db: Db) {
    && (forall i :: 0 <= i < |db.alerts| ==> db.alerts[i].id < db.next)
    && (forall i, j :: 0 <= i < j < |db.alerts| ==> db.alerts[i].id != db.alerts[j].id)
    && (forall i :: 0 <= i < |db.incidents| ==> db.incidents[i].id < db.next)
    && (forall i, j :: 0 <= i < j < |db.incidents| ==> db.incidents[i].id != db.incidents[j].id)
    && (forall i :: 0 <= i < |db.outbox| ==> db.outbox[i].eventId < db.next)
    && (forall i, j :: 0 <= i < j < |db.outbox| ==> db.outbox[i].eventId != db.outbox[j].eventId)
    && (forall i :: 0 <= i < |db.alerts| ==> HasIncident(db.incidents, db.alerts[i].incidentId))
    && (forall i :: 0 <= i < |db.timeline| ==> HasIncident(db.incidents, db.timeline[i].incidentId))
  }

  /** Outbox row i announces alert i: it names the alert's incident and lists that incident's alerts
      so far, and it is the "created" message exactly when it is the incident's first. */
  ghost predicate Announces(db: Db, i: nat)
    requires i < |db.alerts| && i < |db.outbox|
  {
    var (alert, row) := (db.alerts[i], db.outbox[i]);
    && row.incidentId == alert.incidentId
    && row.alertIds == IdsOf(db.alerts[..i + 1], alert.incidentId)
    && (row.topic == INCIDENTS_CREATED <==> IdsOf(db.alerts[..i], alert.incidentId) == [])
  }

  ghost predicate Conserved(db: Db) {
    && Keys(db)
    && |db.outbox| == |db.alerts|
    && (forall i :: 0 <= i < |db.alerts| ==> Announces(db, i))
    && (forall i :: 0 <= i < |db.incidents| ==> db.incidents[i].alertIds == IdsOf(db.alerts, db.incidents[i].id))
    && (forall i :: 0 <= i < |db.incidents| ==> db.incidents[i].alertIds != [])
  }

  lemma IdsOfAppend(alerts: seq<Alert>, a: Alert, incident: Id)
    ensures IdsOf(alerts + [a], incident) == IdsOf(alerts, incident) + if a.incidentId == incident then [a.id] else []
  {
    assert (alerts + [a])[..|alerts|] == alerts;
  }

  lemma {:induction false} IdsOfNone(alerts: seq<Alert>, incident: Id)
    requires forall a :: a in alerts ==> a.incidentId != incident
    ensures IdsOf(alerts, incident) == []
  {
    if alerts != [] {
      IdsOfNone(alerts[..|alerts| - 1], incident);
    }
  }

  lemma IdsOfAppendAll(alerts: seq<Alert>, a: Alert)
    ensures forall incident :: IdsOf(alerts + [a], incident)
                               == IdsOf(alerts, incident) + if a.incidentId == incident then [a.id] else []
  {
    forall incident { IdsOfAppend(alerts, a, incident); }
  }

  /** Appending an alert and its announcement keeps the announcements. */
  lemma AnnouncementsExtend(db: Db, a: Alert, row: OutboxRow, db': Db)
    requires |db.outbox| == |db.alerts| && forall i :: 0 <= i < |db.alerts| ==> Announces(db, i)
    requires db'.alerts == db.alerts + [a] && db'.outbox == db.outbox + [row]
    requires row.incidentId == a.incidentId && row.alertIds == IdsOf(db.alerts, a.incidentId) + [a.id]
    requires row.topic == INCIDENTS_CREATED <==> IdsOf(db.alerts, a.incidentId) == []
    ensures forall i :: 0 <= i < |db'.alerts| ==> Announces(db', i)
  {
    forall i | 0 <= i < |db'.alerts| ensures Announces(db', i) {
      assert db'.alerts[..i] == db.alerts[..i];
      if i < |db.alerts| {
        assert Announces(db, i);
        assert db'.alerts[..i + 1] == db.alerts[..i + 1];
      } else {
        assert db'.alerts[..i + 1] == db.alerts + [a];
        assert db.alerts[..i] == db.alerts;
        IdsOfAppend(db.alerts, a, a.incidentId);
      }
    }
  }

  lemma AttachConserves(db: Db, eventId: string, n: Normalized, now: Time, i: nat)
    requires Conserved(db) && i < |db.incidents|
    ensures Conserved(Attach(db, eventId, n, now, i))
  {
    var db' := Attach(db, eventId, n, now, i);
    var a := db'.alerts[|db.alerts|];
    AnnouncementsExtend(db, a, db'.outbox[|db.outbox|], db');
    IdsOfAppendAll(db.alerts, a);
    SameIncidents(db.incidents, db'.incidents);
    assert db.incidents[i] in db.incidents;
  }

  lemma OpenKeepsKeys(db: Db, eventId: string, n: Normalized, now: Time)
    requires Keys(db)
    ensures Keys(Open(db, eventId, n, now))
  {
    var db' := Open(db, eventId, n, now);
    assert db'.incidents[|db.incidents|] in db'.incidents;
    forall id | HasIncident(db.incidents, id) ensures HasIncident(db'.incidents, id) {
      var inc :| inc in db.incidents && inc.id == id;
      assert inc in db'.incidents;
    }
  }

  lemma OpenConserves(db: Db, eventId: string, n: Normalized, now: Time)
    requires Conserved(db)
    ensures Conserved(Open(db, eventId, n, now))
  {
    var db' := Open(db, eventId, n, now);
    var a := db'.alerts[|db.alerts|];
    OpenKeepsKeys(db, eventId, n, now);
    NoAlertsYet(db, a.incidentId);
    AnnouncementsExtend(db, a, db'.outbox[|db.outbox|], db');
    IdsOfAppendAll(db.alerts, a);
  }

  /** An id that is still to be drawn names no incident, and no alert refers to it. */
  lemma NoAlertsYet(db: Db, id: Id)
    requires Keys(db) && id >= db.next
    ensures IdsOf(db.alerts, id) == []
    ensures forall i :: 0 <= i < |db.alerts| ==> db.alerts[i].incidentId != id
  {
    forall i | 0 <= i < |db.alerts| ensures db.alerts[i].incidentId != id {
      assert HasIncident(db.incidents, db.alerts[i].incidentId);
    }
    IdsOfNone(db.alerts, id);
  }

  /** Rewriting rows in place keeps the set of incident ids. */
  lemma SameIncidents(before: seq<Incident>, after: seq<Incident>)
    requires |before| == |after| && forall i :: 0 <= i < |before| ==> before[i].id == after[i].id
    ensures forall id :: HasIncident(before, id) <==> HasIncident(after, id)
  {
    forall id ensures HasIncident(before, id) <==> HasIncident(after, id) {
      if HasIncident(before, id) {
        var i :| 0 <= i < |before| && before[i].id == id;
        assert after[i] in after;
      }
      if HasIncident(after, id) {
        var i :| 0 <= i < |after| && after[i].id == id;
        assert before[i] in before;
      }
    }
  }

  /** Tables that differ from `db` only in what conservation does not read. */
  lemma FrameConserves(db: Db, db': Db)
    requires Conserved(db)
    requires db'.alerts == db.alerts && db'.outbox == db.outbox && db'.next == db.next
    requires |db'.incidents| == |db.incidents|
    requires forall i :: 0 <= i < |db.incidents| ==>
               db'.incidents[i].id == db.incidents[i].id && db'.incidents[i].alertIds == db.incidents[i].alertIds
    requires forall i :: 0 <= i < |db'.timeline| ==> HasIncident(db.incidents, db'.timeline[i].incidentId)
    ensures Conserved(db')
  {
    SameIncidents(db.incidents, db'.incidents);
    forall i | 0 <= i < |db'.alerts| ensures Announces(db', i) { assert Announces(db, i); }
  }

  lemma StepConserves(g: Graph, db: Db, step: Step)
    requires Conserved(db)
    ensures Conserved(Apply(g, db, step))
  {
    var db' := Apply(g, db, step);
    match step
    case Deliver(e, now, pick) =>
      if Effective(e) && EventId(e) !in db.processed {
        var n := Normalize(e).value;
        if !IsDuplicateAlert(db.alerts, n.fingerprint, now) {
          match FindOpenIncident(db.incidents, Related(g, n.service), n.namespace, now, pick)
          case Some(i) => AttachConserves(db, EventId(e), n, now, i);
          case None => OpenConserves(db, EventId(e), n, now);
        } else {
          FrameConserves(db, db');
        }
      }
    case Transition(id, kind) =>
      FrameConserves(db, db');
  }

  lemma {:induction false} RunConserves(g: Graph, steps: seq<Step>)
    ensures Conserved(Run(g, steps))
  {
    if steps != [] {
      RunConserves(g, steps[..|steps| - 1]);
      StepConserves(g, Run(g, steps[..|steps| - 1]), steps[|steps| - 1]);
    }
  }

  lemma {:induction false} IdsOfMember(alerts: seq<Alert>, incident: Id, id: Id)
    ensures id in IdsOf(alerts, incident) <==> exists a :: a in alerts && a.id == id && a.incidentId == incident
  {
    if alerts != [] {
      var init, last := alerts[..|alerts| - 1], alerts[|alerts| - 1];
      IdsOfMember(init, incident, id);
      assert alerts == init + [last];
      if exists a :: a in init && a.id == id && a.incidentId == incident {
        var a :| a in init && a.id == id && a.incidentId == incident;
        assert a in alerts;
      }
    }
  }

  lemma {:induction false} IdsOfDistinct(alerts: seq<Alert>, incident: Id)
    requires forall i, j :: 0 <= i < j < |alerts| ==> alerts[i].id != alerts[j].id
    ensures forall i, j :: 0 <= i < j < |IdsOf(alerts, incident)| ==>
              IdsOf(alerts, incident)[i] != IdsOf(alerts, incident)[j]
  {
    if alerts != [] {
      IdsOfDistinct(alerts[..|alerts| - 1], incident);
      IdsOfMember(alerts[..|alerts| - 1], incident, alerts[|alerts| - 1].id);
    }
  }

  /** Every saved alert is listed by exactly one incident, its own, and only once. */
  lemma AlertInExactlyOneIncident(g: Graph, steps: seq<Step>, k: nat)
    requires k < |Run(g, steps).alerts|
    ensures var db, id := Run(g, steps), Run(g, steps).alerts[k].id;
            exists i :: 0 <= i < |db.incidents| && id in db.incidents[i].alertIds
                        && db.incidents[i].id == db.alerts[k].incidentId
                        && (forall j :: 0 <= j < |db.incidents| && id in db.incidents[j].alertIds ==> j == i)
    ensures forall inc :: inc in Run(g, steps).incidents ==>
              forall p, q :: 0 <= p < q < |inc.alertIds| ==> inc.alertIds[p] != inc.alertIds[q]
  {
    var db := Run(g, steps);
    RunConserves(g, steps);
    var a := db.alerts[k];
    forall j | 0 <= j < |db.incidents|
      ensures a.id in db.incidents[j].alertIds <==> db.incidents[j].id == a.incidentId
    {
      IdsOfMember(db.alerts, db.incidents[j].id, a.id);
    }
    var inc :| inc in db.incidents && inc.id == a.incidentId;
    var i :| 0 <= i < |db.incidents| && db.incidents[i] == inc;
    forall inc | inc in db.incidents
      ensures forall p, q :: 0 <= p < q < |inc.alertIds| ==> inc.alertIds[p] != inc.alertIds[q]
    {
      IdsOfDistinct(db.alerts, inc.id);
    }
  }

  // ---------------------------------------------------------------- messages of one incident

  /** The outbox rows of one incident, oldest first. */
  function RowsOf(outbox: seq<OutboxRow>, incident: Id): seq<OutboxRow> {
    if outbox == [] then []
    else
      var before := RowsOf(outbox[..|outbox| - 1], incident);
      if outbox[|outbox| - 1].incidentId == incident then before + [outbox[|outbox| - 1]] else before
  }

  /** Message k of an incident lists its first k + 1 alerts, and only message 0 is "created". */
  ghost predicate Announced(rows: seq<OutboxRow>, ids: seq<Id>) {
    && |rows| == |ids|
    && forall k :: 0 <= k < |rows| ==>
         rows[k].alertIds == ids[..k + 1] && (rows[k].topic == INCIDENTS_CREATED <==> k == 0)
  }

  lemma {:induction false} RowsFollowAlerts(db: Db, n: nat, incident: Id)
    requires |db.outbox| == |db.alerts| && n <= |db.alerts|
    requires forall i :: 0 <= i < |db.alerts| ==> Announces(db, i)
    ensures Announced(RowsOf(db.outbox[..n], incident), IdsOf(db.alerts[..n], incident))
  {
    if n > 0 {
      RowsFollowAlerts(db, n - 1, incident);
      assert db.outbox[..n][..n - 1] == db.outbox[..n - 1];
      assert db.alerts[..n][..n - 1] == db.alerts[..n - 1];
      assert Announces(db, n - 1);
      var rows, ids := RowsOf(db.outbox[..n - 1], incident), IdsOf(db.alerts[..n - 1], incident);
      if db.alerts[n - 1].incidentId == incident {
        var ids' := ids + [db.alerts[n - 1].id];
        assert IdsOf(db.alerts[..n], incident) == ids';
        forall k | 0 <= k < |rows| ensures ids'[..k + 1] == rows[k].alertIds {
          assert ids'[..k + 1] == ids[..k + 1];
        }
        assert ids'[..|ids| + 1] == ids';
      }
    }
  }

  /** Conservation: one outbox row per saved alert; for every incident exactly one INCIDENT_CREATED
      message, first, then |alert_ids| - 1 updates, the k-th listing the first k alerts. */
  lemma ConservationTheorem(g: Graph, steps: seq<Step>)
    ensures var db := Run(g, steps);
            && |db.outbox| == |db.alerts|
            && forall inc :: inc in db.incidents ==>
                 inc.alertIds == IdsOf(db.alerts, inc.id) && |inc.alertIds| >= 1
                 && Announced(RowsOf(db.outbox, inc.id), inc.alertIds)
  {
    var db := Run(g, steps);
    RunConserves(g, steps);
    forall inc | inc in db.incidents ensures Announced(RowsOf(db.outbox, inc.id), inc.alertIds) {
      RowsFollowAlerts(db, |db.alerts|, inc.id);
      assert db.outbox[..|db.alerts|] == db.outbox && db.alerts[..|db.alerts|] == db.alerts;
    }
  }

  // ---------------------------------------------------------------- severity

  /** The incident's severity is the highest mapped severity among its alerts. */
  ghost predicate IsHighest(alerts: seq<Alert>, inc: Incident) {
    && (forall a :: a in alerts && a.incidentId == inc.id ==> Rank(IncidentSeverity(a.severity)) <= Rank(inc.severity))
    && (exists a :: a in alerts && a.incidentId == inc.id && IncidentSeverity(a.severity) == inc.severity)
  }

  ghost predicate SeverityIsMaximum(db: Db) {
    forall i :: 0 <= i < |db.incidents| ==> IsHighest(db.alerts, db.incidents[i])
  }

  /** One escalation step is a maximum, although the two scales differ: an info alert ranks 0 but
      maps to low, which ranks 1. */
  lemma EscalateIsMaximum(alert: Severity, incident: Severity)
    requires alert in {Critical, High, Warning, Info} && IncidentScale(incident)
    ensures var s, m := Escalate(alert, incident), IncidentSeverity(alert);
            IncidentScale(s) && s == if Rank(m) > Rank(incident) then m else incident
  {
  }

  lemma AttachKeepsMaximum(db: Db, eventId: string, n: Normalized, now: Time, i: nat)
    requires Conserved(db) && SeverityIsMaximum(db) && i < |db.incidents|
             && n.severity in {Critical, High, Warning, Info}
    ensures SeverityIsMaximum(Attach(db, eventId, n, now, i))
  {
    var db' := Attach(db, eventId, n, now, i);
    var a := db'.alerts[|db.alerts|];
    forall j | 0 <= j < |db'.incidents| ensures IsHighest(db'.alerts, db'.incidents[j]) {
      var inc := db.incidents[j];
      assert IsHighest(db.alerts, inc);
      var top :| top in db.alerts && top.incidentId == inc.id && IncidentSeverity(top.severity) == inc.severity;
      assert top in db'.alerts && a in db'.alerts;
      if j == i {
        EscalateIsMaximum(n.severity, inc.severity);
      }
    }
  }

  lemma OpenKeepsMaximum(db: Db, eventId: string, n: Normalized, now: Time)
    requires Conserved(db) && SeverityIsMaximum(db)
    ensures SeverityIsMaximum(Open(db, eventId, n, now))
  {
    var db' := Open(db, eventId, n, now);
    var a := db'.alerts[|db.alerts|];
    assert a in db'.alerts;
    forall j | 0 <= j < |db.incidents| ensures IsHighest(db'.alerts, db'.incidents[j]) {
      var inc := db.incidents[j];
      assert IsHighest(db.alerts, inc);
      var top :| top in db.alerts && top.incidentId == inc.id && IncidentSeverity(top.severity) == inc.severity;
      assert top in db'.alerts;
    }
    NoAlertsYet(db, a.incidentId);
  }

  lemma FrameKeepsMaximum(db: Db, db': Db)
    requires SeverityIsMaximum(db) && db'.alerts == db.alerts && |db'.incidents| == |db.incidents|
    requires forall i :: 0 <= i < |db.incidents| ==>
               db'.incidents[i].id == db.incidents[i].id && db'.incidents[i].severity == db.incidents[i].severity
    ensures SeverityIsMaximum(db')
  {
    forall j | 0 <= j < |db'.incidents| ensures IsHighest(db'.alerts, db'.incidents[j]) {
      assert IsHighest(db.alerts, db.incidents[j]);
    }
  }

  lemma DeliveryKeepsMaximum(g: Graph, db: Db, e: RawEvent, now: Time, pick: nat)
    requires Conserved(db) && SeverityIsMaximum(db)
    ensures SeverityIsMaximum(Handle(g, db, e, now, pick))
  {
    if Effective(e) && EventId(e) !in db.processed {
      var n := Normalize(e).value;
      if !IsDuplicateAlert(db.alerts, n.fingerprint, now) {
        match FindOpenIncident(db.incidents, Related(g, n.service), n.namespace, now, pick)
        case Some(i) => AttachKeepsMaximum(db, EventId(e), n, now, i);
        case None => OpenKeepsMaximum(db, EventId(e), n, now);
      }
    }
  }

  lemma StepKeepsMaximum(g: Graph, db: Db, step: Step)
    requires Conserved(db) && SeverityIsMaximum(db)
    ensures SeverityIsMaximum(Apply(g, db, step))
  {
    match step
    case Deliver(e, now, pick) => DeliveryKeepsMaximum(g, db, e, now, pick);
    case Transition(id, kind) => FrameKeepsMaximum(db, Apply(g, db, step));
  }

  /** Incremental escalation equals the plain maximum in every reachable state. */
  lemma {:induction false} SeverityTheorem(g: Graph, steps: seq<Step>)
    ensures SeverityIsMaximum(Run(g, steps))
  {
    if steps != [] {
      SeverityTheorem(g, steps[..|steps| - 1]);
      RunConserves(g, steps[..|steps| - 1]);
      StepKeepsMaximum(g, Run(g, steps[..|steps| - 1]), steps[|steps| - 1]);
    }
  }

  // ---------------------------------------------------------------- the timeline as a log

  function KindsOf(timeline: seq<TimelineRow>, incident: Id): seq<TimelineKind> {
    if timeline == [] then []
    else
      var before := KindsOf(timeline[..|timeline| - 1], incident);
      if timeline[|timeline| - 1].incidentId == incident then before + [timeline[|timeline| - 1].kind] else before
  }

  /** Folding the incident's timeline gives its status. */
  ghost predicate LogAgrees(db: Db) {
    forall i :: 0 <= i < |db.incidents| ==>
      Fold(KindsOf(db.timeline, db.incidents[i].id)) == Some(db.incidents[i].status)
  }

  lemma FoldOfAppend(timeline: seq<TimelineRow>, row: TimelineRow, incident: Id)
    ensures Fold(KindsOf(timeline + [row], incident)) ==
            if row.incidentId == incident then StatusAfter(row.kind, Fold(KindsOf(timeline, incident)))
            else Fold(KindsOf(timeline, incident))
  {
    assert (timeline + [row])[..|timeline|] == timeline;
    FoldAppend(KindsOf(timeline, incident), row.kind);
  }

  /** Appending `row` keeps the log exact when it says what happened to its incident and nothing
      happened to the others. */
  lemma RowKeepsLog(db: Db, db': Db, row: TimelineRow)
    requires LogAgrees(db) && db'.timeline == db.timeline + [row] && |db'.incidents| == |db.incidents|
    requires forall i :: 0 <= i < |db.incidents| ==>
               var (inc, inc') := (db.incidents[i], db'.incidents[i]);
               && inc'.id == inc.id
               && Some(inc'.status)
                  == if inc.id == row.incidentId then StatusAfter(row.kind, Some(inc.status)) else Some(inc.status)
    ensures LogAgrees(db')
  {
    forall i | 0 <= i < |db'.incidents|
      ensures Fold(KindsOf(db'.timeline, db'.incidents[i].id)) == Some(db'.incidents[i].status)
    {
      assert Fold(KindsOf(db.timeline, db.incidents[i].id)) == Some(db.incidents[i].status);
      FoldOfAppend(db.timeline, row, db.incidents[i].id);
    }
  }

  lemma OpenKeepsLog(db: Db, eventId: string, n: Normalized, now: Time)
    requires LogAgrees(db) && forall i :: 0 <= i < |db.incidents| ==> db.incidents[i].id < db.next
    ensures LogAgrees(Open(db, eventId, n, now))
  {
    var db' := Open(db, eventId, n, now);
    var row := db'.timeline[|db.timeline|];
    forall i | 0 <= i < |db'.incidents|
      ensures Fold(KindsOf(db'.timeline, db'.incidents[i].id)) == Some(db'.incidents[i].status)
    {
      FoldOfAppend(db.timeline, row, db'.incidents[i].id);
      if i < |db.incidents| {
        assert Fold(KindsOf(db.timeline, db.incidents[i].id)) == Some(db.incidents[i].status);
      }
    }
  }

  lemma DeliveryKeepsLog(g: Graph, db: Db, e: RawEvent, now: Time, pick: nat)
    requires Conserved(db) && LogAgrees(db)
    ensures LogAgrees(Handle(g, db, e, now, pick))
  {
    if Effective(e) && EventId(e) !in db.processed {
      var n := Normalize(e).value;
      if !IsDuplicateAlert(db.alerts, n.fingerprint, now) {
        match FindOpenIncident(db.incidents, Related(g, n.service), n.namespace, now, pick)
        case Some(i) =>
          var db' := Attach(db, EventId(e), n, now, i);
          RowKeepsLog(db, db', db'.timeline[|db.timeline|]);
        case None => OpenKeepsLog(db, EventId(e), n, now);
      }
    }
  }

  lemma StepKeepsLog(g: Graph, db: Db, step: Step)
    requires Conserved(db) && LogAgrees(db)
    ensures LogAgrees(Apply(g, db, step))
  {
    match step
    case Deliver(e, now, pick) => DeliveryKeepsLog(g, db, e, now, pick);
    case Transition(id, kind) =>
      if HasIncident(db.incidents, id) && Foreign(kind) {
        RowKeepsLog(db, Apply(g, db, step), TimelineRow(id, kind));
      }
  }

  /** The timeline is an exact log of every incident's status, whatever alerts are correlated and
      whatever the workflow commits in between. */
  lemma {:induction false} LogTheorem(g: Graph, steps: seq<Step>)
    ensures LogAgrees(Run(g, steps))
  {
    if steps != [] {
      LogTheorem(g, steps[..|steps| - 1]);
      RunConserves(g, steps[..|steps| - 1]);
      StepKeepsLog(g, Run(g, steps[..|steps| - 1]), steps[|steps| - 1]);
    }
  }

  // ---------------------------------------------------------------- the timeline and the alerts

  function CorrelatedIn(kinds: seq<TimelineKind>): seq<Id> {
    if kinds == [] then []
    else
      var before, last := CorrelatedIn(kinds[..|kinds| - 1]), kinds[|kinds| - 1];
      if last.ALERT_CORRELATED? then before + [last.alertId] else before
  }

  /** The timeline starts with the one creation row, and its correlation rows name the further alerts. */
  ghost predicate Tells(kinds: seq<TimelineKind>, ids: seq<Id>) {
    && kinds != [] && kinds[0] == INCIDENT_CREATED
    && (forall k :: 1 <= k < |kinds| ==> kinds[k] != INCIDENT_CREATED)
    && ids != [] && CorrelatedIn(kinds) == ids[1..]
  }

  ghost predicate TimelineTells(db: Db) {
    forall i :: 0 <= i < |db.incidents| ==> Tells(KindsOf(db.timeline, db.incidents[i].id), db.incidents[i].alertIds)
  }

  lemma KindsOfAppend(timeline: seq<TimelineRow>, row: TimelineRow, incident: Id)
    ensures KindsOf(timeline + [row], incident)
            == KindsOf(timeline, incident) + if row.incidentId == incident then [row.kind] else []
  {
    assert (timeline + [row])[..|timeline|] == timeline;
  }

  lemma {:induction false} KindsOfNone(timeline: seq<TimelineRow>, incident: Id)
    requires forall row :: row in timeline ==> row.incidentId != incident
    ensures KindsOf(timeline, incident) == []
  {
    if timeline != [] { KindsOfNone(timeline[..|timeline| - 1], incident); }
  }

  lemma TellsMore(kinds: seq<TimelineKind>, ids: seq<Id>, kind: TimelineKind)
    requires Tells(kinds, ids) && kind != INCIDENT_CREATED
    ensures Tells(kinds + [kind], ids + if kind.ALERT_CORRELATED? then [kind.alertId] else [])
  {
    assert (kinds + [kind])[..|kinds|] == kinds;
  }

  /** Appending `row` keeps the story when it names what its incident gained and the others gained nothing. */
  lemma RowKeepsStory(db: Db, db': Db, row: TimelineRow)
    requires TimelineTells(db) && db'.timeline == db.timeline + [row] && |db'.incidents| == |db.incidents|
    requires row.kind != INCIDENT_CREATED
    requires forall i :: 0 <= i < |db.incidents| ==>
               var (inc, inc') := (db.incidents[i], db'.incidents[i]);
               && inc'.id == inc.id
               && inc'.alertIds
                  == inc.alertIds
                     + if inc.id == row.incidentId && row.kind.ALERT_CORRELATED? then [row.kind.alertId] else []
    ensures TimelineTells(db')
  {
    forall i | 0 <= i < |db'.incidents|
      ensures Tells(KindsOf(db'.timeline, db'.incidents[i].id), db'.incidents[i].alertIds)
    {
      var inc := db.incidents[i];
      KindsOfAppend(db.timeline, row, inc.id);
      TellsMore(KindsOf(db.timeline, inc.id), inc.alertIds, row.kind);
    }
  }

  lemma OpenKeepsStory(db: Db, eventId: string, n: Normalized, now: Time)
    requires Conserved(db) && TimelineTells(db)
    ensures TimelineTells(Open(db, eventId, n, now))
  {
    var db' := Open(db, eventId, n, now);
    var row := TimelineRow(db.next + 1, INCIDENT_CREATED);
    KindsOfNone(db.timeline, db.next + 1);
    forall i | 0 <= i < |db'.incidents|
      ensures Tells(KindsOf(db'.timeline, db'.incidents[i].id), db'.incidents[i].alertIds)
    {
      KindsOfAppend(db.timeline, row, db'.incidents[i].id);
    }
  }

  lemma DeliveryKeepsStory(g: Graph, db: Db, e: RawEvent, now: Time, pick: nat)
    requires Conserved(db) && TimelineTells(db)
    ensures TimelineTells(Handle(g, db, e, now, pick))
  {
    if Effective(e) && EventId(e) !in db.processed {
      var n := Normalize(e).value;
      if !IsDuplicateAlert(db.alerts, n.fingerprint, now) {
        match FindOpenIncident(db.incidents, Related(g, n.service), n.namespace, now, pick)
        case Some(i) =>
          RowKeepsStory(db, Attach(db, EventId(e), n, now, i),
                        TimelineRow(db.incidents[i].id, ALERT_CORRELATED(db.next)));
        case None => OpenKeepsStory(db, EventId(e), n, now);
      }
    }
  }

  /** In every serial run each incident's timeline has one creation row, its first, and one correlation row
      for each further alert, in the order of alert_ids. */
  lemma {:induction false} TimelineTheorem(g: Graph, steps: seq<Step>)
    ensures TimelineTells(Run(g, steps))
  {
    if steps != [] {
      var db, step := Run(g, steps[..|steps| - 1]), steps[|steps| - 1];
      TimelineTheorem(g, steps[..|steps| - 1]);
      RunConserves(g, steps[..|steps| - 1]);
      match step
      case Deliver(e, now, pick) => DeliveryKeepsStory(g, db, e, now, pick);
      case Transition(id, kind) =>
        if HasIncident(db.incidents, id) && Foreign(kind) {
          RowKeepsStory(db, Apply(g, db, step), TimelineRow(id, kind));
        }
    }
  }
}
