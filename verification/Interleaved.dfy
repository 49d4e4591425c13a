/** What holds of the tables under any interleaving of correlators: the timeline is an exact log, it tells of every
    alert, and every incident is announced exactly once. Also when an incident's severity survives. */
module Interleaved {
  import opened Schema
  import opened Correlator
  import opened Conservation
  import opened Workers
  import opened Freshness

  // ---------------------------------------------------------------- writes

  /** What an action writes, beside processed marks. */
  datatype Write =
    | Nothing
    | Attached(eventId: string, n: Normalized, now: Time, index: nat, read: Incident)
    | Opened(eventId: string, n: Normalized, now: Time)
    | Logged(incident: Id, row: TimelineKind)

  function WriteOf(s: System, a: Action): Write {
    match a
    case Commit(w, now) =>
      if w !in s.workers || EventId(s.workers[w].event) in s.db.processed || !Effective(s.workers[w].event) then Nothing
      else (
        match s.workers[w]
        case FoundIncident(e, i, read) =>
          if i < |s.db.incidents| then Attached(EventId(e), Normalize(e).value, now, i, read) else Nothing
        case NoIncident(e) => Opened(EventId(e), Normalize(e).value, now)
        case _ => Nothing)
    case MoveIncident(id, kind) =>
      if HasIncident(s.db.incidents, id) && Foreign(kind) then Logged(id, kind) else Nothing
    case _ => Nothing
  }

  function Written(db: Db, w: Write): Db
    requires w.Attached? ==> w.index < |db.incidents|
  {
    match w
    case Nothing => db
    case Attached(id, n, now, i, read) => CommitAttach(db, id, n, now, i, read)
    case Opened(id, n, now) => Open(db, id, n, now)
    case Logged(id, kind) =>
      db.(incidents := Move(db.incidents, id, kind), timeline := db.timeline + [TimelineRow(id, kind)])
  }

  lemma StepWrites(g: Graph, s: System, a: Action)
    ensures var db := Next(g, s, a).db; db == Written(s.db, WriteOf(s, a)).(processed := db.processed)
  {
  }

  /** The write is one that a step may make on these tables. */
  ghost predicate Sensible(db: Db, w: Write) {
    && Numbered(db)
    && (w.Attached? ==> Remembers(db, w.index, w.read) && w.n.severity in {Critical, High, Warning, Info})
    && (w.Opened? ==> w.n.severity in {Critical, High, Warning, Info})
    && (w.Logged? ==> HasIncident(db.incidents, w.incident) && Foreign(w.row))
  }

  lemma StepIsSensible(s: System, a: Action)
    requires Sane(s)
    ensures Sensible(s.db, WriteOf(s, a))
  {
  }

  // ---------------------------------------------------------------- the timeline

  /** The timeline of incident i starts with its creation and names its further alerts, listed or not. */
  ghost predicate Told(db: Db, i: nat)
    requires i < |db.incidents|
  {
    Tells(KindsOf(db.timeline, db.incidents[i].id), IdsOf(db.alerts, db.incidents[i].id))
  }

  ghost predicate AllTold(db: Db) {
    && (forall i :: 0 <= i < |db.incidents| ==> Told(db, i))
    && (forall row :: row in db.timeline ==> row.incidentId < db.next)
  }

  lemma WriteKeepsLog(db: Db, w: Write)
    requires Sensible(db, w) && LogAgrees(db)
    ensures LogAgrees(Written(db, w))
  {
    match w
    case Attached(id, n, now, i, read) =>
      RowKeepsLog(db, Written(db, w), TimelineRow(read.id, ALERT_CORRELATED(db.next)));
    case Opened(id, n, now) => OpenKeepsLog(db, id, n, now);
    case Logged(id, kind) => RowKeepsLog(db, Written(db, w), TimelineRow(id, kind));
    case Nothing =>
  }

  lemma AttachTells(db: Db, w: Write)
    requires Sensible(db, w) && w.Attached? && AllTold(db)
    ensures AllTold(Written(db, w))
  {
    var db' := Written(db, w);
    var row := TimelineRow(w.read.id, ALERT_CORRELATED(db.next));
    forall i | 0 <= i < |db'.incidents| ensures Told(db', i) {
      var id := db.incidents[i].id;
      assert Told(db, i);
      KindsOfAppend(db.timeline, row, id);
      IdsOfAppend(db.alerts, db'.alerts[|db.alerts|], id);
      if id == w.read.id { TellsMore(KindsOf(db.timeline, id), IdsOf(db.alerts, id), row.kind); }
    }
  }

  lemma JustCreated(alert: Id)
    ensures Tells([INCIDENT_CREATED], [alert])
  {
    assert [INCIDENT_CREATED][..0] == [] && CorrelatedIn([INCIDENT_CREATED]) == [];
  }

  lemma OpenTellsNew(db: Db, w: Write)
    requires Sensible(db, w) && w.Opened? && AllTold(db)
    ensures Told(Written(db, w), |db.incidents|)
  {
    var db', added := Written(db, w), db.next + 1;
    assert KindsOf(db'.timeline, added) == [INCIDENT_CREATED] by {
      KindsOfNone(db.timeline, added);
      KindsOfAppend(db.timeline, TimelineRow(added, INCIDENT_CREATED), added);
    }
    assert IdsOf(db'.alerts, added) == [db.next] by {
      IdsOfNone(db.alerts, added);
      IdsOfAppend(db.alerts, db'.alerts[|db.alerts|], added);
    }
    JustCreated(db.next);
  }

  lemma OpenTells(db: Db, w: Write)
    requires Sensible(db, w) && w.Opened? && AllTold(db)
    ensures AllTold(Written(db, w))
  {
    var db' := Written(db, w);
    OpenTellsNew(db, w);
    forall i | 0 <= i < |db.incidents| ensures Told(db', i) {
      assert Told(db, i);
      KindsOfAppend(db.timeline, TimelineRow(db.next + 1, INCIDENT_CREATED), db.incidents[i].id);
      IdsOfAppend(db.alerts, db'.alerts[|db.alerts|], db.incidents[i].id);
    }
  }

  lemma LogTells(db: Db, w: Write)
    requires Sensible(db, w) && w.Logged? && AllTold(db)
    ensures AllTold(Written(db, w))
  {
    var db' := Written(db, w);
    forall i | 0 <= i < |db'.incidents| ensures Told(db', i) {
      var id := db.incidents[i].id;
      assert Told(db, i);
      KindsOfAppend(db.timeline, TimelineRow(w.incident, w.row), id);
      if id == w.incident { TellsMore(KindsOf(db.timeline, id), IdsOf(db.alerts, id), w.row); }
    }
  }

  // ---------------------------------------------------------------- announcements

  /** The outbox row that announces the creation of an incident. */
  ghost predicate CreationRow(db: Db, i: nat, incident: Id) {
    i < |db.outbox| && db.outbox[i].topic == INCIDENTS_CREATED && db.outbox[i].incidentId == incident
  }

  ghost predicate HasCreation(db: Db, incident: Id) {
    exists i: nat :: CreationRow(db, i, incident)
  }

  ghost predicate Heralded(db: Db) {
    && (forall i :: 0 <= i < |db.outbox| ==> db.outbox[i].eventId < db.next)
    && (forall i, j :: 0 <= i < j < |db.outbox| ==> db.outbox[i].eventId != db.outbox[j].eventId)
    && (forall i :: 0 <= i < |db.outbox| ==> HasIncident(db.incidents, db.outbox[i].incidentId))
    && (forall i: nat, j: nat, id: Id :: CreationRow(db, i, id) && CreationRow(db, j, id) ==> i == j)
    && (forall k :: 0 <= k < |db.incidents| ==> HasCreation(db, db.incidents[k].id))
  }

  lemma CreationsStay(db: Db, w: Write, k: nat)
    requires Sensible(db, w) && Heralded(db) && k < |Written(db, w).incidents|
    ensures HasCreation(Written(db, w), Written(db, w).incidents[k].id)
  {
    var db' := Written(db, w);
    if k < |db.incidents| {
      assert HasCreation(db, db.incidents[k].id);
      var i: nat :| CreationRow(db, i, db.incidents[k].id);
      assert CreationRow(db', i, db'.incidents[k].id);
    } else {
      assert CreationRow(db', |db.outbox|, db'.incidents[k].id);
    }
  }

  lemma RowsNameIncidents(db: Db, w: Write, i: nat)
    requires Sensible(db, w) && Heralded(db) && i < |Written(db, w).outbox|
    ensures HasIncident(Written(db, w).incidents, Written(db, w).outbox[i].incidentId)
  {
    var db' := Written(db, w);
    if i < |db.outbox| {
      assert HasIncident(db.incidents, db.outbox[i].incidentId);
      var inc :| inc in db.incidents && inc.id == db.outbox[i].incidentId;
      var k :| 0 <= k < |db.incidents| && db.incidents[k] == inc;
      assert db'.incidents[k] in db'.incidents && db'.incidents[k].id == inc.id;
    } else {
      var k := if w.Attached? then w.index else |db.incidents|;
      assert db'.incidents[k] in db'.incidents;
    }
  }

  lemma CreationsAreSingle(db: Db, w: Write)
    requires Sensible(db, w) && Heralded(db)
    ensures var db' := Written(db, w);
            forall i: nat, j: nat, id: Id :: CreationRow(db', i, id) && CreationRow(db', j, id) ==> i == j
  {
    var db' := Written(db, w);
    forall i: nat, id: Id | i < |db.outbox| && CreationRow(db', i, id) ensures CreationRow(db, i, id) && id < db.next {
      assert HasIncident(db.incidents, db.outbox[i].incidentId);
    }
  }

  lemma EventIdsStayDistinct(db: Db, w: Write)
    requires Sensible(db, w) && Heralded(db)
    ensures var db' := Written(db, w);
            && (forall i :: 0 <= i < |db'.outbox| ==> db'.outbox[i].eventId < db'.next)
            && (forall i, j :: 0 <= i < j < |db'.outbox| ==> db'.outbox[i].eventId != db'.outbox[j].eventId)
  {
  }

  lemma WriteHeralds(db: Db, w: Write)
    requires Sensible(db, w) && Heralded(db)
    ensures Heralded(Written(db, w))
  {
    var db' := Written(db, w);
    EventIdsStayDistinct(db, w);
    CreationsAreSingle(db, w);
    forall i | 0 <= i < |db'.outbox| ensures HasIncident(db'.incidents, db'.outbox[i].incidentId) {
      RowsNameIncidents(db, w, i);
    }
    forall k | 0 <= k < |db'.incidents| ensures HasCreation(db', db'.incidents[k].id) {
      CreationsStay(db, w, k);
    }
  }

  // ---------------------------------------------------------------- every run

  ghost predicate Sound(db: Db) {
    LogAgrees(db) && AllTold(db) && Heralded(db)
  }

  lemma WriteKeepsSound(db: Db, w: Write)
    requires Sensible(db, w) && Sound(db)
    ensures Sound(Written(db, w))
  {
    WriteKeepsLog(db, w);
    WriteHeralds(db, w);
    match w
    case Attached(_, _, _, _, _) => AttachTells(db, w);
    case Opened(_, _, _) => OpenTells(db, w);
    case Logged(_, _) => LogTells(db, w);
    case Nothing =>
  }

  lemma MarksDoNotMatter(db: Db, processed: set<string>)
    requires Sound(db)
    ensures Sound(db.(processed := processed))
  {
    var db' := db.(processed := processed);
    assert forall i: nat, id: Id :: CreationRow(db', i, id) <==> CreationRow(db, i, id);
    forall k | 0 <= k < |db.incidents| ensures HasCreation(db', db'.incidents[k].id) {
      assert HasCreation(db, db.incidents[k].id);
      var i: nat :| CreationRow(db, i, db.incidents[k].id);
      assert CreationRow(db', i, db.incidents[k].id);
    }
    assert forall i :: 0 <= i < |db.incidents| ==> (Told(db', i) <==> Told(db, i));
  }

  /** In every concurrent run: folding each timeline gives its incident's status; the timeline starts with the one
      creation row and names every further alert of the incident in order, also those that its list has lost; and
      the outbox announces the creation of each incident exactly once. */
  lemma {:induction false} InterleavedTheorem(g: Graph, actions: seq<Action>)
    ensures Sound(Execute(g, actions).db)
  {
    if actions != [] {
      var s, a := Execute(g, actions[..|actions| - 1]), actions[|actions| - 1];
      InterleavedTheorem(g, actions[..|actions| - 1]);
      RunIsSane(g, actions[..|actions| - 1]);
      StepIsSensible(s, a);
      WriteKeepsSound(s.db, WriteOf(s, a));
      MarksDoNotMatter(Written(s.db, WriteOf(s, a)), Next(g, s, a).db.processed);
      StepWrites(g, s, a);
    }
  }

  // ---------------------------------------------------------------- severity

  /** Some alert of incident i maps to this severity. */
  ghost predicate Attested(db: Db, i: nat, severity: Severity) {
    i < |db.incidents| &&
    exists a :: a in db.alerts && a.incidentId == db.incidents[i].id && IncidentSeverity(a.severity) == severity
  }

  ghost predicate Graded(s: System) {
    && (forall a :: a in s.db.alerts ==> a.severity in {Critical, High, Warning, Info})
    && (forall i :: 0 <= i < |s.db.incidents| ==> Attested(s.db, i, s.db.incidents[i].severity))
    && (forall w :: w in s.workers && s.workers[w].FoundIncident? ==>
          Attested(s.db, s.workers[w].index, s.workers[w].read.severity))
  }

  lemma AttestedStays(db: Db, w: Write, i: nat, severity: Severity)
    requires Sensible(db, w) && Attested(db, i, severity)
    ensures Attested(Written(db, w), i, severity)
  {
    var db' := Written(db, w);
    var a :| a in db.alerts && a.incidentId == db.incidents[i].id && IncidentSeverity(a.severity) == severity;
    assert a in db'.alerts && db'.incidents[i].id == db.incidents[i].id;
  }

  /** The severity of the incident that a write names comes from the new alert or was there before. */
  lemma WriteAttests(db: Db, w: Write, i: nat)
    requires Sensible(db, w) && i < |Written(db, w).incidents|
    requires i < |db.incidents| ==> Attested(db, i, db.incidents[i].severity)
    ensures Attested(Written(db, w), i, Written(db, w).incidents[i].severity)
  {
    var db' := Written(db, w);
    if i < |db.incidents| { AttestedStays(db, w, i, db.incidents[i].severity); }
    if |db'.alerts| > |db.alerts| { assert db'.alerts[|db.alerts|] in db'.alerts; }
  }

  /** A worker that holds an incident after a step held it before, or has just read it. */
  lemma HeldBefore(g: Graph, s: System, a: Action, w: nat)
    requires w in Next(g, s, a).workers && Next(g, s, a).workers[w].FoundIncident?
    ensures var p := Next(g, s, a).workers[w];
            (w in s.workers && s.workers[w] == p)
            || (WriteOf(s, a).Nothing? && p.index < |s.db.incidents| && p.read == s.db.incidents[p.index])
  {
  }

  lemma StepKeepsGrades(g: Graph, s: System, a: Action)
    requires Sane(s) && Graded(s)
    ensures Graded(Next(g, s, a))
  {
    var s', w := Next(g, s, a), WriteOf(s, a);
    StepWrites(g, s, a);
    StepIsSensible(s, a);
    var db := Written(s.db, w);
    forall i | 0 <= i < |db.incidents| ensures Attested(s'.db, i, s'.db.incidents[i].severity) {
      WriteAttests(s.db, w, i);
      assert Attested(db, i, db.incidents[i].severity);
    }
    forall v | v in s'.workers && s'.workers[v].FoundIncident?
      ensures Attested(s'.db, s'.workers[v].index, s'.workers[v].read.severity)
    {
      HeldBefore(g, s, a, v);
      AttestedStays(s.db, w, s'.workers[v].index, s'.workers[v].read.severity);
      assert Attested(db, s'.workers[v].index, s'.workers[v].read.severity);
    }
  }

  lemma {:induction false} RunIsGraded(g: Graph, actions: seq<Action>)
    ensures Graded(Execute(g, actions))
  {
    if actions != [] {
      RunIsGraded(g, actions[..|actions| - 1]);
      RunIsSane(g, actions[..|actions| - 1]);
      StepKeepsGrades(g, Execute(g, actions[..|actions| - 1]), actions[|actions| - 1]);
    }
  }

  /** The write overwrites the severity of incident i. */
  predicate Overwrites(w: Write, i: nat) {
    w.Attached? && w.index == i && Rank(w.n.severity) > Rank(w.read.severity)
  }

  /** No alert of incident i ranks above this one. */
  ghost predicate Tops(db: Db, i: nat, severity: Severity)
    requires i < |db.incidents|
  {
    forall a :: a in db.alerts && a.incidentId == db.incidents[i].id ==>
      Rank(IncidentSeverity(a.severity)) <= Rank(IncidentSeverity(severity))
  }

  ghost predicate Highest(db: Db, i: nat)
    requires i < |db.incidents|
  {
    IsHighest(db.alerts, db.incidents[i])
  }

  /** One write: overwriting makes the severity the highest exactly when no alert ranks above the new one, and any
      other write leaves it the highest exactly when it was. */
  lemma WriteHighest(db: Db, w: Write, i: nat)
    requires Sensible(db, w) && i < |db.incidents| && Attested(db, i, db.incidents[i].severity)
    requires w.Attached? && w.index == i ==> Attested(db, i, w.read.severity)
    requires forall a :: a in db.alerts ==> a.severity in {Critical, High, Warning, Info}
    ensures Highest(Written(db, w), i) <==> if Overwrites(w, i) then Tops(db, i, w.n.severity) else Highest(db, i)
  {
    var db' := Written(db, w);
    WriteAttests(db, w, i);
    assert forall a :: a in db.alerts ==> a in db'.alerts;
    if |db'.alerts| > |db.alerts| {
      var added := db'.alerts[|db.alerts|];
      assert db'.alerts == db.alerts + [added];
      assert added in db'.alerts;
    }
  }

  lemma OpenedIsHighest(db: Db, w: Write)
    requires Sensible(db, w) && w.Opened?
    ensures Highest(Written(db, w), |db.incidents|)
  {
    var db' := Written(db, w);
    assert db'.alerts == db.alerts + [db'.alerts[|db.alerts|]];
    assert db'.alerts[|db.alerts|] in db'.alerts;
  }

  /** The last commit that wrote the severity of incident i, if any, did so for an alert that none of the incident's
      alerts ranked above. */
  ghost predicate LastOverwriteTops(g: Graph, actions: seq<Action>, i: nat) {
    actions == [] ||
    var s := Execute(g, actions[..|actions| - 1]);
    var w := WriteOf(s, actions[|actions| - 1]);
    if i >= |s.db.incidents| then true
    else if Overwrites(w, i) then Tops(s.db, i, w.n.severity)
    else LastOverwriteTops(g, actions[..|actions| - 1], i)
  }

  lemma StepHighest(g: Graph, s: System, a: Action, i: nat)
    requires Sane(s) && Graded(s) && i < |Next(g, s, a).db.incidents|
    ensures Highest(Next(g, s, a).db, i)
            <==> if i >= |s.db.incidents| then true
                 else if Overwrites(WriteOf(s, a), i) then Tops(s.db, i, WriteOf(s, a).n.severity)
                 else Highest(s.db, i)
  {
    var w := WriteOf(s, a);
    StepWrites(g, s, a);
    StepIsSensible(s, a);
    if i >= |s.db.incidents| {
      OpenedIsHighest(s.db, w);
    } else {
      WriteHighest(s.db, w, i);
    }
  }

  /** Under any interleaving, an incident's severity is the highest among its alerts if and only if the last commit
      that overwrote it was for a highest alert. Unlike a list, it can recover. */
  lemma {:induction false} HighestExactlyWhenLastOverwriteTops(g: Graph, actions: seq<Action>, i: nat)
    requires i < |Execute(g, actions).db.incidents|
    ensures Highest(Execute(g, actions).db, i) <==> LastOverwriteTops(g, actions, i)
  {
    var init, last := actions[..|actions| - 1], actions[|actions| - 1];
    RunIsSane(g, init);
    RunIsGraded(g, init);
    StepHighest(g, Execute(g, init), last, i);
    if i < |Execute(g, init).db.incidents| { HighestExactlyWhenLastOverwriteTops(g, init, i); }
  }

  /** A critical alert is forgotten: two workers read an incident of low or medium severity, one commits a critical
      alert, and the other then a high one. */
  lemma CriticalIsOverwritten(g: Graph, e0: RawEvent, e1: RawEvent, e2: RawEvent, now: Time)
    requires Siblings(e0, e1, e2) && Normalize(e0).value.severity in {Warning, Info}
    requires Normalize(e1).value.severity == Critical && Normalize(e2).value.severity == High
    ensures var db := Execute(g, TwoReaders(e0, e1, e2, now) + [Commit(1, now), Commit(2, now)]).db;
            |db.incidents| == 1 && db.incidents[0].severity == High && !Highest(db, 0)
  {
    var actions := TwoReaders(e0, e1, e2, now);
    RunThenTwo(g, actions, Commit(1, now), Commit(2, now));
    TwoReadersRead(g, e0, e1, e2, now);
    HighOverCritical(g, Execute(g, actions), EventId(e0), Normalize(e0).value, e1, e2, now);
  }

  lemma HighOverCritical(g: Graph, s: System, id: string, n: Normalized, e1: RawEvent, e2: RawEvent, now: Time)
    requires Effective(e1) && Effective(e2) && id != EventId(e1) && id != EventId(e2) && EventId(e1) != EventId(e2)
    requires s.db == Open(EMPTY_DB, id, n, now) && n.severity in {Warning, Info}
    requires Normalize(e1).value.severity == Critical && Normalize(e2).value.severity == High
    requires s.workers
             == map[1 := FoundIncident(e1, 0, s.db.incidents[0]), 2 := FoundIncident(e2, 0, s.db.incidents[0])]
    ensures var db := Next(g, Next(g, s, Commit(1, now)), Commit(2, now)).db;
            |db.incidents| == 1 && db.incidents[0].severity == High && !Highest(db, 0)
  {
    var s1 := Next(g, s, Commit(1, now));
    CommitAttaches(g, s, 1, now);
    assert s1.workers[2] == FoundIncident(e2, 0, s.db.incidents[0]);
    CommitAttaches(g, s1, 2, now);
    var db := Next(g, s1, Commit(2, now)).db;
    assert db.alerts[1].severity == Critical && db.alerts[1] in db.alerts;
    assert db.alerts[1].incidentId == db.incidents[0].id;
  }
}
