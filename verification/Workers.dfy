/** Any number of correlator workers on one database, under read-committed isolation: each query of a
    transaction reads the tables as they are then, and the commit re-checks only the constraints.
    Kafka may redeliver any event at any time, and a worker may crash at any point, also between its
    database commit and its offset commit. */
module Workers {
  import opened Schema
  import opened Correlator
  import opened Conservation

  /** How far a worker's transaction has come, with what it has read. */
  datatype Phase =
    | Begun(event: RawEvent)
    | NotProcessed(event: RawEvent)
    | FoundTwin(event: RawEvent)
    | NoTwin(event: RawEvent)
    | FoundIncident(event: RawEvent, index: nat, read: Incident)
    | NoIncident(event: RawEvent)

  /** What one commit did. The log of commits is a history variable. */
  datatype Effect =
    | Suppression(eventId: string)
    | Saving(eventId: string, alert: Alert, row: OutboxRow, created: seq<Id>)

  datatype System = System(db: Db, workers: map<nat, Phase>, log: seq<Effect>)

  const START := System(EMPTY_DB, map[], [])

  datatype Action =
    | Begin(worker: nat, event: RawEvent)
    | ReadProcessed(worker: nat)
    | ReadTwin(worker: nat, now: Time)
    | ReadIncident(worker: nat, now: Time, pick: nat)
    | Commit(worker: nat, now: Time)
    | Crash(worker: nat)
    | MoveIncident(incident: Id, row: TimelineKind)

  /** Write back an incident read earlier: alert_ids is overwritten with the list that was read plus
      the new alert, severity only if it escalates over the one that was read. */
  function CommitAttach(db: Db, eventId: string, n: Normalized, now: Time, i: nat, read: Incident): Db
    requires i < |db.incidents|
  {
    var alertIds := read.alertIds + [db.next];
    var inc := db.incidents[i];
    var severity := if Rank(n.severity) > Rank(read.severity) then IncidentSeverity(n.severity) else inc.severity;
    Db(db.alerts + [Alert(db.next, read.id, n.service, n.namespace, n.severity, n.status, n.fingerprint, now)],
       db.incidents[i := inc.(alertIds := alertIds, severity := severity)],
       db.timeline + [TimelineRow(read.id, ALERT_CORRELATED(db.next))],
       db.outbox + [OutboxRow(INCIDENTS_UPDATED, db.next + 1, read.id, read.status, alertIds, now)],
       db.processed + {eventId},
       db.next + 2)
  }

  function EffectOf(eventId: string, before: Db, after: Db): Effect
    requires |after.alerts| == |before.alerts| + 1 && |after.outbox| == |before.outbox| + 1
    requires |before.incidents| <= |after.incidents|
  {
    var created := after.incidents[|before.incidents|..];
    Saving(eventId, after.alerts[|before.alerts|], after.outbox[|before.outbox|],
           seq(|created|, i requires 0 <= i < |created| => created[i].id))
  }

  function Next(g: Graph, s: System, a: Action): System {
    match a
    case Begin(w, e) =>
      if w !in s.workers && Effective(e) then s.(workers := s.workers[w := Begun(e)]) else s
    case ReadProcessed(w) =>
      if w in s.workers && s.workers[w].Begun? then
        var e := s.workers[w].event;
        if EventId(e) in s.db.processed then s.(workers := s.workers - {w})
        else s.(workers := s.workers[w := NotProcessed(e)])
      else s
    case ReadTwin(w, now) =>
      if w in s.workers && s.workers[w].NotProcessed? && Effective(s.workers[w].event) then
        var e := s.workers[w].event;
        if IsDuplicateAlert(s.db.alerts, Normalize(e).value.fingerprint, now)
        then s.(workers := s.workers[w := FoundTwin(e)])
        else s.(workers := s.workers[w := NoTwin(e)])
      else s
    case ReadIncident(w, now, pick) =>
      if w in s.workers && s.workers[w].NoTwin? && Effective(s.workers[w].event) then
        var e := s.workers[w].event;
        var n := Normalize(e).value;
        match FindOpenIncident(s.db.incidents, Related(g, n.service), n.namespace, now, pick)
        case Some(i) => s.(workers := s.workers[w := FoundIncident(e, i, s.db.incidents[i])])
        case None => s.(workers := s.workers[w := NoIncident(e)])
      else s
    case Commit(w, now) => if w in s.workers then CommitWorker(s, w, now) else s
    case Crash(w) => s.(workers := s.workers - {w})
    case MoveIncident(id, kind) => s.(db := Apply(g, s.db, Transition(id, kind)))
  }

  /** A second processed mark for the event violates its key and rolls the transaction back. */
  function CommitWorker(s: System, w: nat, now: Time): System
    requires w in s.workers
  {
    var phase := s.workers[w];
    var id := EventId(phase.event);
    var workers := s.workers - {w};
    match phase
    case FoundTwin(e) =>
      if id in s.db.processed then s.(workers := workers)
      else System(s.db.(processed := s.db.processed + {id}), workers, s.log + [Suppression(id)])
    case FoundIncident(e, i, read) =>
      if id in s.db.processed || i >= |s.db.incidents| || !Effective(e) then s.(workers := workers)
      else
        var db := CommitAttach(s.db, id, Normalize(e).value, now, i, read);
        System(db, workers, s.log + [EffectOf(id, s.db, db)])
    case NoIncident(e) =>
      if id in s.db.processed || !Effective(e) then s.(workers := workers)
      else
        var db := Open(s.db, id, Normalize(e).value, now);
        System(db, workers, s.log + [EffectOf(id, s.db, db)])
    case _ => s
  }

  function Execute(g: Graph, actions: seq<Action>): System {
    if actions == [] then START
    else Next(g, Execute(g, actions[..|actions| - 1]), actions[|actions| - 1])
  }

  // ---------------------------------------------------------------- at most once

  function AlertsIn(log: seq<Effect>): seq<Alert> {
    if log == [] then []
    else AlertsIn(log[..|log| - 1]) + var last := log[|log| - 1]; if last.Saving? then [last.alert] else []
  }

  function OutboxIn(log: seq<Effect>): seq<OutboxRow> {
    if log == [] then []
    else OutboxIn(log[..|log| - 1]) + var last := log[|log| - 1]; if last.Saving? then [last.row] else []
  }

  function CreatedIn(log: seq<Effect>): seq<Id> {
    if log == [] then []
    else CreatedIn(log[..|log| - 1]) + var last := log[|log| - 1]; if last.Saving? then last.created else []
  }

  /** The tables hold the effects of the logged commits and nothing else, and no event committed twice. */
  ghost predicate Exact(s: System) {
    && (forall id :: id in s.db.processed <==> exists k :: 0 <= k < |s.log| && s.log[k].eventId == id)
    && (forall j, k :: 0 <= j < k < |s.log| ==> s.log[j].eventId != s.log[k].eventId)
    && s.db.alerts == AlertsIn(s.log)
    && s.db.outbox == OutboxIn(s.log)
    && |s.db.incidents| == |CreatedIn(s.log)|
    && (forall i :: 0 <= i < |s.db.incidents| ==> s.db.incidents[i].id == CreatedIn(s.log)[i])
    && (forall k :: 0 <= k < |s.log| && s.log[k].Saving? ==> |s.log[k].created| <= 1)
  }

  lemma MarksExtend(s: System, id: string, s': System)
    requires Exact(s) && id !in s.db.processed && s'.db.processed == s.db.processed + {id}
    requires |s'.log| == |s.log| + 1 && s'.log[..|s.log|] == s.log && s'.log[|s.log|].eventId == id
    ensures forall x :: x in s'.db.processed <==> exists k :: 0 <= k < |s'.log| && s'.log[k].eventId == x
    ensures forall j, k :: 0 <= j < k < |s'.log| ==> s'.log[j].eventId != s'.log[k].eventId
  {
    forall x ensures x in s'.db.processed <==> exists k :: 0 <= k < |s'.log| && s'.log[k].eventId == x {
      if x in s.db.processed {
        var k :| 0 <= k < |s.log| && s.log[k].eventId == x;
        assert s'.log[k].eventId == x;
      }
    }
    forall k | 0 <= k < |s.log| ensures s'.log[k] == s.log[k] && s.log[k].eventId != id {}
  }

  lemma SuppressionIsExact(s: System, id: string, s': System)
    requires Exact(s) && id !in s.db.processed
    requires s'.db == s.db.(processed := s.db.processed + {id}) && s'.log == s.log + [Suppression(id)]
    ensures Exact(s')
  {
    assert s'.log[..|s.log|] == s.log;
    MarksExtend(s, id, s');
    assert AlertsIn(s'.log) == AlertsIn(s.log) && OutboxIn(s'.log) == OutboxIn(s.log)
           && CreatedIn(s'.log) == CreatedIn(s.log);
  }

  lemma SavingIsExact(s: System, id: string, db: Db, s': System)
    requires Exact(s) && id !in s.db.processed
    requires |db.alerts| == |s.db.alerts| + 1 && db.alerts[..|s.db.alerts|] == s.db.alerts
    requires |db.outbox| == |s.db.outbox| + 1 && db.outbox[..|s.db.outbox|] == s.db.outbox
    requires |s.db.incidents| <= |db.incidents| <= |s.db.incidents| + 1
    requires forall i :: 0 <= i < |s.db.incidents| ==> db.incidents[i].id == s.db.incidents[i].id
    requires db.processed == s.db.processed + {id}
    requires s'.db == db && s'.log == s.log + [EffectOf(id, s.db, db)]
    ensures Exact(s')
  {
    var effect := EffectOf(id, s.db, db);
    assert s'.log[..|s.log|] == s.log && s'.log[|s.log|] == effect;
    assert db.alerts == s.db.alerts + [effect.alert] && db.outbox == s.db.outbox + [effect.row];
    assert CreatedIn(s'.log) == CreatedIn(s.log) + effect.created;
    MarksExtend(s, id, s');
  }

  lemma StepIsExact(g: Graph, s: System, a: Action)
    requires Exact(s)
    ensures Exact(Next(g, s, a))
  {
    var s' := Next(g, s, a);
    match a
    case Commit(w, now) => if w in s.workers { CommitIsExact(s, w, now); }
    case MoveIncident(id, kind) => FrameIsExact(s, s');
    case _ => FrameIsExact(s, s');
  }

  lemma FrameIsExact(s: System, s': System)
    requires Exact(s) && s'.log == s.log
    requires s'.db.alerts == s.db.alerts && s'.db.outbox == s.db.outbox && s'.db.processed == s.db.processed
    requires |s'.db.incidents| == |s.db.incidents|
    requires forall i :: 0 <= i < |s.db.incidents| ==> s'.db.incidents[i].id == s.db.incidents[i].id
    ensures Exact(s')
  {
  }

  lemma CommitIsExact(s: System, w: nat, now: Time)
    requires Exact(s) && w in s.workers
    ensures Exact(CommitWorker(s, w, now))
  {
    var s' := CommitWorker(s, w, now);
    var id := EventId(s.workers[w].event);
    if s'.log != s.log {
      if s.workers[w].FoundTwin? {
        SuppressionIsExact(s, id, s');
      } else {
        SavingIsExact(s, id, s'.db, s');
      }
    }
  }

  lemma {:induction false} ExecutionIsExact(g: Graph, actions: seq<Action>)
    ensures Exact(Execute(g, actions))
  {
    if actions != [] {
      ExecutionIsExact(g, actions[..|actions| - 1]);
      StepIsExact(g, Execute(g, actions[..|actions| - 1]), actions[|actions| - 1]);
    }
  }

  function CommitsOf(log: seq<Effect>, id: string): nat {
    if log == [] then 0
    else CommitsOf(log[..|log| - 1], id) + if log[|log| - 1].eventId == id then 1 else 0
  }

  lemma {:induction false} DistinctCommits(log: seq<Effect>, id: string)
    requires forall j, k :: 0 <= j < k < |log| ==> log[j].eventId != log[k].eventId
    ensures CommitsOf(log, id) == if exists k :: 0 <= k < |log| && log[k].eventId == id then 1 else 0
  {
    if log != [] {
      var init := log[..|log| - 1];
      DistinctCommits(init, id);
      if exists k :: 0 <= k < |init| && init[k].eventId == id {
        var k :| 0 <= k < |init| && init[k].eventId == id;
        assert log[k].eventId == id;
      }
    }
  }

  /** Exactly-once effects: under every interleaving each event commits at most once, and exactly once
      when it is marked processed; the alerts, outbox and incident rows are those of the commits. */
  lemma AtMostOnceTheorem(g: Graph, actions: seq<Action>, id: string)
    ensures var s := Execute(g, actions);
            && CommitsOf(s.log, id) == (if id in s.db.processed then 1 else 0)
            && s.db.alerts == AlertsIn(s.log)
            && s.db.outbox == OutboxIn(s.log)
            && |s.db.incidents| == |CreatedIn(s.log)|
            && (forall i :: 0 <= i < |s.db.incidents| ==>
                  i < |CreatedIn(s.log)| && s.db.incidents[i].id == CreatedIn(s.log)[i])
            && (forall k :: 0 <= k < |s.log| && s.log[k].Saving? ==> |s.log[k].created| <= 1)
  {
    ExecutionIsExact(g, actions);
    DistinctCommits(Execute(g, actions).log, id);
  }

  /** What a crashed worker had read is lost: nothing it does takes effect until it begins again. */
  lemma CrashLosesTransaction(g: Graph, s: System, w: nat, a: Action)
    requires (a.ReadProcessed? || a.ReadTwin? || a.ReadIncident? || a.Commit? || a.Crash?) && a.worker == w
    ensures Next(g, Next(g, s, Crash(w)), a) == s.(workers := s.workers - {w})
  {
  }

  // ---------------------------------------------------------------- serial and concurrent transactions

  /** What a transaction reads if the tables do not change meanwhile. */
  function Reads(g: Graph, db: Db, e: RawEvent, now: Time, pick: nat): Phase
    requires Effective(e)
  {
    var n := Normalize(e).value;
    if IsDuplicateAlert(db.alerts, n.fingerprint, now) then FoundTwin(e)
    else
      match FindOpenIncident(db.incidents, Related(g, n.service), n.namespace, now, pick)
      case Some(i) => FoundIncident(e, i, db.incidents[i])
      case None => NoIncident(e)
  }

  /** The state after the four steps that lead up to the commit. */
  function Prepared(g: Graph, s: System, w: nat, e: RawEvent, now: Time, pick: nat): System {
    Next(g, Next(g, Next(g, Next(g, s, Begin(w, e)), ReadProcessed(w)), ReadTwin(w, now)), ReadIncident(w, now, pick))
  }

  lemma PreparedReads(g: Graph, s: System, w: nat, e: RawEvent, now: Time, pick: nat)
    requires w !in s.workers && Effective(e) && EventId(e) !in s.db.processed
    ensures Prepared(g, s, w, e, now, pick) == s.(workers := s.workers[w := Reads(g, s.db, e, now, pick)])
  {
    var s1 := s.(workers := s.workers[w := NotProcessed(e)]);
    assert Next(g, Next(g, s, Begin(w, e)), ReadProcessed(w)) == s1;
    var twin := IsDuplicateAlert(s.db.alerts, Normalize(e).value.fingerprint, now);
    var s2 := s.(workers := s.workers[w := if twin then FoundTwin(e) else NoTwin(e)]);
    assert Next(g, s1, ReadTwin(w, now)) == s2;
  }

  lemma CommitOfReads(g: Graph, s: System, w: nat, e: RawEvent, now: Time, pick: nat)
    requires w in s.workers && Effective(e) && EventId(e) !in s.db.processed
    requires s.workers[w] == Reads(g, s.db, e, now, pick)
    ensures CommitWorker(s, w, now).db == Handle(g, s.db, e, now, pick)
    ensures CommitWorker(s, w, now).workers == s.workers - {w}
  {
  }

  /** A transaction that nobody interrupts is the serial handler, whatever the others are in. */
  lemma UninterruptedIsSerial(g: Graph, s: System, w: nat, e: RawEvent, now: Time, pick: nat)
    requires w !in s.workers && Effective(e)
    ensures var s' := Next(g, Prepared(g, s, w, e, now, pick), Commit(w, now));
            s'.db == Handle(g, s.db, e, now, pick) && s'.workers == s.workers
  {
    if EventId(e) !in s.db.processed {
      PreparedReads(g, s, w, e, now, pick);
      var prepared := Prepared(g, s, w, e, now, pick);
      CommitOfReads(g, prepared, w, e, now, pick);
      assert prepared.workers - {w} == s.workers;
    } else {
      assert Next(g, Next(g, s, Begin(w, e)), ReadProcessed(w)) == s;
    }
  }

  /** The alert_ids list is conserved by a concurrent commit exactly when the list that was read is still
      the stored one. Otherwise an alert is lost from the list, though not from the alerts table. */
  lemma ListConservedExactlyWhenFresh(db: Db, eventId: string, n: Normalized, now: Time, i: nat, read: Incident)
    requires i < |db.incidents| && read.id == db.incidents[i].id
    requires db.incidents[i].alertIds == IdsOf(db.alerts, db.incidents[i].id)
    ensures var db' := CommitAttach(db, eventId, n, now, i, read);
            db'.incidents[i].alertIds == IdsOf(db'.alerts, read.id) <==> read.alertIds == db.incidents[i].alertIds
  {
    var db' := CommitAttach(db, eventId, n, now, i, read);
    IdsOfAppend(db.alerts, db'.alerts[|db.alerts|], read.id);
    var stored := db.incidents[i].alertIds;
    if read.alertIds + [db.next] == stored + [db.next] {
      assert (read.alertIds + [db.next])[..|read.alertIds|] == read.alertIds;
      assert (stored + [db.next])[..|stored|] == stored;
    }
  }

  /** The message of such a commit tells what was read, with the new alert: its status is the stored one if and only
      if that is still the status that was read. */
  lemma MessageTellsWhatWasRead(db: Db, eventId: string, n: Normalized, now: Time, i: nat, read: Incident)
    requires i < |db.incidents| && read.id == db.incidents[i].id
    ensures var db' := CommitAttach(db, eventId, n, now, i, read);
            && |db'.outbox| == |db.outbox| + 1 && |db'.alerts| == |db.alerts| + 1
            && var row, a := db'.outbox[|db.outbox|], db'.alerts[|db.alerts|];
               && row.topic == INCIDENTS_UPDATED && row.incidentId == read.id == a.incidentId
               && row.alertIds == read.alertIds + [a.id] == db'.incidents[i].alertIds
               && (row.status == db'.incidents[i].status <==> read.status == db.incidents[i].status)
  {
  }

  /** The tables after a commit that attaches. */
  lemma CommitAttaches(g: Graph, s: System, w: nat, now: Time)
    requires w in s.workers && s.workers[w].FoundIncident? && s.workers[w].index < |s.db.incidents|
    requires Effective(s.workers[w].event) && EventId(s.workers[w].event) !in s.db.processed
    ensures var (s', p) := (Next(g, s, Commit(w, now)), s.workers[w]);
            && s'.db == CommitAttach(s.db, EventId(p.event), Normalize(p.event).value, now, p.index, p.read)
            && s'.workers == s.workers - {w}
  {
  }

  /** Two workers that read one incident before either commits: the second commit drops the first's
      alert from the list. */
  lemma TwoWorkersLoseAnAlert(g: Graph, s: System, e1: RawEvent, e2: RawEvent, i: nat, now: Time)
    requires Effective(e1) && Effective(e2) && EventId(e1) != EventId(e2)
    requires EventId(e1) !in s.db.processed && EventId(e2) !in s.db.processed
    requires i < |s.db.incidents| && s.db.incidents[i].alertIds == IdsOf(s.db.alerts, s.db.incidents[i].id)
    requires s.workers
             == map[1 := FoundIncident(e1, i, s.db.incidents[i]), 2 := FoundIncident(e2, i, s.db.incidents[i])]
    ensures var (read, db) := (s.db.incidents[i], Next(g, Next(g, s, Commit(1, now)), Commit(2, now)).db);
            && |db.alerts| == |s.db.alerts| + 2 && |db.incidents| == |s.db.incidents|
            && db.incidents[i].id == read.id
            && db.incidents[i].alertIds == read.alertIds + [s.db.next + 2]
            && IdsOf(db.alerts, read.id) == read.alertIds + [s.db.next, s.db.next + 2]
  {
    var read := s.db.incidents[i];
    var s1 := Next(g, s, Commit(1, now));
    CommitAttaches(g, s, 1, now);
    assert s1.workers[2] == FoundIncident(e2, i, read);
    CommitAttaches(g, s1, 2, now);
    var db1 := CommitAttach(s.db, EventId(e1), Normalize(e1).value, now, i, read);
    var db2 := CommitAttach(db1, EventId(e2), Normalize(e2).value, now, i, read);
    IdsOfAppend(s.db.alerts, db1.alerts[|s.db.alerts|], read.id);
    IdsOfAppend(db1.alerts, db2.alerts[|db1.alerts|], read.id);
  }
}
