/** Whole concurrent runs: an incident's alert_ids list stays complete exactly when no commit writes back a list
    that is no longer the stored one. */
module Freshness {
  import opened Schema
  import opened Correlator
  import opened Conservation
  import opened Workers

  /** The incident's list names all its alerts. */
  ghost predicate Listed(db: Db, i: nat)
    requires i < |db.incidents|
  {
    db.incidents[i].alertIds == IdsOf(db.alerts, db.incidents[i].id)
  }

  /** The action commits an alert to incident i whose list has changed since the worker read it. */
  predicate Stale(s: System, a: Action, i: nat) {
    && a.Commit? && a.worker in s.workers && s.workers[a.worker].FoundIncident?
    && var phase := s.workers[a.worker];
       && phase.index == i && i < |s.db.incidents|
       && Effective(phase.event) && EventId(phase.event) !in s.db.processed
       && phase.read.alertIds != s.db.incidents[i].alertIds
  }

  ghost predicate NeverStale(g: Graph, actions: seq<Action>, i: nat) {
    actions == [] ||
    var init, last := actions[..|actions| - 1], actions[|actions| - 1];
    NeverStale(g, init, i) && !Stale(Execute(g, init), last, i)
  }

  // ---------------------------------------------------------------- what a worker has read

  ghost predicate Numbered(db: Db) {
    && (forall i :: 0 <= i < |db.incidents| ==> db.incidents[i].id < db.next)
    && (forall i, j :: 0 <= i < j < |db.incidents| ==> db.incidents[i].id != db.incidents[j].id)
    && (forall a :: a in db.alerts ==> a.incidentId < db.next)
  }

  /** What was read of incident i is what is stored, or it is shorter than the alerts are many. */
  ghost predicate Remembers(db: Db, i: nat, read: Incident) {
    && i < |db.incidents| && read.id == db.incidents[i].id
    && |read.alertIds| <= |IdsOf(db.alerts, read.id)|
    && (|read.alertIds| == |IdsOf(db.alerts, read.id)| ==> read.alertIds == db.incidents[i].alertIds)
  }

  ghost predicate Sane(s: System) {
    && Numbered(s.db)
    && (forall i :: 0 <= i < |s.db.incidents| ==> Remembers(s.db, i, s.db.incidents[i]))
    && (forall w :: w in s.workers && s.workers[w].FoundIncident? ==>
          Remembers(s.db, s.workers[w].index, s.workers[w].read))
  }

  // ---------------------------------------------------------------- one commit

  lemma AttachKeepsMemory(
    db: Db, id: string, n: Normalized, now: Time, i: nat, read: Incident, j: nat, other: Incident)
    requires Numbered(db) && Remembers(db, i, read) && Remembers(db, j, other)
    ensures Remembers(CommitAttach(db, id, n, now, i, read), j, other)
    ensures Remembers(CommitAttach(db, id, n, now, i, read), i,
                      CommitAttach(db, id, n, now, i, read).incidents[i])
  {
    var db' := CommitAttach(db, id, n, now, i, read);
    IdsOfAppend(db.alerts, db'.alerts[|db.alerts|], other.id);
    IdsOfAppend(db.alerts, db'.alerts[|db.alerts|], read.id);
  }

  /** A commit that attaches to incident i lists all its alerts afterwards exactly when it did before and the list
      that was read is still the stored one. It leaves the other lists as they are. */
  lemma AttachLists(db: Db, id: string, n: Normalized, now: Time, i: nat, read: Incident, j: nat)
    requires Numbered(db) && Remembers(db, i, read) && j < |db.incidents| && Remembers(db, j, db.incidents[j])
    ensures var db' := CommitAttach(db, id, n, now, i, read);
            Listed(db', j) <==> Listed(db, j) && (j == i ==> read.alertIds == db.incidents[i].alertIds)
  {
    var db' := CommitAttach(db, id, n, now, i, read);
    IdsOfAppend(db.alerts, db'.alerts[|db.alerts|], db.incidents[j].id);
    if j == i {
      var ids := IdsOf(db.alerts, read.id);
      assert (read.alertIds + [db.next])[..|read.alertIds|] == read.alertIds;
      assert (ids + [db.next])[..|ids|] == ids;
    } else {
      assert db.incidents[j].id != read.id;
    }
  }

  lemma OpenLists(db: Db, id: string, n: Normalized, now: Time, j: nat, other: Incident)
    requires Numbered(db)
    ensures Numbered(Open(db, id, n, now))
    ensures Listed(Open(db, id, n, now), |db.incidents|)
    ensures Remembers(db, j, other) ==> Remembers(Open(db, id, n, now), j, other)
    ensures j < |db.incidents| ==> (Listed(Open(db, id, n, now), j) <==> Listed(db, j))
  {
    var db' := Open(db, id, n, now);
    var added := db'.alerts[|db.alerts|];
    IdsOfNone(db.alerts, db.next + 1);
    IdsOfAppend(db.alerts, added, db.next + 1);
    IdsOfAppend(db.alerts, added, other.id);
    if j < |db.incidents| { IdsOfAppend(db.alerts, added, db.incidents[j].id); }
  }

  // ---------------------------------------------------------------- every step

  /** What an action does to list j. */
  ghost predicate Accounts(s: System, a: Action, s': System, j: nat) {
    && |s.db.incidents| <= |s'.db.incidents|
    && (j < |s.db.incidents| ==> (Listed(s'.db, j) <==> Listed(s.db, j) && !Stale(s, a, j)))
    && (|s.db.incidents| <= j < |s'.db.incidents| ==> Listed(s'.db, j))
  }

  lemma CommitAccounts(s: System, w: nat, now: Time, j: nat)
    requires Sane(s) && w in s.workers
    ensures Sane(CommitWorker(s, w, now)) && Accounts(s, Commit(w, now), CommitWorker(s, w, now), j)
  {
    var s' := CommitWorker(s, w, now);
    var phase := s.workers[w];
    var id := EventId(phase.event);
    if id !in s.db.processed && Effective(phase.event) {
      var n := Normalize(phase.event).value;
      match phase
      case FoundIncident(e, i, read) =>
        AttachIsSane(s, s', id, n, now, i, read);
        if j < |s.db.incidents| { AttachLists(s.db, id, n, now, i, read, j); }
      case NoIncident(e) =>
        OpenIsSane(s, s', id, n, now);
        if j < |s.db.incidents| { OpenLists(s.db, id, n, now, j, s.db.incidents[j]); }
        OpenLists(s.db, id, n, now, |s.db.incidents|, s'.db.incidents[|s.db.incidents|]);
      case _ =>
    }
  }

  lemma AttachIsSane(s: System, s': System, id: string, n: Normalized, now: Time, i: nat, read: Incident)
    requires Sane(s) && Remembers(s.db, i, read)
    requires s'.db == CommitAttach(s.db, id, n, now, i, read)
    requires forall w :: w in s'.workers ==> w in s.workers && s'.workers[w] == s.workers[w]
    ensures Sane(s')
  {
    AttachKeepsMemory(s.db, id, n, now, i, read, i, read);
    forall j | 0 <= j < |s'.db.incidents| ensures Remembers(s'.db, j, s'.db.incidents[j]) {
      AttachKeepsMemory(s.db, id, n, now, i, read, j, s.db.incidents[j]);
    }
    forall w | w in s'.workers && s'.workers[w].FoundIncident?
      ensures Remembers(s'.db, s'.workers[w].index, s'.workers[w].read)
    {
      AttachKeepsMemory(s.db, id, n, now, i, read, s.workers[w].index, s.workers[w].read);
    }
  }

  lemma OpenIsSane(s: System, s': System, id: string, n: Normalized, now: Time)
    requires Sane(s) && s'.db == Open(s.db, id, n, now)
    requires forall w :: w in s'.workers ==> w in s.workers && s'.workers[w] == s.workers[w]
    ensures Sane(s')
  {
    OpenLists(s.db, id, n, now, 0, s'.db.incidents[|s.db.incidents|]);
    forall j | 0 <= j < |s'.db.incidents| ensures Remembers(s'.db, j, s'.db.incidents[j]) {
      if j < |s.db.incidents| { OpenLists(s.db, id, n, now, j, s.db.incidents[j]); }
    }
    forall w | w in s'.workers && s'.workers[w].FoundIncident?
      ensures Remembers(s'.db, s'.workers[w].index, s'.workers[w].read)
    {
      OpenLists(s.db, id, n, now, s.workers[w].index, s.workers[w].read);
    }
  }

  lemma StepAccounts(g: Graph, s: System, a: Action, j: nat)
    requires Sane(s)
    ensures Sane(Next(g, s, a)) && Accounts(s, a, Next(g, s, a), j)
  {
    match a
    case Commit(w, now) => if w in s.workers { CommitAccounts(s, w, now, j); }
    case MoveIncident(id, kind) => MoveAccounts(g, s, id, kind, j);
    case _ => ReadAccounts(g, s, a);
  }

  lemma MoveAccounts(g: Graph, s: System, id: Id, kind: TimelineKind, j: nat)
    requires Sane(s)
    ensures var s' := Next(g, s, MoveIncident(id, kind)); Sane(s') && Accounts(s, MoveIncident(id, kind), s', j)
  {
    var s' := Next(g, s, MoveIncident(id, kind));
    forall w | w in s'.workers && s'.workers[w].FoundIncident?
      ensures Remembers(s'.db, s'.workers[w].index, s'.workers[w].read)
    {
      assert Remembers(s.db, s.workers[w].index, s.workers[w].read);
    }
    forall i | 0 <= i < |s'.db.incidents| ensures Remembers(s'.db, i, s'.db.incidents[i]) {
      assert Remembers(s.db, i, s.db.incidents[i]);
    }
  }

  /** The other actions change no table. */
  lemma ReadAccounts(g: Graph, s: System, a: Action)
    requires Sane(s) && !a.Commit? && !a.MoveIncident?
    ensures var s' := Next(g, s, a); Sane(s') && s'.db == s.db
  {
  }

  // ---------------------------------------------------------------- every run

  lemma {:induction false} NewIsNeverStale(g: Graph, actions: seq<Action>, i: nat)
    requires i >= |Execute(g, actions).db.incidents|
    ensures NeverStale(g, actions, i) && Sane(Execute(g, actions))
  {
    if actions != [] {
      var init, last := actions[..|actions| - 1], actions[|actions| - 1];
      RunIsSane(g, init);
      StepAccounts(g, Execute(g, init), last, i);
      NewIsNeverStale(g, init, i);
    }
  }

  lemma {:induction false} RunIsSane(g: Graph, actions: seq<Action>)
    ensures Sane(Execute(g, actions))
  {
    if actions != [] {
      RunIsSane(g, actions[..|actions| - 1]);
      StepAccounts(g, Execute(g, actions[..|actions| - 1]), actions[|actions| - 1], 0);
    }
  }

  /** Under any interleaving of workers, crashes and status changes: an incident's list names all its alerts if and
      only if no commit to it wrote back a stale list. A lost entry never comes back. */
  lemma {:induction false} ListedExactlyWhenNeverStale(g: Graph, actions: seq<Action>, i: nat)
    requires i < |Execute(g, actions).db.incidents|
    ensures Listed(Execute(g, actions).db, i) <==> NeverStale(g, actions, i)
  {
    var init, last := actions[..|actions| - 1], actions[|actions| - 1];
    RunIsSane(g, init);
    StepAccounts(g, Execute(g, init), last, i);
    if i < |Execute(g, init).db.incidents| {
      ListedExactlyWhenNeverStale(g, init, i);
    } else {
      NewIsNeverStale(g, init, i);
    }
  }

  // ---------------------------------------------------------------- a run that loses an alert

  function UpToCommit(w: nat, e: RawEvent, now: Time, pick: nat): seq<Action> {
    [Begin(w, e), ReadProcessed(w), ReadTwin(w, now), ReadIncident(w, now, pick)]
  }

  lemma RunUpToCommit(g: Graph, actions: seq<Action>, w: nat, e: RawEvent, now: Time, pick: nat)
    ensures Execute(g, actions + UpToCommit(w, e, now, pick)) == Prepared(g, Execute(g, actions), w, e, now, pick)
  {
    var a1 := actions + [Begin(w, e)];
    var a2 := a1 + [ReadProcessed(w)];
    var a3 := a2 + [ReadTwin(w, now)];
    assert actions + UpToCommit(w, e, now, pick) == a3 + [ReadIncident(w, now, pick)];
    RunThen(g, a3, ReadIncident(w, now, pick));
    RunThen(g, a2, ReadTwin(w, now));
    RunThen(g, a1, ReadProcessed(w));
    RunThen(g, actions, Begin(w, e));
  }

  lemma RunThen(g: Graph, actions: seq<Action>, a: Action)
    ensures Execute(g, actions + [a]) == Next(g, Execute(g, actions), a)
  {
    assert (actions + [a])[..|actions|] == actions;
  }

  /** Worker 0 opens an incident; workers 1 and 2 read it before either commits. */
  function TwoReaders(e0: RawEvent, e1: RawEvent, e2: RawEvent, now: Time): seq<Action> {
    UpToCommit(0, e0, now, 0) + [Commit(0, now)] + UpToCommit(1, e1, now, 0) + UpToCommit(2, e2, now, 0)
  }

  /** Three different alerts of one service. */
  predicate Siblings(e0: RawEvent, e1: RawEvent, e2: RawEvent) {
    && Effective(e0) && Effective(e1) && Effective(e2)
    && EventId(e0) != EventId(e1) && EventId(e0) != EventId(e2) && EventId(e1) != EventId(e2)
    && var (n0, n1, n2) := (Normalize(e0).value, Normalize(e1).value, Normalize(e2).value);
       && n0.service == n1.service == n2.service && n0.namespace == n1.namespace == n2.namespace
       && n0.fingerprint != n1.fingerprint && n0.fingerprint != n2.fingerprint
  }

  lemma FirstIncident(g: Graph, e0: RawEvent, now: Time)
    requires Effective(e0)
    ensures Execute(g, UpToCommit(0, e0, now, 0) + [Commit(0, now)]).db
            == Open(EMPTY_DB, EventId(e0), Normalize(e0).value, now)
    ensures Execute(g, UpToCommit(0, e0, now, 0) + [Commit(0, now)]).workers == map[]
  {
    RunThen(g, UpToCommit(0, e0, now, 0), Commit(0, now));
    RunUpToCommit(g, [], 0, e0, now, 0);
    assert [] + UpToCommit(0, e0, now, 0) == UpToCommit(0, e0, now, 0);
    UninterruptedIsSerial(g, START, 0, e0, now, 0);
  }

  /** An alert on the service of the only incident, not a duplicate, is read as an attachment to it. */
  lemma ReadsTheIncident(g: Graph, eventId: string, n0: Normalized, e: RawEvent, now: Time)
    requires Effective(e)
    requires var n := Normalize(e).value;
             n.service == n0.service && n.namespace == n0.namespace && n.fingerprint != n0.fingerprint
    ensures var db := Open(EMPTY_DB, eventId, n0, now);
            Reads(g, db, e, now, 0) == FoundIncident(e, 0, db.incidents[0])
  {
    var db, n := Open(EMPTY_DB, eventId, n0, now), Normalize(e).value;
    assert Matches(db.incidents[0], Related(g, n.service), n.namespace, now);
    assert IsNewestMatch(db.incidents, Related(g, n.service), n.namespace, now, 0);
  }

  lemma TwoReadersRead(g: Graph, e0: RawEvent, e1: RawEvent, e2: RawEvent, now: Time)
    requires Siblings(e0, e1, e2)
    ensures var s, db := Execute(g, TwoReaders(e0, e1, e2, now)), Open(EMPTY_DB, EventId(e0), Normalize(e0).value, now);
            && s.db == db
            && s.workers == map[1 := FoundIncident(e1, 0, db.incidents[0]), 2 := FoundIncident(e2, 0, db.incidents[0])]
  {
    var a0 := UpToCommit(0, e0, now, 0) + [Commit(0, now)];
    var a1 := a0 + UpToCommit(1, e1, now, 0);
    FirstIncident(g, e0, now);
    RunUpToCommit(g, a0, 1, e1, now, 0);
    PreparedReads(g, Execute(g, a0), 1, e1, now, 0);
    ReadsTheIncident(g, EventId(e0), Normalize(e0).value, e1, now);
    RunUpToCommit(g, a1, 2, e2, now, 0);
    PreparedReads(g, Execute(g, a1), 2, e2, now, 0);
    ReadsTheIncident(g, EventId(e0), Normalize(e0).value, e2, now);
  }

  lemma RunThenTwo(g: Graph, actions: seq<Action>, a: Action, b: Action)
    ensures Execute(g, actions + [a, b]) == Next(g, Next(g, Execute(g, actions), a), b)
  {
    calc {
      Execute(g, actions + [a, b]);
      { assert actions + [a, b] == actions + [a] + [b]; }
      Execute(g, actions + [a] + [b]);
      { RunThen(g, actions + [a], b); }
      Next(g, Execute(g, actions + [a]), b);
      { RunThen(g, actions, a); }
      Next(g, Next(g, Execute(g, actions), a), b);
    }
  }

  lemma TwoCommits(g: Graph, s: System, id: string, n: Normalized, e1: RawEvent, e2: RawEvent, now: Time)
    requires Effective(e1) && Effective(e2) && id != EventId(e1) && id != EventId(e2) && EventId(e1) != EventId(e2)
    requires s.db == Open(EMPTY_DB, id, n, now)
    requires s.workers
             == map[1 := FoundIncident(e1, 0, s.db.incidents[0]), 2 := FoundIncident(e2, 0, s.db.incidents[0])]
    ensures var db := Next(g, Next(g, s, Commit(1, now)), Commit(2, now)).db;
            && |db.alerts| == 3 && |db.incidents| == 1
            && db.incidents[0].alertIds == [0, 5] && IdsOf(db.alerts, db.incidents[0].id) == [0, 3, 5]
  {
    assert IdsOf(s.db.alerts, s.db.incidents[0].id) == [0] by {
      assert s.db.alerts[..0] == [];
    }
    TwoWorkersLoseAnAlert(g, s, e1, e2, 0, now);
  }

  /** From empty tables, any three such alerts can end up as three alerts of one incident that lists two. */
  lemma ThreeAlertsTwoListed(g: Graph, e0: RawEvent, e1: RawEvent, e2: RawEvent, now: Time)
    requires Siblings(e0, e1, e2)
    ensures var db := Execute(g, TwoReaders(e0, e1, e2, now) + [Commit(1, now), Commit(2, now)]).db;
            |db.alerts| == 3 && |db.incidents| == 1 && |db.incidents[0].alertIds| == 2 && !Listed(db, 0)
  {
    var actions := TwoReaders(e0, e1, e2, now);
    RunThenTwo(g, actions, Commit(1, now), Commit(2, now));
    TwoReadersRead(g, e0, e1, e2, now);
    TwoCommits(g, Execute(g, actions), EventId(e0), Normalize(e0).value, e1, e2, now);
  }
}
