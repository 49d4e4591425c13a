/** The correlators and the workflows of all incidents on the same tables. Any number of correlators interleave with
    each other and with the workflows: alerts are attached to incidents whose workflow is anywhere in its run, and
    a status may change between a correlator's reads and its commit. */
module Joint {
  import opened Schema
  import opened Correlator
  import opened Conservation
  import Executor
  import C = Workers
  import I = Interleaved
  import Freshness
  import Serial
  import W = Workflow

  /** A workflow run. Its own world, status and timeline of the incident, is to mirror the shared tables. */
  datatype Flow = Flow(config: W.Config, machine: W.Machine)

  datatype State = State(correlators: C.System, flows: map<Id, Flow>)

  /** `Correlate` is for the correlators' own actions; statuses are written by `Advance` alone. */
  datatype Action =
    | Correlate(step: C.Action)
    | StartWorkflow(incident: nat, config: W.Config, store: Executor.Store)
    | Advance(incident: Id, input: W.Input)

  /** The new row, if there is one, attaches an alert to the incident. */
  predicate Attaches(before: Db, after: Db, id: Id) {
    && |after.timeline| == |before.timeline| + 1
    && after.timeline[|before.timeline|].kind.ALERT_CORRELATED?
    && after.timeline[|before.timeline|].incidentId == id
  }

  /** A commit that attaches an alert is seen by the incident's workflow. */
  function Notify(flows: map<Id, Flow>, before: Db, after: Db): map<Id, Flow> {
    map id | id in flows ::
      if Attaches(before, after, id)
      then flows[id].(machine := W.Step(flows[id].config, flows[id].machine,
                                        W.AlertCorrelated(after.timeline[|before.timeline|].kind.alertId)))
      else flows[id]
  }

  /** The transaction by which a workflow commits the new row of its timeline, with the status. */
  function Write(db: Db, id: Id, before: W.World, after: W.World): Db {
    if |after.timeline| > |before.timeline|
    then db.(incidents := seq(|db.incidents|, i requires 0 <= i < |db.incidents| =>
               if db.incidents[i].id == id then db.incidents[i].(status := after.status) else db.incidents[i]),
             timeline := db.timeline + [TimelineRow(id, after.timeline[|before.timeline|])])
    else db
  }

  ghost function Next(g: Graph, s: State, a: Action): State {
    match a
    case Correlate(step) =>
      if step.MoveIncident? then s
      else
        var c := C.Next(g, s.correlators, step);
        State(c, Notify(s.flows, s.correlators.db, c.db))
    case StartWorkflow(k, config, store) =>
      var db := s.correlators.db;
      if k < |db.incidents| && db.incidents[k].id !in s.flows then
        var inc := db.incidents[k];
        var world := W.World(inc.status, KindsOf(db.timeline, inc.id), store);
        if W.Initial(config, world) then s.(flows := s.flows[inc.id := Flow(config, W.Start(world))]) else s
      else s
    case Advance(id, input) =>
      if id in s.flows && !input.AlertCorrelated? then
        var flow := s.flows[id];
        var m := W.Step(flow.config, flow.machine, input);
        var db := Write(s.correlators.db, id, flow.machine.world, m.world);
        State(s.correlators.(db := db), s.flows[id := flow.(machine := m)])
      else s
  }

  ghost function Execute(g: Graph, actions: seq<Action>): State {
    if actions == [] then State(C.START, map[])
    else Next(g, Execute(g, actions[..|actions| - 1]), actions[|actions| - 1])
  }

  /** What the correlators see of the run: their own actions, and rows logged by others. */
  ghost function Seen(s: State, a: Action): seq<C.Action> {
    match a
    case Correlate(step) => if step.MoveIncident? then [] else [step]
    case StartWorkflow(_, _, _) => []
    case Advance(id, input) =>
      if id in s.flows && !input.AlertCorrelated? then
        var w, w' := s.flows[id].machine.world, W.Step(s.flows[id].config, s.flows[id].machine, input).world;
        if |w'.timeline| > |w.timeline| then [C.MoveIncident(id, w'.timeline[|w.timeline|])] else []
      else []
  }

  ghost function AllSeen(g: Graph, actions: seq<Action>): seq<C.Action> {
    if actions == [] then []
    else
      var init := actions[..|actions| - 1];
      AllSeen(g, init) + Seen(Execute(g, init), actions[|actions| - 1])
  }

  // ---------------------------------------------------------------- the invariant

  ghost predicate HasStatus(db: Db, i: nat, id: Id, status: IncidentStatus) {
    i < |db.incidents| && db.incidents[i].id == id && db.incidents[i].status == status
  }

  ghost predicate Mirrored(db: Db, id: Id, w: W.World) {
    && KindsOf(db.timeline, id) == w.timeline
    && exists i: nat :: HasStatus(db, i, id, w.status)
  }

  ghost predicate Follows(db: Db, id: Id, flow: Flow) {
    Mirrored(db, id, flow.machine.world) && W.Safe(flow.config, flow.machine)
  }

  ghost predicate AllFollow(db: Db, flows: map<Id, Flow>) {
    forall id :: id in flows ==> Follows(db, id, flows[id])
  }

  // ---------------------------------------------------------------- the correlators' commits

  /** What a correlator's commit does to the incidents that are there and to the timeline. */
  ghost predicate Delivered(db: Db, db': Db) {
    && |db.incidents| <= |db'.incidents|
    && (forall i :: 0 <= i < |db.incidents| ==>
          db'.incidents[i].id == db.incidents[i].id && db'.incidents[i].status == db.incidents[i].status)
    && (db'.timeline == db.timeline
        || (exists row :: db'.timeline == db.timeline + [row]
                          && (row.kind.ALERT_CORRELATED?
                              || (row.kind.INCIDENT_CREATED? && row.incidentId == db.next + 1))))
  }

  lemma StepDelivers(g: Graph, s: C.System, a: C.Action)
    requires !a.MoveIncident?
    ensures Delivered(s.db, C.Next(g, s, a).db)
  {
    I.StepWrites(g, s, a);
    WriteDelivers(s.db, I.WriteOf(s, a));
  }

  lemma WriteDelivers(db: Db, w: I.Write)
    requires !w.Logged? && (w.Attached? ==> w.index < |db.incidents|)
    ensures Delivered(db, I.Written(db, w))
  {
    var db' := I.Written(db, w);
    if !w.Nothing? { assert db'.timeline == db.timeline + [db'.timeline[|db.timeline|]]; }
  }

  /** The world of an incident after the commit. */
  function WorldAfter(before: Db, after: Db, id: Id, w: W.World): W.World {
    if Attaches(before, after, id) then W.Log(w, after.timeline[|before.timeline|].kind) else w
  }

  lemma DeliveryKeepsMirror(db: Db, db': Db, id: Id, w: W.World)
    requires Freshness.Numbered(db) && Delivered(db, db') && Mirrored(db, id, w)
    ensures Mirrored(db', id, WorldAfter(db, db', id, w))
  {
    var i: nat :| HasStatus(db, i, id, w.status);
    assert HasStatus(db', i, id, w.status);
    if db'.timeline != db.timeline {
      var row :| db'.timeline == db.timeline + [row]
                 && (row.kind.ALERT_CORRELATED? || (row.kind.INCIDENT_CREATED? && row.incidentId == db.next + 1));
      KindsOfAppend(db.timeline, row, id);
    }
  }

  lemma NotifyLogs(flows: map<Id, Flow>, db: Db, db': Db, id: Id)
    requires id in flows
    ensures var (flow, flow') := (flows[id], Notify(flows, db, db')[id]);
            && flow'.config == flow.config
            && flow'.machine.world == WorldAfter(db, db', id, flow.machine.world)
            && (W.Safe(flow.config, flow.machine) ==> W.Safe(flow'.config, flow'.machine))
  {
    var flow := flows[id];
    if Attaches(db, db', id) && W.Safe(flow.config, flow.machine) {
      W.StepIsSafe(flow.config, flow.machine, W.AlertCorrelated(db'.timeline[|db.timeline|].kind.alertId));
    }
  }

  lemma DeliveryKeeps(flows: map<Id, Flow>, db: Db, db': Db)
    requires Freshness.Numbered(db) && Delivered(db, db') && AllFollow(db, flows)
    ensures AllFollow(db', Notify(flows, db, db'))
  {
    forall id | id in flows ensures Follows(db', id, Notify(flows, db, db')[id]) {
      assert Follows(db, id, flows[id]);
      NotifyLogs(flows, db, db', id);
      DeliveryKeepsMirror(db, db', id, flows[id].machine.world);
    }
  }

  // ---------------------------------------------------------------- workflow steps

  /** From `w` to `w'` at most one row is committed, none of the correlator's, and without a row no status. */
  predicate OneRow(w: W.World, w': W.World) {
    && |w.timeline| <= |w'.timeline| <= |w.timeline| + 1 && w'.timeline[..|w.timeline|] == w.timeline
    && (|w'.timeline| == |w.timeline| ==> w'.status == w.status)
    && (|w'.timeline| > |w.timeline| ==> Foreign(w'.timeline[|w.timeline|]))
  }

  lemma StepCommitsOneRow(c: W.Config, m: W.Machine, i: W.Input)
    requires !i.AlertCorrelated?
    ensures OneRow(m.world, W.Step(c, m, i).world)
  {
  }

  /** The status that is written with a row is the one that the row names. */
  lemma RowNamesStatus(w: W.World, w': W.World)
    requires OneRow(w, w') && W.Logged(w) && W.Logged(w') && |w'.timeline| > |w.timeline|
    ensures StatusAfter(w'.timeline[|w.timeline|], Some(w.status)) == Some(w'.status)
  {
    assert w'.timeline == w.timeline + [w'.timeline[|w.timeline|]];
    FoldAppend(w.timeline, w'.timeline[|w.timeline|]);
  }

  /** So the transaction is what the correlators know as a row logged by others. */
  lemma WriteIsLog(g: Graph, db: Db, id: Id, w: W.World, w': W.World)
    requires Freshness.Numbered(db) && Mirrored(db, id, w) && OneRow(w, w') && W.Logged(w) && W.Logged(w')
    requires |w'.timeline| > |w.timeline|
    ensures Write(db, id, w, w') == Apply(g, db, Transition(id, w'.timeline[|w.timeline|]))
  {
    var row := w'.timeline[|w.timeline|];
    RowNamesStatus(w, w');
    var k: nat :| HasStatus(db, k, id, w.status);
    assert db.incidents[k] in db.incidents;
    var db' := Write(db, id, w, w');
    forall i | 0 <= i < |db.incidents| ensures db'.incidents[i] == Move(db.incidents, id, row)[i] {
      if db.incidents[i].id == id { assert i == k; }
    }
    assert db'.incidents == Move(db.incidents, id, row);
  }

  lemma WriteKeepsMirrors(db: Db, id: Id, w: W.World, w': W.World, other: Id, x: W.World)
    requires Mirrored(db, id, w) && Mirrored(db, other, x) && OneRow(w, w')
    ensures var db' := Write(db, id, w, w'); Mirrored(db', id, w') && (other != id ==> Mirrored(db', other, x))
  {
    var db' := Write(db, id, w, w');
    var i: nat :| HasStatus(db, i, id, w.status);
    var j: nat :| HasStatus(db, j, other, x.status);
    assert HasStatus(db', i, id, w'.status);
    assert other != id ==> HasStatus(db', j, other, x.status);
    if |w'.timeline| > |w.timeline| {
      var row := TimelineRow(id, w'.timeline[|w.timeline|]);
      KindsOfAppend(db.timeline, row, id);
      KindsOfAppend(db.timeline, row, other);
      assert w'.timeline == w.timeline + [row.kind];
    } else {
      assert w'.timeline == w.timeline;
    }
  }

  lemma MirrorIsLogged(db: Db, id: Id, w: W.World)
    requires LogAgrees(db) && Mirrored(db, id, w)
    ensures W.Logged(w)
  {
    var k: nat :| HasStatus(db, k, id, w.status);
    assert Fold(KindsOf(db.timeline, db.incidents[k].id)) == Some(db.incidents[k].status);
  }

  lemma WriteKeepsFlows(db: Db, flows: map<Id, Flow>, id: Id, m: W.Machine)
    requires AllFollow(db, flows) && id in flows && OneRow(flows[id].machine.world, m.world)
    requires W.Safe(flows[id].config, m)
    ensures AllFollow(Write(db, id, flows[id].machine.world, m.world), flows[id := flows[id].(machine := m)])
  {
    var w, flows' := flows[id].machine.world, flows[id := flows[id].(machine := m)];
    assert Follows(db, id, flows[id]);
    forall other | other in flows' ensures Follows(Write(db, id, w, m.world), other, flows'[other]) {
      assert Follows(db, other, flows[other]);
      WriteKeepsMirrors(db, id, w, m.world, other, flows[other].machine.world);
    }
  }

  lemma StepFollows(db: Db, id: Id, flow: Flow, input: W.Input)
    requires LogAgrees(db) && Follows(db, id, flow) && !input.AlertCorrelated?
    ensures var (w, m) := (flow.machine.world, W.Step(flow.config, flow.machine, input));
            OneRow(w, m.world) && W.Logged(w) && W.Logged(m.world) && W.Safe(flow.config, m)
  {
    StepCommitsOneRow(flow.config, flow.machine, input);
    MirrorIsLogged(db, id, flow.machine.world);
    W.StepKeepsLog(flow.config, flow.machine, input);
    W.StepIsSafe(flow.config, flow.machine, input);
  }

  lemma AdvanceKeeps(g: Graph, s: State, id: Id, input: W.Input)
    requires AllFollow(s.correlators.db, s.flows) && LogAgrees(s.correlators.db)
    requires id in s.flows && !input.AlertCorrelated?
    ensures var s' := Next(g, s, Advance(id, input)); AllFollow(s'.correlators.db, s'.flows)
  {
    assert Follows(s.correlators.db, id, s.flows[id]);
    StepFollows(s.correlators.db, id, s.flows[id], input);
    WriteKeepsFlows(s.correlators.db, s.flows, id, W.Step(s.flows[id].config, s.flows[id].machine, input));
  }

  lemma StartKeeps(g: Graph, s: State, k: nat, config: W.Config, store: Executor.Store)
    requires AllFollow(s.correlators.db, s.flows)
    ensures var s' := Next(g, s, StartWorkflow(k, config, store)); AllFollow(s'.correlators.db, s'.flows)
  {
    var db := s.correlators.db;
    if k < |db.incidents| {
      var inc := db.incidents[k];
      var world := W.World(inc.status, KindsOf(db.timeline, inc.id), store);
      assert HasStatus(db, k, inc.id, inc.status);
      if W.Initial(config, world) { W.RunIsSafe(config, world, []); }
    }
  }

  // ---------------------------------------------------------------- every run

  /** The step as the correlators see it. */
  lemma StepIsSeen(g: Graph, s: State, a: Action, before: seq<C.Action>)
    requires s.correlators == C.Execute(g, before)
    requires Freshness.Numbered(s.correlators.db) && LogAgrees(s.correlators.db) && AllFollow(s.correlators.db, s.flows)
    ensures Next(g, s, a).correlators == C.Execute(g, before + Seen(s, a))
  {
    assert before + [] == before;
    match a
    case Correlate(step) => if !step.MoveIncident? { Freshness.RunThen(g, before, step); }
    case StartWorkflow(_, _, _) =>
    case Advance(id, input) =>
      if id in s.flows && !input.AlertCorrelated? {
        var flow := s.flows[id];
        var w, w' := flow.machine.world, W.Step(flow.config, flow.machine, input).world;
        assert Follows(s.correlators.db, id, flow);
        StepFollows(s.correlators.db, id, flow, input);
        if |w'.timeline| > |w.timeline| {
          WriteIsLog(g, s.correlators.db, id, w, w');
          Freshness.RunThen(g, before, C.MoveIncident(id, w'.timeline[|w.timeline|]));
        }
      }
  }

  lemma StepKeeps(g: Graph, s: State, a: Action)
    requires Freshness.Numbered(s.correlators.db) && LogAgrees(s.correlators.db) && AllFollow(s.correlators.db, s.flows)
    ensures AllFollow(Next(g, s, a).correlators.db, Next(g, s, a).flows)
  {
    match a
    case Correlate(step) =>
      if !step.MoveIncident? {
        StepDelivers(g, s.correlators, step);
        DeliveryKeeps(s.flows, s.correlators.db, C.Next(g, s.correlators, step).db);
      }
    case StartWorkflow(k, config, store) => StartKeeps(g, s, k, config, store);
    case Advance(id, input) => if id in s.flows && !input.AlertCorrelated? { AdvanceKeeps(g, s, id, input); }
  }

  /** A joint run is, for the tables, a concurrent run of the correlators in which the workflows' rows are logged by
      others: so all that holds of those runs holds of it. The workflows' own views are those of the tables. */
  lemma {:induction false} JointRunIsConcurrent(g: Graph, actions: seq<Action>)
    ensures Execute(g, actions).correlators == C.Execute(g, AllSeen(g, actions))
    ensures AllFollow(Execute(g, actions).correlators.db, Execute(g, actions).flows)
  {
    if actions != [] {
      var init, last := actions[..|actions| - 1], actions[|actions| - 1];
      var s := Execute(g, init);
      JointRunIsConcurrent(g, init);
      assert Freshness.Numbered(s.correlators.db) && LogAgrees(s.correlators.db) by {
        Freshness.RunIsSane(g, AllSeen(g, init));
        I.InterleavedTheorem(g, AllSeen(g, init));
      }
      StepIsSeen(g, s, last, AllSeen(g, init));
      StepKeeps(g, s, last);
    }
  }

  /** In every joint run, with correlators interleaved and crashing and activities retried or crashed anywhere:
      folding each incident's timeline gives its status, the timeline tells of all its alerts, every incident is
      announced once, and each workflow sees the tables as they are and is safe. */
  lemma JointTheorem(g: Graph, actions: seq<Action>)
    ensures var s := Execute(g, actions);
            && LogAgrees(s.correlators.db) && I.AllTold(s.correlators.db) && I.Heralded(s.correlators.db)
            && forall id :: id in s.flows ==>
                 && Mirrored(s.correlators.db, id, s.flows[id].machine.world)
                 && W.Safe(s.flows[id].config, s.flows[id].machine)
  {
    JointRunIsConcurrent(g, actions);
    I.InterleavedTheorem(g, AllSeen(g, actions));
  }

  /** If moreover every correlator's commit still finds what it read, the lists, outbox rows and severities are those
      of a serial run. */
  lemma CurrentJointTheorem(g: Graph, actions: seq<Action>)
    requires Serial.AllCurrent(g, AllSeen(g, actions))
    ensures var db := Execute(g, actions).correlators.db;
            Conserved(db) && SeverityIsMaximum(db) && LogAgrees(db) && TimelineTells(db)
  {
    JointRunIsConcurrent(g, actions);
    Serial.CurrentRunsAreSerial(g, AllSeen(g, actions));
    var steps := Serial.Commits(g, AllSeen(g, actions));
    RunConserves(g, steps);
    SeverityTheorem(g, steps);
    LogTheorem(g, steps);
    TimelineTheorem(g, steps);
  }
}
