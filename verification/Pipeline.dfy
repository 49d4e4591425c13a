/** End to end from raw alerts to the incidents.created topic: any number of correlators, interleaved and crashing
    anywhere, fill the outbox while any number of publishers drain it. */
module Pipeline {
  import opened Schema
  import Correlator
  import C = Workers
  import I = Interleaved
  import Freshness
  import Outbox
  import P = Publishers

  /** Row i of the publishers' table is the delivery state of outbox row i. */
  datatype State = State(correlators: C.System, publishing: P.State)

  datatype Action = Correlate(step: C.Action) | Publish(action: P.Action)

  function Inserts(added: seq<Correlator.OutboxRow>): seq<Outbox.Row> {
    seq(|added|, i requires 0 <= i < |added| => Outbox.NewRow(added[i].createdAt))
  }

  ghost function Next(g: Correlator.Graph, s: State, a: Action): State {
    match a
    case Correlate(step) =>
      var c := C.Next(g, s.correlators, step);
      if |s.correlators.db.outbox| <= |c.db.outbox|
      then
        var added := Inserts(c.db.outbox[|s.correlators.db.outbox|..]);
        State(c, s.publishing.(rows := s.publishing.rows + added))
      else s
    case Publish(action) => if action.Insert? then s else s.(publishing := P.Step(s.publishing, action))
  }

  ghost function Execute(g: Correlator.Graph, actions: seq<Action>): State {
    if actions == [] then State(C.START, P.START)
    else Next(g, Execute(g, actions[..|actions| - 1]), actions[|actions| - 1])
  }

  /** The actions of the correlators, without the publishing. */
  function Correlations(actions: seq<Action>): seq<C.Action> {
    if actions == [] then []
    else
      var last := actions[|actions| - 1];
      Correlations(actions[..|actions| - 1]) + if last.Correlate? then [last.step] else []
  }

  lemma OutboxGrows(g: Correlator.Graph, s: C.System, a: C.Action)
    ensures var outbox := C.Next(g, s, a).db.outbox;
            |s.db.outbox| <= |outbox| <= |s.db.outbox| + 1 && outbox[..|s.db.outbox|] == s.db.outbox
  {
    I.StepWrites(g, s, a);
  }

  /** Publishing never touches the correlators' tables. */
  lemma {:induction false} TablesAreCorrelated(g: Correlator.Graph, actions: seq<Action>)
    ensures Execute(g, actions).correlators == C.Execute(g, Correlations(actions))
  {
    if actions != [] {
      var init, last := actions[..|actions| - 1], actions[|actions| - 1];
      TablesAreCorrelated(g, init);
      if last.Correlate? {
        Freshness.RunThen(g, Correlations(init), last.step);
        OutboxGrows(g, Execute(g, init).correlators, last.step);
      } else {
        assert Correlations(actions) == Correlations(init);
      }
    }
  }

  lemma CorrelateKeeps(g: Correlator.Graph, s: State, a: C.Action)
    requires P.Inv(s.publishing) && |s.publishing.rows| == |s.correlators.db.outbox|
    ensures var s' := Next(g, s, Correlate(a));
            P.Inv(s'.publishing) && |s'.publishing.rows| == |s'.correlators.db.outbox|
  {
    OutboxGrows(g, s.correlators, a);
    var before, outbox := s.correlators.db.outbox, C.Next(g, s.correlators, a).db.outbox;
    var s' := Next(g, s, Correlate(a));
    if |outbox| > |before| {
      var row := outbox[|before|];
      assert Inserts(outbox[|before|..]) == [Outbox.NewRow(row.createdAt)];
      assert s'.publishing == P.Next(s.publishing, P.Insert(row.createdAt));
      P.InsertKeeps(s.publishing, row.createdAt);
    } else {
      assert s'.publishing.rows == s.publishing.rows;
    }
  }

  /** Every outbox row that a correlator commits is handed to the publishers ready to be sent. */
  lemma CommittedRowsAreEligible(g: Correlator.Graph, s: State, a: C.Action)
    requires |s.publishing.rows| == |s.correlators.db.outbox|
    ensures var (before, s') := (|s.correlators.db.outbox|, Next(g, s, Correlate(a)));
            && |s'.publishing.rows| == |s'.correlators.db.outbox|
            && s'.publishing.rows[..before] == s.publishing.rows
            && forall i :: before <= i < |s'.publishing.rows| ==>
                 Outbox.Eligible(s'.publishing.rows[i])
                 && s'.publishing.rows[i].createdAt == s'.correlators.db.outbox[i].createdAt
  {
    OutboxGrows(g, s.correlators, a);
  }

  lemma {:induction false} PublishingKeeps(g: Correlator.Graph, actions: seq<Action>)
    ensures var s := Execute(g, actions);
            P.Inv(s.publishing) && |s.publishing.rows| == |s.correlators.db.outbox|
  {
    if actions != [] {
      var init, last := actions[..|actions| - 1], actions[|actions| - 1];
      var s, s' := Execute(g, init), Execute(g, actions);
      PublishingKeeps(g, init);
      match last
      case Publish(action) =>
        if !action.Insert? {
          P.StepKeeps(s.publishing, action);
          assert |s'.publishing.rows| == |s.publishing.rows|;
        }
      case Correlate(step) => CorrelateKeeps(g, s, step);
    }
  }

  // ---------------------------------------------------------------- the topic

  /** An incidents.created message with this event id, for this incident, is on the topic. */
  ghost predicate OnTopic(s: State, eventId: Id, incident: Id) {
    exists i: nat :: i in s.publishing.topic && I.CreationRow(s.correlators.db, i, incident)
                     && s.correlators.db.outbox[i].eventId == eventId
  }

  lemma RunIsHeralded(g: Correlator.Graph, actions: seq<Action>)
    ensures I.Heralded(Execute(g, actions).correlators.db)
  {
    TablesAreCorrelated(g, actions);
    I.InterleavedTheorem(g, Correlations(actions));
  }

  /** Under any interleaving of correlators and publishers: every message on incidents.created names an existing
      incident, and event ids and incidents determine each other, however often rows were sent again. */
  lemma TopicTheorem(g: Correlator.Graph, actions: seq<Action>)
    ensures var s := Execute(g, actions);
            && (forall e, id :: OnTopic(s, e, id) ==> Correlator.HasIncident(s.correlators.db.incidents, id))
            && (forall e, f, id :: OnTopic(s, e, id) && OnTopic(s, f, id) ==> e == f)
            && (forall e, id, id' :: OnTopic(s, e, id) && OnTopic(s, e, id') ==> id == id')
  {
    RunIsHeralded(g, actions);
    TopicOfHeralded(Execute(g, actions));
  }

  lemma TopicOfHeralded(s: State)
    requires I.Heralded(s.correlators.db)
    ensures forall e, id :: OnTopic(s, e, id) ==> Correlator.HasIncident(s.correlators.db.incidents, id)
    ensures forall e, f, id :: OnTopic(s, e, id) && OnTopic(s, f, id) ==> e == f
    ensures forall e, id, id' :: OnTopic(s, e, id) && OnTopic(s, e, id') ==> id == id'
  {
    var db := s.correlators.db;
    forall e, id, id' | OnTopic(s, e, id) && OnTopic(s, e, id') ensures id == id' {
      var i: nat :| I.CreationRow(db, i, id) && db.outbox[i].eventId == e;
      var j: nat :| I.CreationRow(db, j, id') && db.outbox[j].eventId == e;
    }
  }

  /** Once every outbox row is published, each incident is announced on the topic by exactly one event id:
      with TopicTheorem, event ids on the topic and incidents are in bijection. */
  lemma EndToEndTheorem(g: Correlator.Graph, actions: seq<Action>, n: nat)
    requires n < |Execute(g, actions).correlators.db.incidents|
    requires forall i :: 0 <= i < |Execute(g, actions).publishing.rows| ==>
               Execute(g, actions).publishing.rows[i].published
    ensures var s := Execute(g, actions);
            exists e :: OnTopic(s, e, s.correlators.db.incidents[n].id)
                        && forall f :: OnTopic(s, f, s.correlators.db.incidents[n].id) ==> f == e
  {
    var s := Execute(g, actions);
    var id := s.correlators.db.incidents[n].id;
    RunIsHeralded(g, actions);
    TopicOfHeralded(s);
    PublishingKeeps(g, actions);
    assert I.HasCreation(s.correlators.db, id);
    var i: nat :| I.CreationRow(s.correlators.db, i, id);
    assert P.Accounted(s.publishing, i);
    P.CountMember(s.publishing.topic, i);
    assert OnTopic(s, s.correlators.db.outbox[i].eventId, id);
  }
}
