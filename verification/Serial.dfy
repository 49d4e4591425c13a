/** Concurrent and serial runs. A concurrent run in which every commit still finds what its transaction read is a
    serial run of the commits, so all that holds of serial runs holds of it; and every serial run is such a run. */
module Serial {
  import opened Schema
  import opened Correlator
  import opened Workers
  import Freshness

  // ---------------------------------------------------------------- current reads

  /** The commit does something. */
  predicate TakesEffect(s: System, a: Action) {
    && a.Commit? && a.worker in s.workers
    && !s.workers[a.worker].Begun? && !s.workers[a.worker].NotProcessed? && !s.workers[a.worker].NoTwin?
    && EventId(s.workers[a.worker].event) !in s.db.processed
  }

  /** The database's choice among incidents of one age that the worker has seen. */
  function Choice(p: Phase): nat {
    if p.FoundIncident? then p.index else 0
  }

  /** If the transaction read again now, it would read the same. */
  predicate StillReads(g: Graph, s: System, a: Action)
    requires TakesEffect(s, a)
  {
    var p := s.workers[a.worker];
    Effective(p.event) && p == Reads(g, s.db, p.event, a.now, Choice(p))
  }

  ghost predicate AllCurrent(g: Graph, actions: seq<Action>) {
    actions == [] ||
    var init, last := actions[..|actions| - 1], actions[|actions| - 1];
    AllCurrent(g, init) && (TakesEffect(Execute(g, init), last) ==> StillReads(g, Execute(g, init), last))
  }

  /** The commits of the run, as a serial run. */
  ghost function Commits(g: Graph, actions: seq<Action>): seq<Step> {
    if actions == [] then []
    else
      var s, last := Execute(g, actions[..|actions| - 1]), actions[|actions| - 1];
      Commits(g, actions[..|actions| - 1])
      + if last.MoveIncident? then [Transition(last.incident, last.row)]
        else if TakesEffect(s, last)
        then var p := s.workers[last.worker]; [Deliver(p.event, last.now, Choice(p))]
        else []
  }

  lemma StepIsSerial(g: Graph, s: System, a: Action)
    requires TakesEffect(s, a) ==> StillReads(g, s, a)
    ensures Next(g, s, a).db
            == if a.MoveIncident? then Apply(g, s.db, Transition(a.incident, a.row))
               else if TakesEffect(s, a)
               then var p := s.workers[a.worker]; Apply(g, s.db, Deliver(p.event, a.now, Choice(p)))
               else s.db
  {
    if TakesEffect(s, a) {
      var p := s.workers[a.worker];
      CommitOfReads(g, s, a.worker, p.event, a.now, Choice(p));
    }
  }

  lemma RunThen(g: Graph, steps: seq<Step>, step: Step)
    ensures Run(g, steps + [step]) == Apply(g, Run(g, steps), step)
  {
    assert (steps + [step])[..|steps|] == steps;
  }

  /** If every commit still finds what its transaction read, the tables are those of the serial run of the commits,
      in their order. */
  lemma {:induction false} CurrentRunsAreSerial(g: Graph, actions: seq<Action>)
    requires AllCurrent(g, actions)
    ensures Execute(g, actions).db == Run(g, Commits(g, actions))
  {
    if actions != [] {
      var init, last := actions[..|actions| - 1], actions[|actions| - 1];
      var s := Execute(g, init);
      CurrentRunsAreSerial(g, init);
      StepIsSerial(g, s, last);
      if last.MoveIncident? {
        RunThen(g, Commits(g, init), Transition(last.incident, last.row));
      } else if TakesEffect(s, last) {
        RunThen(g, Commits(g, init), Deliver(s.workers[last.worker].event, last.now, Choice(s.workers[last.worker])));
      } else {
        assert Commits(g, actions) == Commits(g, init);
      }
    }
  }

  // ---------------------------------------------------------------- serial runs as concurrent runs

  /** The actions of one worker that handles the step alone. */
  function Alone(step: Step): seq<Action> {
    match step
    case Deliver(e, now, pick) => Freshness.UpToCommit(0, e, now, pick) + [Commit(0, now)]
    case Transition(id, row) => [MoveIncident(id, row)]
  }

  lemma ChoiceReads(g: Graph, db: Db, e: RawEvent, now: Time, pick: nat)
    requires Effective(e)
    ensures Reads(g, db, e, now, Choice(Reads(g, db, e, now, pick))) == Reads(g, db, e, now, pick)
  {
  }

  lemma PreparedStillReads(g: Graph, s: System, e: RawEvent, now: Time, pick: nat)
    requires s.workers == map[]
    ensures var s' := Prepared(g, s, 0, e, now, pick);
            && (TakesEffect(s', Commit(0, now)) ==> StillReads(g, s', Commit(0, now)))
            && Next(g, s', Commit(0, now)).db == Apply(g, s.db, Deliver(e, now, pick))
            && Next(g, s', Commit(0, now)).workers == map[]
  {
    if Effective(e) {
      UninterruptedIsSerial(g, s, 0, e, now, pick);
      if EventId(e) !in s.db.processed {
        PreparedReads(g, s, 0, e, now, pick);
        ChoiceReads(g, s.db, e, now, pick);
      } else {
        assert Next(g, Next(g, s, Begin(0, e)), ReadProcessed(0)) == s;
      }
    }
  }

  lemma ReadsStayCurrent(g: Graph, actions: seq<Action>, e: RawEvent, now: Time, pick: nat)
    requires AllCurrent(g, actions)
    ensures AllCurrent(g, actions + Freshness.UpToCommit(0, e, now, pick))
  {
    var a1 := actions + [Begin(0, e)];
    var a2 := a1 + [ReadProcessed(0)];
    var a3 := a2 + [ReadTwin(0, now)];
    var a4 := a3 + [ReadIncident(0, now, pick)];
    assert a1[..|actions|] == actions && a2[..|a1|] == a1 && a3[..|a2|] == a2 && a4[..|a3|] == a3;
    assert a4 == actions + Freshness.UpToCommit(0, e, now, pick);
    assert AllCurrent(g, a1);
    assert AllCurrent(g, a2);
    assert AllCurrent(g, a3);
  }

  /** Every serial run is a concurrent run whose commits all find what was read. */
  lemma {:induction false} SerialRunsAreCurrent(g: Graph, steps: seq<Step>) returns (actions: seq<Action>)
    ensures AllCurrent(g, actions) && Execute(g, actions).db == Run(g, steps) && Execute(g, actions).workers == map[]
  {
    if steps == [] {
      actions := [];
    } else {
      var last := steps[|steps| - 1];
      var before := SerialRunsAreCurrent(g, steps[..|steps| - 1]);
      actions := before + Alone(last);
      match last
      case Deliver(e, now, pick) =>
        var read := before + Freshness.UpToCommit(0, e, now, pick);
        assert actions == read + [Commit(0, now)] && actions[..|actions| - 1] == read;
        Freshness.RunUpToCommit(g, before, 0, e, now, pick);
        Freshness.RunThen(g, read, Commit(0, now));
        ReadsStayCurrent(g, before, e, now, pick);
        PreparedStillReads(g, Execute(g, before), e, now, pick);
      case Transition(id, row) =>
        assert actions[..|actions| - 1] == before;
        Freshness.RunThen(g, before, MoveIncident(id, row));
    }
  }
}
