/** The Kafka consume loop: check, handle, commit. A commit stores the positions of all partitions. */
module Consumer {

  /** What happened to one delivered record. */
  datatype Outcome =
    | Handled(committed: bool)   // the handler returned; the commit that follows may still fail
    | Skipped(committed: bool)   // the idempotency check found the event processed
    | Failed                     // the check or the handler raised

  /** What the environment does while a record is processed. */
  datatype Env = Env(
    hasEventId: bool, checkRaises: bool, alreadyProcessed: bool, handlerRaises: bool, commitRaises: bool)

  function OutcomeOf(env: Env): Outcome {
    if env.hasEventId && env.checkRaises then Failed
    else if env.hasEventId && env.alreadyProcessed then Skipped(!env.commitRaises)
    else if env.handlerRaises then Failed
    else Handled(!env.commitRaises)
  }

  datatype Event = Deliver(partition: nat, env: Env) | Restart

  /** Offsets by partition. A partition that is not in the map stands at 0. */
  type Offsets = map<nat, nat>

  function At(offsets: Offsets, p: nat): nat {
    if p in offsets then offsets[p] else 0
  }

  datatype State = State(position: Offsets, committed: Offsets)

  function Next(s: State, e: Event): State {
    match e
    case Deliver(p, env) =>
      var position := s.position[p := At(s.position, p) + 1];
      var outcome := OutcomeOf(env);
      State(position, if !outcome.Failed? && outcome.committed then position else s.committed)
    case Restart => s.(position := s.committed)
  }

  function Execute(trace: seq<Event>): State {
    if trace == [] then State(map[], map[])
    else Next(Execute(trace[..|trace| - 1]), trace[|trace| - 1])
  }

  // ---------------------------------------------------------------- what an outcome means

  /** The record's event is known to be processed, so its handler is not called. */
  predicate KnownProcessed(env: Env) {
    env.hasEventId && !env.checkRaises && env.alreadyProcessed
  }

  /** The check raised, or the handler was called and raised. */
  predicate Raised(env: Env) {
    (env.hasEventId && env.checkRaises) || (!KnownProcessed(env) && env.handlerRaises)
  }

  /** A commit follows, and it succeeds, exactly when nothing raised. */
  predicate Commits(e: Event) {
    e.Deliver? && !Raised(e.env) && !e.env.commitRaises
  }

  lemma OutcomeExact(env: Env)
    ensures var outcome := OutcomeOf(env);
            && (outcome.Failed? <==> Raised(env))
            && (outcome.Skipped? <==> KnownProcessed(env))
            && (!outcome.Failed? ==> outcome.committed == !env.commitRaises)
  {
  }

  /** One record: the position moves by one, and all positions are stored if and only if nothing raised. */
  lemma CommitsExactlyWhenNothingRaised(s: State, p: nat, env: Env)
    ensures var s' := Next(s, Deliver(p, env));
            && (forall q: nat :: At(s'.position, q) == At(s.position, q) + if q == p then 1 else 0)
            && s'.committed == if !Raised(env) && !env.commitRaises then s'.position else s.committed
  {
  }

  // ---------------------------------------------------------------- the loop

  class AegisConsumer {
    var position: Offsets
    var committed: Offsets

    function Contents(): State
      reads this
    {
      State(position, committed)
    }

    constructor (stored: Offsets)
      ensures Contents() == State(stored, stored)
    {
      position, committed := stored, stored;
    }

    method Commit(raises: bool) returns (ok: bool)
      modifies this`committed
      ensures ok == !raises && committed == if ok then position else old(committed)
    {
      ok := !raises;
      if ok { committed := position; }
    }

    /** The position has moved past the record before it is processed. */
    method ProcessRecord(env: Env) returns (outcome: Outcome)
      modifies this`committed
      ensures outcome == OutcomeOf(env)
      ensures outcome.Failed? <==> Raised(env)
      ensures outcome.Skipped? <==> KnownProcessed(env)
      ensures committed == if !Raised(env) && !env.commitRaises then position else old(committed)
    {
      if env.hasEventId {
        if env.checkRaises {
          return Failed;
        }
        if env.alreadyProcessed {
          var ok := Commit(env.commitRaises);
          return Skipped(ok);
        }
      }
      if env.handlerRaises {
        return Failed;
      }
      var ok := Commit(env.commitRaises);
      return Handled(ok);
    }

    /** One session of the loop over the records that arrive, as partition and environment. */
    method Run(records: seq<(nat, Env)>)
      modifies this
      ensures Contents() == Session(old(Contents()), records)
    {
      for i := 0 to |records|
        invariant Contents() == Session(old(Contents()), records[..i])
      {
        var (p, env) := records[i];
        position := position[p := At(position, p) + 1];
        var outcome := ProcessRecord(env);
        assert records[..i + 1][..i] == records[..i];
        assert Contents() == Next(Session(old(Contents()), records[..i]), Deliver(p, env));
      }
      assert records[..|records|] == records;
    }
  }

  function Session(s: State, records: seq<(nat, Env)>): State {
    if records == [] then s
    else
      var (p, env) := records[|records| - 1];
      Next(Session(s, records[..|records| - 1]), Deliver(p, env))
  }

  // ---------------------------------------------------------------- offset safety

  /** Event k of the trace delivers offset `o` of partition `p`. */
  ghost predicate Delivers(trace: seq<Event>, k: nat, p: nat, o: nat) {
    k < |trace| && trace[k].Deliver? && trace[k].partition == p && At(Execute(trace[..k]).position, p) == o
  }

  ghost predicate Done(trace: seq<Event>, p: nat, o: nat) {
    exists k: nat :: Delivers(trace, k, p, o) && !Raised(trace[k].env)
  }

  ghost predicate NoRestart(trace: seq<Event>, from: nat, to: nat)
    requires to <= |trace|
  {
    forall i :: from <= i < to ==> trace[i].Deliver?
  }

  /** The record's handler raised in the session that is still running. */
  ghost predicate FailedHere(trace: seq<Event>, p: nat, o: nat) {
    exists k: nat :: Delivers(trace, k, p, o) && Raised(trace[k].env) && NoRestart(trace, k, |trace|)
  }

  ghost predicate PassedBy(trace: seq<Event>, j: nat, k: nat, p: nat, o: nat) {
    && j < k < |trace|
    && Delivers(trace, j, p, o) && Raised(trace[j].env)
    && Commits(trace[k]) && NoRestart(trace, j, k)
  }

  /** The record's handler raised, and a later commit of the same session passed it. */
  ghost predicate PassedOver(trace: seq<Event>, p: nat, o: nat) {
    exists j: nat, k: nat :: PassedBy(trace, j, k, p, o)
  }

  ghost predicate Safe(trace: seq<Event>, p: nat) {
    var s := Execute(trace);
    && At(s.committed, p) <= At(s.position, p)
    && (forall o: nat :: o < At(s.committed, p) ==> Done(trace, p, o) || PassedOver(trace, p, o))
    && (forall o: nat :: o < At(s.position, p) ==>
          Done(trace, p, o) || PassedOver(trace, p, o) || FailedHere(trace, p, o))
  }

  lemma FactsPersist(trace: seq<Event>, e: Event, p: nat, o: nat)
    ensures Done(trace, p, o) ==> Done(trace + [e], p, o)
    ensures PassedOver(trace, p, o) ==> PassedOver(trace + [e], p, o)
    ensures FailedHere(trace, p, o) && e.Deliver? ==> FailedHere(trace + [e], p, o)
    ensures FailedHere(trace, p, o) && Commits(e) ==> PassedOver(trace + [e], p, o)
  {
    var trace' := trace + [e];
    assert forall k: nat :: k <= |trace| ==> trace'[..k] == trace[..k];
    assert forall k: nat :: Delivers(trace, k, p, o) ==> Delivers(trace', k, p, o);
    if PassedOver(trace, p, o) {
      var j: nat, k: nat :| PassedBy(trace, j, k, p, o);
      assert PassedBy(trace', j, k, p, o);
    }
    if FailedHere(trace, p, o) && Commits(e) {
      var k: nat :| Delivers(trace, k, p, o) && Raised(trace[k].env) && NoRestart(trace, k, |trace|);
      assert PassedBy(trace', k, |trace|, p, o);
    }
  }

  /** In every run with restarts, the handler of a record below the committed offset returned, or its event was
      known to be processed, unless its own check or handler raised and a later commit of the same session
      passed it. */
  lemma {:induction false} OffsetSafety(trace: seq<Event>, p: nat)
    ensures Safe(trace, p)
  {
    if trace != [] {
      var init, e := trace[..|trace| - 1], trace[|trace| - 1];
      OffsetSafety(init, p);
      assert trace == init + [e];
      forall o: nat { FactsPersist(init, e, p, o); }
      if e.Deliver? && e.partition == p {
        assert Delivers(trace, |init|, p, At(Execute(init).position, p));
      }
    }
  }

  // ---------------------------------------------------------------- failed records

  /** Offsets below the committed one are never delivered again. */
  lemma {:induction false} CommittedIsGone(trace: seq<Event>, suffix: seq<Event>, p: nat, o: nat)
    requires o < At(Execute(trace).committed, p)
    ensures var s := Execute(trace + suffix); o < At(s.committed, p) && o < At(s.position, p)
    ensures forall k: nat :: |trace| <= k ==> !Delivers(trace + suffix, k, p, o)
  {
    OffsetSafety(trace, p);
    if suffix == [] {
      assert trace + suffix == trace;
    } else {
      var init, e := suffix[..|suffix| - 1], suffix[|suffix| - 1];
      CommittedIsGone(trace, init, p, o);
      OffsetSafety(trace + init, p);
      assert (trace + suffix)[..|trace + init|] == trace + init;
      forall k: nat | |trace| <= k ensures !Delivers(trace + suffix, k, p, o) {
        if k < |trace + init| {
          assert (trace + suffix)[..k] == (trace + init)[..k];
          assert !Delivers(trace + init, k, p, o);
        }
      }
    }
  }

  /** The fate of a failed record hangs on what comes first, a commit of the session or a restart. After a
      commit it is never delivered again; after a restart it is still to come. */
  lemma FateOfFailedRecord(trace: seq<Event>, env: Env, between: seq<Event>, e: Event, p: nat)
    requires Raised(env)
    requires forall x :: x in between ==> x.Deliver? && !Commits(x)
    requires Commits(e) || e.Restart?
    ensures var (o, t) := (At(Execute(trace).position, p), trace + [Deliver(p, env)] + between + [e]);
            && (Commits(e) ==> forall suffix, k: nat :: |t| <= k ==> !Delivers(t + suffix, k, p, o))
            && (e.Restart? ==> At(Execute(t).position, p) <= o)
  {
    var failed := trace + [Deliver(p, env)];
    assert failed[..|trace|] == trace;
    OffsetSafety(trace, p);
    Stays(failed, between, p);
    var o, t := At(Execute(trace).position, p), failed + between + [e];
    assert t[..|t| - 1] == failed + between;
    if Commits(e) {
      forall suffix, k: nat | |t| <= k ensures !Delivers(t + suffix, k, p, o) {
        CommittedIsGone(t, suffix, p, o);
      }
    }
  }

  /** Deliveries that do not commit leave the committed offsets and never lower a position. */
  lemma {:induction false} Stays(trace: seq<Event>, between: seq<Event>, p: nat)
    requires forall x :: x in between ==> x.Deliver? && !Commits(x)
    ensures var (s, s') := (Execute(trace), Execute(trace + between));
            s'.committed == s.committed && At(s.position, p) <= At(s'.position, p)
  {
    if between == [] {
      assert trace + between == trace;
    } else {
      var init, x := between[..|between| - 1], between[|between| - 1];
      assert x in between && forall y :: y in init ==> y in between;
      Stays(trace, init, p);
      assert (trace + between)[..|trace + between| - 1] == trace + init;
    }
  }
}
