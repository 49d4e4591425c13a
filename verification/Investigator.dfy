/** The investigator: one action per marked event, plus one per delivery that acted but left no mark. */
module Investigator {
  import opened Schema

  // ---------------------------------------------------------------- deliveries

  /** An incidents.created message. A missing event id reads as "". */
  datatype Created = Created(eventId: string, incident: Option<Id>)

  datatype ActKind = StartedWorkflow | RanFallback
  datatype Act = Act(eventId: string, incident: Id, kind: ActKind)

  /** `running` holds the incidents whose workflow is open: a second start of one is refused. `acts`, `unmarked`
      and `doubled` are history: what deliveries did, the event ids of those that acted but left no mark, and of
      those that both started a workflow and ran the fallback. */
  datatype State = State(
    processed: set<string>, running: set<Id>, acts: seq<Act>, unmarked: seq<string>, doubled: seq<string>)

  const EMPTY := State({}, {}, [], [], [])

  datatype Mark = Marked | MarkFails | CrashBeforeMark

  /** How the call that starts a workflow ends. It may raise although Temporal has accepted the start, as on a
      deadline. */
  datatype Start = Starts | RaisesUnstarted | RaisesStarted

  datatype Env = Env(checkRaises: bool, start: Start, fallbackRaises: bool, mark: Mark)

  datatype Event = Deliver(message: Created, env: Env) | WorkflowCloses(incident: Id)

  predicate Ignored(s: State, m: Created, env: Env) {
    m.incident.None? || (m.eventId != "" && (env.checkRaises || m.eventId in s.processed))
  }

  /** The start opens a workflow. */
  predicate Opens(s: State, id: Id, start: Start) {
    id !in s.running && !start.RaisesUnstarted?
  }

  /** The start raises, so the fallback runs. */
  predicate Raises(s: State, id: Id, start: Start) {
    id in s.running || !start.Starts?
  }

  function Handle(s: State, m: Created, env: Env): State {
    if Ignored(s, m, env) then s
    else
      var id := m.incident.value;
      var opens, raises := Opens(s, id, env.start), Raises(s, id, env.start);
      var acted := s.(running := if opens then s.running + {id} else s.running,
                      acts := s.acts + (if opens then [Act(m.eventId, id, StartedWorkflow)] else [])
                                     + (if raises then [Act(m.eventId, id, RanFallback)] else []),
                      doubled := s.doubled + if opens && raises then [m.eventId] else []);
      if (raises && env.fallbackRaises) || !env.mark.Marked?
      then acted.(unmarked := s.unmarked + [m.eventId])
      else acted.(processed := s.processed + {m.eventId})
  }

  function Next(s: State, e: Event): State {
    match e
    case Deliver(m, env) => Handle(s, m, env)
    case WorkflowCloses(id) => s.(running := s.running - {id})
  }

  function Execute(s: State, events: seq<Event>): State {
    if events == [] then s
    else Next(Execute(s, events[..|events| - 1]), events[|events| - 1])
  }

  datatype HandlerResult = Returned | HandlerRaised | Crashed

  class InvestigatorWorker {
    var processed: set<string>
    var running: set<Id>
    ghost var acts: seq<Act>
    ghost var unmarked: seq<string>
    ghost var doubled: seq<string>

    ghost function Contents(): State
      reads this
    {
      State(processed, running, acts, unmarked, doubled)
    }

    constructor ()
      ensures Contents() == EMPTY
    {
      processed, running, acts, unmarked, doubled := {}, {}, [], [], [];
    }

    method StartIncidentWorkflow(id: Id, start: Start) returns (raised: bool)
      modifies this`running
      ensures raised == Raises(old(Contents()), id, start)
      ensures running == if Opens(old(Contents()), id, start) then old(running) + {id} else old(running)
    {
      if id in running || start.RaisesUnstarted? {
        return true;
      }
      running := running + {id};
      return start.RaisesStarted?;
    }

    method HandleIncidentCreated(m: Created, env: Env) returns (r: HandlerResult)
      modifies this
      ensures Contents() == Handle(old(Contents()), m, env)
      ensures m.eventId in processed - old(processed) ==> r == Returned
      ensures m.incident.None? ==> r == Returned
      ensures m.incident.Some? && m.eventId != "" && env.checkRaises ==> r == HandlerRaised
      ensures !Ignored(old(Contents()), m, env) ==>
                var startRaised := m.incident.value in old(running) || !env.start.Starts?;
                && (r == HandlerRaised <==> startRaised && env.fallbackRaises)
                && (r == Crashed <==> !(startRaised && env.fallbackRaises) && env.mark == CrashBeforeMark)
    {
      if m.incident.None? {
        return Returned;
      }
      if m.eventId != "" {
        if env.checkRaises {
          return HandlerRaised;
        }
        if m.eventId in processed {
          return Returned;
        }
      }
      ghost var opens := Opens(Contents(), m.incident.value, env.start);
      var raised := StartIncidentWorkflow(m.incident.value, env.start);
      acts := acts + (if opens then [Act(m.eventId, m.incident.value, StartedWorkflow)] else [])
                   + (if raised then [Act(m.eventId, m.incident.value, RanFallback)] else []);
      doubled := doubled + if opens && raised then [m.eventId] else [];
      if raised && env.fallbackRaises {
        unmarked := unmarked + [m.eventId];
        return HandlerRaised;
      }
      match env.mark {
        case CrashBeforeMark =>
          unmarked := unmarked + [m.eventId];
          r := Crashed;
        case MarkFails =>
          unmarked := unmarked + [m.eventId];
          r := Returned;
        case Marked =>
          processed := processed + {m.eventId};
          r := Returned;
      }
    }
  }

  // ---------------------------------------------------------------- at most once, plus the unmarked

  function ActsOn(acts: seq<Act>, eventId: string): nat {
    if acts == [] then 0
    else ActsOn(acts[..|acts| - 1], eventId) + if acts[|acts| - 1].eventId == eventId then 1 else 0
  }

  function Occurrences(ids: seq<string>, id: string): nat {
    if ids == [] then 0 else Occurrences(ids[..|ids| - 1], id) + if ids[|ids| - 1] == id then 1 else 0
  }

  lemma {:induction false} ActsOnConcat(a: seq<Act>, b: seq<Act>, eventId: string)
    ensures ActsOn(a + b, eventId) == ActsOn(a, eventId) + ActsOn(b, eventId)
  {
    if b == [] {
      assert a + b == a;
    } else {
      ActsOnConcat(a, b[..|b| - 1], eventId);
      assert (a + b)[..|a + b| - 1] == a + b[..|b| - 1];
    }
  }

  lemma OccurrencesAppend(ids: seq<string>, id: string, eventId: string)
    ensures Occurrences(ids + [id], eventId) == Occurrences(ids, eventId) + if id == eventId then 1 else 0
  {
    assert (ids + [id])[..|ids|] == ids;
  }

  /** What a delivery that is not ignored adds to the acts. */
  function NewActs(s: State, m: Created, env: Env): seq<Act>
    requires m.incident.Some?
  {
    (if Opens(s, m.incident.value, env.start) then [Act(m.eventId, m.incident.value, StartedWorkflow)] else [])
    + (if Raises(s, m.incident.value, env.start) then [Act(m.eventId, m.incident.value, RanFallback)] else [])
  }

  lemma CountNewActs(s: State, m: Created, env: Env, eventId: string)
    requires m.incident.Some?
    ensures ActsOn(NewActs(s, m, env), eventId) == if m.eventId == eventId then |NewActs(s, m, env)| else 0
  {
    var id := m.incident.value;
    var started, ran := [Act(m.eventId, id, StartedWorkflow)], [Act(m.eventId, id, RanFallback)];
    ActsOnOne(started[0], eventId);
    ActsOnOne(ran[0], eventId);
    ActsOnConcat(started, ran, eventId);
    assert started + [] == started && [] + ran == ran;
  }

  lemma ActsOnOne(a: Act, eventId: string)
    ensures ActsOn([a], eventId) == if a.eventId == eventId then 1 else 0
  {
    assert [a][..0] == [];
  }

  lemma HandleAddsActs(s: State, m: Created, env: Env)
    requires !Ignored(s, m, env)
    ensures Handle(s, m, env).acts == s.acts + NewActs(s, m, env)
    ensures Handle(s, m, env).doubled == s.doubled + if |NewActs(s, m, env)| == 2 then [m.eventId] else []
  {
  }

  /** A delivery that is not ignored acts once or twice: it opens a workflow if none is open and Temporal accepts the
      start, and runs the fallback if the start raises, for whatever reason. It does both if and only if the start
      was accepted and still raised. */
  lemma ActsOfDelivery(s: State, m: Created, env: Env, eventId: string)
    requires !Ignored(s, m, env)
    ensures var s' := Handle(s, m, env);
            var opens, raises := Opens(s, m.incident.value, env.start), Raises(s, m.incident.value, env.start);
            && (opens || raises) && (opens && raises <==> m.incident.value !in s.running && env.start.RaisesStarted?)
            && ActsOn(s'.acts, eventId)
               == ActsOn(s.acts, eventId)
                  + (if m.eventId != eventId then 0 else if opens && raises then 2 else 1)
            && Occurrences(s'.doubled, eventId)
               == Occurrences(s.doubled, eventId) + if m.eventId == eventId && opens && raises then 1 else 0
  {
    HandleAddsActs(s, m, env);
    ActsOnConcat(s.acts, NewActs(s, m, env), eventId);
    CountNewActs(s, m, env, eventId);
    if |NewActs(s, m, env)| == 2 {
      OccurrencesAppend(s.doubled, m.eventId, eventId);
    } else {
      assert s.doubled + [] == s.doubled;
    }
  }

  /** The account that every delivery keeps. */
  ghost predicate Balanced(s: State, eventId: string) {
    ActsOn(s.acts, eventId)
    == Occurrences(s.unmarked, eventId) + Occurrences(s.doubled, eventId) + if eventId in s.processed then 1 else 0
  }

  lemma HandleMarks(s: State, m: Created, env: Env, eventId: string)
    requires !Ignored(s, m, env) && eventId != ""
    ensures var s' := Handle(s, m, env);
            Occurrences(s'.unmarked, eventId) + (if eventId in s'.processed then 1 else 0)
            == Occurrences(s.unmarked, eventId) + (if eventId in s.processed then 1 else 0)
               + (if m.eventId == eventId then 1 else 0)
  {
    OccurrencesAppend(s.unmarked, m.eventId, eventId);
  }

  lemma HandleBalances(s: State, m: Created, env: Env, eventId: string)
    requires eventId != "" && Balanced(s, eventId)
    ensures Balanced(Handle(s, m, env), eventId)
  {
    if !Ignored(s, m, env) {
      ActsOfDelivery(s, m, env, eventId);
      HandleMarks(s, m, env, eventId);
    }
  }

  /** One investigator acts on an event exactly once if it ends up marked, plus once per delivery that acted
      and then crashed, failed or lost its mark, plus once per delivery whose start raised after it was accepted. */
  lemma {:induction false} ActsTheorem(events: seq<Event>, eventId: string)
    requires eventId != ""
    ensures var s := Execute(EMPTY, events);
            ActsOn(s.acts, eventId)
            == Occurrences(s.unmarked, eventId) + Occurrences(s.doubled, eventId)
               + if eventId in s.processed then 1 else 0
  {
    if events != [] {
      var init, e := events[..|events| - 1], events[|events| - 1];
      ActsTheorem(init, eventId);
      if e.Deliver? {
        HandleBalances(Execute(EMPTY, init), e.message, e.env, eventId);
      }
    }
  }

  /** Exactly when a delivery newly marks its event: it acted, no fallback that it ran raised, and the mark was
      stored. */
  lemma MarksExactly(s: State, m: Created, env: Env)
    requires m.incident.Some?
    ensures var s', id := Handle(s, m, env), m.incident.value;
            && (m.eventId in s'.processed && m.eventId !in s.processed <==>
                  && m.eventId !in s.processed && (m.eventId == "" || !env.checkRaises) && env.mark == Marked
                  && !((id in s.running || env.start != Starts) && env.fallbackRaises))
            && s'.processed <= s.processed + {m.eventId} && s.processed <= s'.processed
  {
  }

  /** Exactly when a delivery opens a workflow and when it runs the fallback. Nothing else changes what is open. */
  lemma OpensExactly(s: State, m: Created, env: Env)
    requires m.incident.Some?
    ensures var s', id := Handle(s, m, env), m.incident.value;
            var acts := m.eventId == "" || (!env.checkRaises && m.eventId !in s.processed);
            && s'.running == s.running + (if acts && env.start != RaisesUnstarted then {id} else {})
            && s'.acts == s.acts
                          + (if acts && id !in s.running && env.start != RaisesUnstarted
                             then [Act(m.eventId, id, StartedWorkflow)] else [])
                          + (if acts && (id in s.running || env.start != Starts)
                             then [Act(m.eventId, id, RanFallback)] else [])
  {
    assert s.acts + [] + [] == s.acts;
  }

  /** Once its workflow is closed, and only then, an incident can be given another. */
  lemma OpensAgainExactlyWhenClosed(s: State, m: Created, env: Env, closed: Id)
    requires m.incident.Some? && m.incident.value in s.running && env.start == Starts && !Ignored(s, m, env)
    ensures NewActs(Execute(s, [WorkflowCloses(closed)]), m, env)
            == [Act(m.eventId, m.incident.value, if closed == m.incident.value then StartedWorkflow else RanFallback)]
  {
    assert [WorkflowCloses(closed)][..0] == [];
  }

  /** Re-reading a topic whose events are all marked, as a fresh consumer group does, changes nothing. */
  lemma {:induction false} RereadingIsNoOp(s: State, events: seq<Event>)
    requires forall e :: e in events ==> e.Deliver? && e.message.eventId != "" && e.message.eventId in s.processed
    ensures Execute(s, events) == s
  {
    if events != [] {
      var init, e := events[..|events| - 1], events[|events| - 1];
      assert e in events && forall x :: x in init ==> x in events;
      RereadingIsNoOp(s, init);
    }
  }

  /** Exactly when a delivery does nothing, in terms of what was done before it: it names no incident, or its id is
      present and either could not be checked or was acted on by a delivery that kept its mark. An event without
      an id is acted on every time. */
  lemma NoOpExactlyWhenActedOn(events: seq<Event>, m: Created, env: Env)
    ensures var s := Execute(EMPTY, events);
            Handle(s, m, env) == s
            <==> m.incident.None?
                 || (m.eventId != ""
                     && (env.checkRaises
                         || ActsOn(s.acts, m.eventId)
                            > Occurrences(s.unmarked, m.eventId) + Occurrences(s.doubled, m.eventId)))
  {
    var s := Execute(EMPTY, events);
    if m.eventId != "" { ActsTheorem(events, m.eventId); }
    if !Ignored(s, m, env) {
      assert |Handle(s, m, env).acts| > |s.acts|;
    }
  }

  /** A delivery beside a running workflow, such as that of an event whose mark was lost, runs the fallback and
      starts nothing. */
  lemma RedeliveryBesideRunningWorkflow(s: State, m: Created, env: Env)
    requires !Ignored(s, m, env)
    ensures m.incident.value in s.running <==>
            forall start :: Handle(s, m, env.(start := start)).acts
                            == s.acts + [Act(m.eventId, m.incident.value, RanFallback)]
  {
    var id := m.incident.value;
    if id !in s.running {
      var acts := Handle(s, m, env.(start := Starts)).acts;
      assert acts[|s.acts|] == Act(m.eventId, id, StartedWorkflow);
    }
  }

  /** Such a delivery comes about: the workflow was started, the mark was lost, and the event is delivered again. */
  lemma LostMarkDoublesTheWork(m: Created, env: Env)
    requires m.eventId != "" && m.incident.Some? && !env.checkRaises
    ensures var id := m.incident.value;
            Execute(EMPTY, [Deliver(m, Env(false, Starts, false, MarkFails)), Deliver(m, env)]).acts
            == [Act(m.eventId, id, StartedWorkflow), Act(m.eventId, id, RanFallback)]
  {
    var events := [Deliver(m, Env(false, Starts, false, MarkFails)), Deliver(m, env)];
    var first := [events[0]];
    assert first[..0] == [] && events[..1] == first;
    var s := Handle(EMPTY, m, Env(false, Starts, false, MarkFails));
    assert Execute(EMPTY, first) == Next(Execute(EMPTY, []), events[0]) == s;
    assert s.running == {m.incident.value} && s.acts == [Act(m.eventId, m.incident.value, StartedWorkflow)];
    assert Execute(EMPTY, events) == Handle(s, m, env);
  }
}
