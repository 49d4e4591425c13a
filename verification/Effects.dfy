/** All that is done to the cluster on behalf of one incident, over all its workflows and fallbacks. */
module Effects {
  import opened Schema
  import opened Remediation
  import opened Investigator
  import F = Fallback
  import W = Workflow

  /** What an act of the investigator set off. */
  datatype Episode =
    | Run(config: W.Config, world: W.World, inputs: seq<W.Input>)
    | Fallback(config: W.Config, world: W.World, output: LlmOutput, component: string, parsing: Parsing,
               planId: Id, env: F.Env)

  /** The actions of one episode, up to now. */
  function ActionsOf(e: Episode): seq<ClusterAction> {
    match e
    case Run(c, w, inputs) => W.Execute(c, W.Start(w), inputs).world.store.cluster
    case Fallback(c, w, output, component, parsing, planId, env) =>
      var cluster := F.Run(c, w, output, component, parsing, planId, env).0.store.cluster;
      if |w.store.cluster| <= |cluster| then cluster[|w.store.cluster|..] else []
  }

  /** The episode is of the act's kind, under the given settings, and a workflow starts as workflows do. */
  ghost predicate Fits(settings: Settings, e: Episode, a: Act) {
    && e.config.settings == settings
    && (a.kind.StartedWorkflow? <==> e.Run?)
    && (e.Run? ==> W.Initial(e.config, e.world))
  }

  /** The actions are all that the episode added to the cluster's log. */
  lemma ActionsAreAll(e: Episode)
    ensures e.Run? && e.world.store.cluster == [] ==>
              W.Execute(e.config, W.Start(e.world), e.inputs).world.store.cluster
              == e.world.store.cluster + ActionsOf(e)
    ensures e.Fallback? ==>
              F.Run(e.config, e.world, e.output, e.component, e.parsing, e.planId, e.env).0.store.cluster
              == e.world.store.cluster + ActionsOf(e)
  {
    if e.Fallback? { F.FallbackSafety(e.config, e.world, e.output, e.component, e.parsing, e.planId, e.env); }
  }

  function AllActions(es: seq<Episode>): seq<ClusterAction> {
    if es == [] then [] else AllActions(es[..|es| - 1]) + ActionsOf(es[|es| - 1])
  }

  function CountKind(acts: seq<Act>, kind: ActKind): nat {
    if acts == [] then 0
    else CountKind(acts[..|acts| - 1], kind) + if acts[|acts| - 1].kind == kind then 1 else 0
  }

  lemma EpisodeIsBounded(settings: Settings, e: Episode, a: Act)
    requires Fits(settings, e, a)
    ensures |ActionsOf(e)| <= if a.kind.StartedWorkflow? then 3 else 1
    ensures forall x :: x in ActionsOf(e) ==> Bounded(settings, x) && (x.RollBack? ==> a.kind.StartedWorkflow?)
  {
    match e
    case Run(c, w, inputs) =>
      W.RunIsSafe(c, w, inputs);
      forall x | x in ActionsOf(e) ensures Bounded(settings, x) { W.SafetyTheorem(c, w, inputs, x); }
    case Fallback(c, w, output, component, parsing, planId, env) =>
      F.FallbackSafety(c, w, output, component, parsing, planId, env);
  }

  /** Over any acts, the cluster sees at most three actions per started workflow and one per fallback, each a
      restart, a scale or a rollback within bounds. */
  lemma {:induction false} ActionsAreBounded(settings: Settings, es: seq<Episode>, acts: seq<Act>)
    requires |es| == |acts| && forall k :: 0 <= k < |es| ==> Fits(settings, es[k], acts[k])
    ensures |AllActions(es)| <= 3 * CountKind(acts, StartedWorkflow) + CountKind(acts, RanFallback)
    ensures forall x :: x in AllActions(es) ==> Bounded(settings, x)
  {
    if es != [] {
      ActionsAreBounded(settings, es[..|es| - 1], acts[..|acts| - 1]);
      EpisodeIsBounded(settings, es[|es| - 1], acts[|acts| - 1]);
    }
  }

  // ---------------------------------------------------------------- one incident

  /** The acts on one incident, in order. */
  function ActsFor(acts: seq<Act>, incident: Id): seq<Act> {
    if acts == [] then []
    else
      var last := acts[|acts| - 1];
      ActsFor(acts[..|acts| - 1], incident) + if last.incident == incident then [last] else []
  }

  lemma {:induction false} KindsAdd(acts: seq<Act>)
    ensures CountKind(acts, StartedWorkflow) + CountKind(acts, RanFallback) == |acts|
  {
    if acts != [] { KindsAdd(acts[..|acts| - 1]); }
  }

  lemma {:induction false} FewerActs(acts: seq<Act>, incident: Id, eventId: string)
    requires forall a :: a in acts && a.incident == incident ==> a.eventId == eventId
    ensures |ActsFor(acts, incident)| <= ActsOn(acts, eventId)
  {
    if acts != [] {
      FewerActs(acts[..|acts| - 1], incident, eventId);
      assert acts[|acts| - 1] in acts;
    }
  }

  /** Every act on an incident is for an event that was delivered for it. */
  lemma {:induction false} ActsWereDelivered(events: seq<Event>, a: Act)
    requires a in Execute(EMPTY, events).acts
    ensures exists e :: e in events && e.Deliver? && e.message == Created(a.eventId, Some(a.incident))
  {
    var init, last := events[..|events| - 1], events[|events| - 1];
    assert last in events;
    if a in Execute(EMPTY, init).acts { ActsWereDelivered(init, a); }
  }

  /** One investigator, one incident, one event id for it: the actions on the cluster are at most three for the
      delivery that was marked, for each that acted without leaving a mark, and for each that acted twice. */
  lemma IncidentTotal(settings: Settings, events: seq<Event>, incident: Id, eventId: string, es: seq<Episode>)
    requires eventId != ""
    requires forall e :: e in events && e.Deliver? && e.message.incident == Some(incident) ==>
               e.message.eventId == eventId
    requires var acts := ActsFor(Execute(EMPTY, events).acts, incident);
             |es| == |acts| && forall k :: 0 <= k < |es| ==> Fits(settings, es[k], acts[k])
    ensures var s := Execute(EMPTY, events);
            && |AllActions(es)| <= 3 * CountKind(ActsFor(s.acts, incident), StartedWorkflow)
                                   + CountKind(ActsFor(s.acts, incident), RanFallback)
            && |AllActions(es)| <= 3 * (Occurrences(s.unmarked, eventId) + Occurrences(s.doubled, eventId)
                                        + if eventId in s.processed then 1 else 0)
            && forall x :: x in AllActions(es) ==> Bounded(settings, x)
  {
    var s := Execute(EMPTY, events);
    var acts := ActsFor(s.acts, incident);
    ActionsAreBounded(settings, es, acts);
    KindsAdd(acts);
    forall a | a in s.acts && a.incident == incident ensures a.eventId == eventId {
      ActsWereDelivered(events, a);
    }
    FewerActs(s.acts, incident, eventId);
    ActsTheorem(events, eventId);
  }
}
