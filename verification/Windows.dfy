/** The two sliding windows of the correlator, over serial runs: 60 s between alerts with one fingerprint,
    300 s between related incidents. Neither needs the clock to be monotone. */
module Windows {
  import opened Schema
  import opened Correlator

  // ---------------------------------------------------------------- counting in a window

  ghost predicate Spaced(ts: seq<Time>, gap: Time) {
    forall i, j :: 0 <= i < j < |ts| ==> ts[j] - ts[i] > gap
  }

  lemma {:induction false} SpacedSpan(ts: seq<Time>, gap: Time)
    requires gap > 0 && Spaced(ts, gap) && ts != []
    ensures (|ts| - 1) * gap <= ts[|ts| - 1] - ts[0]
  {
    if |ts| > 1 {
      SpacedSpan(ts[..|ts| - 1], gap);
      assert ts[|ts| - 1] - ts[|ts| - 2] > gap;
      assert (|ts| - 1) * gap == (|ts| - 2) * gap + gap;
    }
  }

  lemma ProductOrder(a: int, b: int, gap: int)
    requires gap > 0
    ensures a * gap < b * gap ==> a < b
  {
    if a >= b {
      assert (a - b) * gap >= 0;
    }
  }

  lemma WholeGaps(n: int, gap: int, span: int)
    requires gap > 0 && span >= 0 && n * gap <= span
    ensures n <= span / gap
  {
    var q := span / gap;
    assert (q + 1) * gap == q * gap + gap;
    assert q * gap == span - span % gap;
    ProductOrder(n, q + 1, gap);
  }

  /** At most span / gap + 1 points, each more than `gap` after the one before, fit in a span. */
  lemma SpacedCount(ts: seq<Time>, gap: Time, lo: Time, span: Time)
    requires gap > 0 && span >= 0 && Spaced(ts, gap)
    requires forall t :: t in ts ==> lo <= t <= lo + span
    ensures |ts| <= span / gap + 1
  {
    if ts != [] {
      SpacedSpan(ts, gap);
      assert ts[0] in ts && ts[|ts| - 1] in ts;
      WholeGaps(|ts| - 1, gap, span);
    }
  }

  /** The stamps that are present, in order. */
  function Times(stamps: seq<Option<Time>>): seq<Time> {
    if stamps == [] then []
    else
      var before, last := Times(stamps[..|stamps| - 1]), stamps[|stamps| - 1];
      if last.Some? then before + [last.value] else before
  }

  ghost predicate StampsSpaced(stamps: seq<Option<Time>>, gap: Time) {
    forall i, j :: 0 <= i < j < |stamps| && stamps[i].Some? && stamps[j].Some? ==>
      stamps[j].value - stamps[i].value > gap
  }

  lemma {:induction false} TimesSpaced(stamps: seq<Option<Time>>, gap: Time)
    requires StampsSpaced(stamps, gap)
    ensures Spaced(Times(stamps), gap)
    ensures forall t :: t in Times(stamps) ==> Some(t) in stamps
  {
    if stamps != [] {
      var init, last := stamps[..|stamps| - 1], stamps[|stamps| - 1];
      TimesSpaced(init, gap);
      assert stamps == init + [last];
      forall k | 0 <= k < |Times(init)| && last.Some? ensures last.value - Times(init)[k] > gap {
        assert Times(init)[k] in Times(init);
        var i :| 0 <= i < |init| && init[i] == Some(Times(init)[k]);
        assert stamps[i] == init[i];
      }
    }
  }

  // ---------------------------------------------------------------- one step

  predicate SameOrigin(a: Incident, b: Incident) {
    a.id == b.id && a.service == b.service && a.namespace == b.namespace && a.createdAt == b.createdAt
  }

  /** What one step does to the rows, as far as the windows are concerned. */
  ghost predicate StepRows(db: Db, step: Step, db': Db) {
    && |db.alerts| <= |db'.alerts| && |db.incidents| <= |db'.incidents|
    && (forall i :: 0 <= i < |db.alerts| ==> db'.alerts[i] == db.alerts[i])
    && (forall i :: |db.alerts| <= i < |db'.alerts| ==> db'.alerts[i].status == Firing)
    && |db'.incidents| <= |db.incidents| + 1
    && (forall i :: 0 <= i < |db.incidents| ==> SameOrigin(db.incidents[i], db'.incidents[i]))
    && (|db'.incidents| == |db.incidents| + 1 ==> step.Deliver?)
  }

  lemma ApplyRows(g: Graph, db: Db, step: Step)
    ensures StepRows(db, step, Apply(g, db, step))
  {
  }

  /** Only firing alerts are saved. */
  lemma {:induction false} OnlyFiringAlerts(g: Graph, steps: seq<Step>)
    ensures forall i :: 0 <= i < |Run(g, steps).alerts| ==> Run(g, steps).alerts[i].status == Firing
  {
    if steps != [] {
      OnlyFiringAlerts(g, steps[..|steps| - 1]);
      ApplyRows(g, Run(g, steps[..|steps| - 1]), steps[|steps| - 1]);
    }
  }

  // ---------------------------------------------------------------- suppression window

  ghost predicate AlertsSpaced(alerts: seq<Alert>) {
    forall i, j :: 0 <= i < j < |alerts| && alerts[i].fingerprint == alerts[j].fingerprint ==>
      alerts[j].createdAt - alerts[i].createdAt > 60 * SECOND
  }

  lemma DeliverySuppresses(g: Graph, db: Db, e: RawEvent, now: Time, pick: nat)
    requires AlertsSpaced(db.alerts) && forall i :: 0 <= i < |db.alerts| ==> db.alerts[i].status == Firing
    ensures AlertsSpaced(Handle(g, db, e, now, pick).alerts)
  {
    var db' := Handle(g, db, e, now, pick);
    if db'.alerts != db.alerts {
      var added := db'.alerts[|db.alerts|];
      assert db'.alerts == db.alerts + [added];
      assert !IsDuplicateAlert(db.alerts, added.fingerprint, now);
      forall i | 0 <= i < |db.alerts| && db.alerts[i].fingerprint == added.fingerprint
        ensures added.createdAt - db.alerts[i].createdAt > 60 * SECOND
      {
        assert db.alerts[i] in db.alerts;
      }
    }
  }

  /** Two saved alerts with one fingerprint are more than 60 s apart. */
  lemma {:induction false} SuppressionTheorem(g: Graph, steps: seq<Step>)
    ensures AlertsSpaced(Run(g, steps).alerts)
  {
    if steps != [] {
      var init, step := steps[..|steps| - 1], steps[|steps| - 1];
      SuppressionTheorem(g, init);
      OnlyFiringAlerts(g, init);
      if step.Deliver? {
        DeliverySuppresses(g, Run(g, init), step.event, step.now, step.pick);
      }
    }
  }

  /** The creation times in [lo, hi] of the alerts with one fingerprint. */
  function AlertTimes(alerts: seq<Alert>, fingerprint: string, lo: Time, hi: Time): seq<Time> {
    Times(seq(|alerts|, i requires 0 <= i < |alerts| =>
      if alerts[i].fingerprint == fingerprint && lo <= alerts[i].createdAt <= hi
      then Some(alerts[i].createdAt) else None))
  }

  /** Any closed span of `span` microseconds holds at most span / 60 s + 1 alerts of one fingerprint. */
  lemma SuppressionRate(g: Graph, steps: seq<Step>, fingerprint: string, lo: Time, span: Time)
    requires span >= 0
    ensures |AlertTimes(Run(g, steps).alerts, fingerprint, lo, lo + span)| <= span / (60 * SECOND) + 1
  {
    var alerts := Run(g, steps).alerts;
    SuppressionTheorem(g, steps);
    var stamps := seq(|alerts|, i requires 0 <= i < |alerts| =>
      if alerts[i].fingerprint == fingerprint && lo <= alerts[i].createdAt <= lo + span
      then Some(alerts[i].createdAt) else None);
    TimesSpaced(stamps, 60 * SECOND);
    SpacedCount(Times(stamps), 60 * SECOND, lo, span);
  }

  // ---------------------------------------------------------------- correlation window

  /** `inc` no longer collects alerts at `now`. */
  predicate Closed(inc: Incident, now: Time) {
    inc.status == RESOLVED || inc.status == FAILED || now - inc.createdAt > 300 * SECOND
  }

  /** No alert of the event's fingerprint was saved in the last 60 s. */
  predicate Unheard(db: Db, fingerprint: string, now: Time) {
    forall a :: a in db.alerts && a.status == Firing && a.fingerprint == fingerprint ==> now - a.createdAt > 60 * SECOND
  }

  /** Exactly when a delivery saves its alert: the event is firing and new, and no alert of its fingerprint was
      saved in the last 60 s. */
  lemma SavesExactlyWhenUnheard(g: Graph, db: Db, e: RawEvent, now: Time, pick: nat)
    ensures |Handle(g, db, e, now, pick).alerts| == |db.alerts| + 1
            <==> Effective(e) && EventId(e) !in db.processed && Unheard(db, Normalize(e).value.fingerprint, now)
  {
  }

  /** The service itself, or a direct dependent. */
  predicate OneHopUp(g: Graph, service: string, other: string) {
    other == service || exists d :: d in g && d.service == other && service in d.dependsOn
  }

  /** Exactly when a delivery opens a new incident: it saves its alert, and every incident of the namespace on the
      service or a direct dependent is resolved or failed or more than 300 s old. */
  lemma OpensExactlyWhenAllClosed(g: Graph, db: Db, e: RawEvent, now: Time, pick: nat)
    ensures |Handle(g, db, e, now, pick).incidents| == |db.incidents| + 1
            <==>
            && Effective(e) && EventId(e) !in db.processed
            && var n := Normalize(e).value;
               && Unheard(db, n.fingerprint, now)
               && forall inc ::
                    inc in db.incidents && inc.namespace == n.namespace && OneHopUp(g, n.service, inc.service) ==>
                      Closed(inc, now)
  {
    SavesExactlyWhenUnheard(g, db, e, now, pick);
    if Effective(e) && EventId(e) !in db.processed {
      var n := Normalize(e).value;
      var found := FindOpenIncident(db.incidents, Related(g, n.service), n.namespace, now, pick);
      if found.Some? {
        assert db.incidents[found.value] in db.incidents;
        assert OneHopUp(g, n.service, db.incidents[found.value].service);
      }
    }
  }

  /** Incident i collects the alerts of the service at `now`. */
  predicate Collects(g: Graph, db: Db, service: string, namespace: string, now: Time, i: nat)
    requires i < |db.incidents|
  {
    var inc := db.incidents[i];
    inc.namespace == namespace && OneHopUp(g, service, inc.service) && !Closed(inc, now)
  }

  /** An alert that opens no incident goes to a newest of those that collect it. */
  lemma AttachesToNewest(g: Graph, db: Db, e: RawEvent, now: Time, pick: nat)
    requires |Handle(g, db, e, now, pick).alerts| > |db.alerts|
    requires |Handle(g, db, e, now, pick).incidents| == |db.incidents|
    ensures var n, id := Normalize(e).value, Handle(g, db, e, now, pick).alerts[|db.alerts|].incidentId;
            exists i :: 0 <= i < |db.incidents| && db.incidents[i].id == id
                        && Collects(g, db, n.service, n.namespace, now, i)
                        && forall j :: 0 <= j < |db.incidents| && Collects(g, db, n.service, n.namespace, now, j) ==>
                             db.incidents[j].createdAt <= db.incidents[i].createdAt
  {
    var n := Normalize(e).value;
    var i := FindOpenIncident(db.incidents, Related(g, n.service), n.namespace, now, pick).value;
    forall j | 0 <= j < |db.incidents|
      ensures Collects(g, db, n.service, n.namespace, now, j)
              <==> Matches(db.incidents[j], Related(g, n.service), n.namespace, now)
    {
      assert OneHopUp(g, n.service, db.incidents[j].service) <==> db.incidents[j].service in Related(g, n.service);
    }
    assert Collects(g, db, n.service, n.namespace, now, i);
  }

  /** Incident i was open, not resolved or failed, when incident j was created. */
  ghost predicate WasOpen(g: Graph, steps: seq<Step>, i: nat, j: nat) {
    steps != [] &&
    var before := Run(g, steps[..|steps| - 1]).incidents;
    if |before| == j then i < |before| && !Terminal(before[i].status)
    else WasOpen(g, steps[..|steps| - 1], i, j)
  }

  /** An incident on incident j's service or on a direct dependent of it. */
  predicate Upstream(g: Graph, incidents: seq<Incident>, i: nat, j: nat)
    requires i < |incidents| && j < |incidents|
  {
    incidents[i].namespace == incidents[j].namespace && incidents[i].service in Related(g, incidents[j].service)
  }

  ghost predicate Apart(g: Graph, steps: seq<Step>, i: nat, j: nat)
    requires i < |Run(g, steps).incidents| && j < |Run(g, steps).incidents|
  {
    var incidents := Run(g, steps).incidents;
    Upstream(g, incidents, i, j) && WasOpen(g, steps, i, j) ==>
      incidents[j].createdAt - incidents[i].createdAt > 300 * SECOND
  }

  /** The incident that a delivery opens is apart from every earlier one that is still open. */
  lemma NewIncidentIsApart(g: Graph, db: Db, step: Step, i: nat)
    requires |Apply(g, db, step).incidents| == |db.incidents| + 1 && i < |db.incidents|
    requires !Terminal(db.incidents[i].status)
    ensures var incidents := Apply(g, db, step).incidents;
            Upstream(g, incidents, i, |db.incidents|) ==>
              incidents[|db.incidents|].createdAt - incidents[i].createdAt > 300 * SECOND
  {
    ApplyRows(g, db, step);
    OpensExactlyWhenAllClosed(g, db, step.event, step.now, step.pick);
    assert db.incidents[i] in db.incidents;
  }

  /** Spacing: a later incident on a service is more than 300 s younger than every earlier incident of
      the namespace on that service or a direct dependent that was open when the later one was created. */
  lemma {:induction false} SpacingTheorem(g: Graph, steps: seq<Step>)
    ensures forall i, j :: 0 <= i < j < |Run(g, steps).incidents| ==> Apart(g, steps, i, j)
  {
    if steps != [] {
      var init, step := steps[..|steps| - 1], steps[|steps| - 1];
      SpacingTheorem(g, init);
      ApplyRows(g, Run(g, init), step);
      var before, after := Run(g, init).incidents, Run(g, steps).incidents;
      forall i, j | 0 <= i < j < |after| ensures Apart(g, steps, i, j) {
        assert SameOrigin(before[i], after[i]);
        if j < |before| {
          assert SameOrigin(before[j], after[j]) && Apart(g, init, i, j);
        } else if !Terminal(before[i].status) {
          NewIncidentIsApart(g, Run(g, init), step, i);
        }
      }
    }
  }

  ghost predicate On(inc: Incident, service: string, namespace: string) {
    inc.service == service && inc.namespace == namespace
  }

  /** The creation times in [lo, hi] of the incidents on one service. */
  ghost function IncidentTimes(
    incidents: seq<Incident>, service: string, namespace: string, lo: Time, hi: Time): seq<Time> {
    Times(seq(|incidents|, i requires 0 <= i < |incidents| =>
      if On(incidents[i], service, namespace) && lo <= incidents[i].createdAt <= hi
      then Some(incidents[i].createdAt) else None))
  }

  /** If incidents i and j are on the service, i was open when j was created. */
  ghost predicate StayedOpen(g: Graph, steps: seq<Step>, service: string, namespace: string, i: nat, j: nat)
    requires i < |Run(g, steps).incidents| && j < |Run(g, steps).incidents|
  {
    On(Run(g, steps).incidents[i], service, namespace) && On(Run(g, steps).incidents[j], service, namespace) ==>
      WasOpen(g, steps, i, j)
  }

  /** Whenever an incident was created on the service, all earlier ones on it were open. */
  ghost predicate AllStayedOpen(g: Graph, steps: seq<Step>, service: string, namespace: string) {
    forall i: nat, j: nat :: i < j < |Run(g, steps).incidents| ==> StayedOpen(g, steps, service, namespace, i, j)
  }

  /** If its incidents stay open while others follow, a service gets at most span / 300 s + 1 of them in a span. */
  lemma IncidentRate(g: Graph, steps: seq<Step>, service: string, namespace: string, lo: Time, span: Time)
    requires span >= 0 && AllStayedOpen(g, steps, service, namespace)
    ensures |IncidentTimes(Run(g, steps).incidents, service, namespace, lo, lo + span)| <= span / (300 * SECOND) + 1
  {
    var incidents := Run(g, steps).incidents;
    SpacingTheorem(g, steps);
    forall i, j | 0 <= i < j < |incidents| ensures SpacedOn(incidents, service, namespace, i, j) {
      assert StayedOpen(g, steps, service, namespace, i, j) && Apart(g, steps, i, j);
      if On(incidents[i], service, namespace) && On(incidents[j], service, namespace) {
        assert Upstream(g, incidents, i, j);
      }
    }
    SpacedRate(incidents, service, namespace, lo, span);
  }

  ghost predicate SpacedOn(incidents: seq<Incident>, service: string, namespace: string, i: nat, j: nat)
    requires i < |incidents| && j < |incidents|
  {
    On(incidents[i], service, namespace) && On(incidents[j], service, namespace) ==>
      incidents[j].createdAt - incidents[i].createdAt > 300 * SECOND
  }

  lemma SpacedRate(incidents: seq<Incident>, service: string, namespace: string, lo: Time, span: Time)
    requires span >= 0
    requires forall i, j :: 0 <= i < j < |incidents| ==> SpacedOn(incidents, service, namespace, i, j)
    ensures |IncidentTimes(incidents, service, namespace, lo, lo + span)| <= span / (300 * SECOND) + 1
  {
    var stamps := seq(|incidents|, i requires 0 <= i < |incidents| =>
      if On(incidents[i], service, namespace) && lo <= incidents[i].createdAt <= lo + span
      then Some(incidents[i].createdAt) else None);
    forall i, j | 0 <= i < j < |stamps| && stamps[i].Some? && stamps[j].Some?
      ensures stamps[j].value - stamps[i].value > 300 * SECOND
    {
      assert SpacedOn(incidents, service, namespace, i, j);
    }
    TimesSpaced(stamps, 300 * SECOND);
    SpacedCount(Times(stamps), 300 * SECOND, lo, span);
  }

  // ---------------------------------------------------------------- one hop or the whole graph

  /** `t` is at most `n` hops upstream of `s`. */
  ghost predicate Up(g: Graph, s: string, t: string, n: nat)
    decreases n
  {
    if n == 0 then s == t else exists u :: u in Related(g, s) && Up(g, u, t, n - 1)
  }

  /** No direct dependent of the service has a dependent of its own that is not also a direct one. */
  predicate Flat(g: Graph, s: string) {
    forall t, u :: t in Related(g, s) && u in Related(g, t) ==> u in Related(g, s)
  }

  /** If every hop from a set of services stays inside it, so does every walk. */
  lemma {:induction false} WalkStays(g: Graph, inside: set<string>, s: string, t: string, n: nat)
    requires s in inside && Up(g, s, t, n)
    requires forall x, y :: x in inside && y in Related(g, x) ==> y in inside
    ensures t in inside
    decreases n
  {
    if n > 0 {
      var u :| u in Related(g, s) && Up(g, u, t, n - 1);
      WalkStays(g, inside, u, t, n - 1);
    }
  }

  lemma TwoHops(g: Graph, s: string, t: string, u: string)
    requires t in Related(g, s) && u in Related(g, t)
    ensures Up(g, s, u, 2)
  {
    assert Up(g, u, u, 0);
    assert Up(g, t, u, 1);
  }

  /** Walking the graph upstream finds no more than the one hop of the code exactly when the service's
      neighbourhood is flat. */
  lemma OneHopSufficesExactlyWhenFlat(g: Graph, s: string)
    ensures (forall n: nat, t :: Up(g, s, t, n) ==> t in Related(g, s)) <==> Flat(g, s)
  {
    if Flat(g, s) {
      forall n: nat, t | Up(g, s, t, n) ensures t in Related(g, s) {
        WalkStays(g, Related(g, s), s, t, n);
      }
    } else {
      var t, u :| t in Related(g, s) && u in Related(g, t) && u !in Related(g, s);
      TwoHops(g, s, t, u);
      var n: nat := 2;
      assert Up(g, s, u, n);
    }
  }

  /** Who depends on whom, as deployed. */
  const DEPLOYED := {
    ("checkout", "payment"), ("checkout", "inventory"), ("payment", "postgres"), ("payment", "demo-postgres"),
    ("inventory", "redis"), ("inventory", "demo-redis")}

  /** On the deployed graph an alert finds the incidents of its own service and of those that depend on it. */
  lemma DeployedExactly(service: string, other: string)
    ensures other in Related(SERVICE_DEPENDENCY_GRAPH, service) <==> other == service || (other, service) in DEPLOYED
  {
    var g := SERVICE_DEPENDENCY_GRAPH;
    assert forall d :: d in g <==> d == g[0] || d == g[1] || d == g[2];
    assert other in Related(g, service)
           <==> other == service || exists d :: d in g && d.service == other && service in d.dependsOn;
    assert forall x :: x in g[0].dependsOn <==> x == "payment" || x == "inventory";
    assert forall x :: x in g[1].dependsOn <==> x == "postgres" || x == "demo-postgres";
    assert forall x :: x in g[2].dependsOn <==> x == "redis" || x == "demo-redis";
  }

  lemma DeployedNeighbours()
    ensures var g := SERVICE_DEPENDENCY_GRAPH;
            && "payment" in Related(g, "postgres") && "checkout" in Related(g, "payment")
            && "checkout" !in Related(g, "postgres") && "postgres" !in Related(g, "payment")
  {
    var g := SERVICE_DEPENDENCY_GRAPH;
    assert g[0].service == "checkout" && g[1].service == "payment" && g[2].service == "inventory";
    assert g[0] in g && g[1] in g;
    assert forall d :: d in g ==> d == g[0] || d == g[1] || d == g[2];
    assert g[0].dependsOn[0] == "payment" && g[1].dependsOn[0] == "postgres";
    assert "postgres" in g[1].dependsOn && "payment" in g[0].dependsOn;
    assert "postgres" != "payment" && "postgres" != "inventory" && "postgres" != "redis"
           && "postgres" != "demo-redis" by {
      assert |"postgres"| == 8 && |"payment"| == 7 && |"inventory"| == 9 && |"redis"| == 5 && |"demo-redis"| == 10;
    }
    assert "payment" != "demo-postgres" && "payment" != "redis" && "payment" != "demo-redis" by {
      assert |"payment"| == 7 && |"demo-postgres"| == 13 && |"redis"| == 5 && |"demo-redis"| == 10;
    }
    assert "checkout" != "postgres" && "checkout" != "payment" by { assert "checkout"[0] != "postgres"[0]; }
    assert Related(g, "postgres") == {"postgres", "payment"};
    assert Related(g, "payment") == {"payment", "checkout"};
  }

  /** The deployed graph is not flat, and the hop goes one way: a postgres alert finds payment's incidents but not
      those of checkout, which is upstream, and a payment alert does not find postgres's. */
  lemma OneHopOneWay()
    ensures var g := SERVICE_DEPENDENCY_GRAPH;
            && !Flat(g, "postgres")
            && "payment" in Related(g, "postgres") && "postgres" !in Related(g, "payment")
            && Up(g, "postgres", "checkout", 2) && "checkout" !in Related(g, "postgres")
  {
    DeployedNeighbours();
    TwoHops(SERVICE_DEPENDENCY_GRAPH, "postgres", "payment", "checkout");
  }
}
