/** Investigation without Temporal, in two transactions and one call of the executor. */
module Fallback {
  import opened Schema
  import opened Remediation
  import Executor
  import W = Workflow
  import Runs

  datatype Commit = Commits | Errors | Crashes

  /** What goes wrong during one run. The last commit marks the incident FAILED after an error. */
  datatype Env = Env(first: Commit, second: Commit, last: Commit, executor: Executor.Env)

  datatype Result = Returned | Raised | Crashed

  /** The except branch: it records the failure without a timeline row. */
  function Abandon(w: W.World, last: Commit): (W.World, Result) {
    match last
    case Commits => (w.(status := FAILED), Returned)
    case Errors => (w, Raised)
    case Crashes => (w, Crashed)
  }

  /** End the second transaction: `after` if it commits. */
  function Persist(w: W.World, after: W.World, env: Env): (W.World, Result) {
    match env.second
    case Commits => (after, Returned)
    case Errors => Abandon(w, env.last)
    case Crashes => (w, Crashed)
  }

  /** The rows of the second transaction for a plan that the executor is not called for. */
  function WithPlan(c: W.Config, w: W.World, plan: Plan): W.World {
    var recorded := W.Diagnosed(w).(store := w.store.(plans := w.store.plans + {plan.planId}));
    if EvaluatePolicy(c.settings, plan).allowed
    then W.Log(recorded.(status := AWAITING_APPROVAL), APPROVAL_AWAITED)
    else W.Log(W.Log(recorded.(status := FAILED), STATUS_CHANGED_UNNAMED), POLICY_REJECTED)
  }

  /** The executor is called inside the second transaction, so the new plan row is not committed when the
      executor inserts its own row. */
  function Remediate(c: W.Config, w: W.World, plan: Plan, env: Env): (W.World, Result) {
    var policy := EvaluatePolicy(c.settings, plan);
    if policy.allowed && !policy.requiresHumanApproval then
      var (store, r) := Executor.Call(w.store, plan, c.executionId, env.executor);
      var w2 := w.(store := store);
      if r.Raises? then Abandon(w2, env.last)
      else if r.Crashes? then (w2, Crashed)
      else
        var after := W.Diagnosed(w2).(store := store.(plans := store.plans + {plan.planId}), status := RESOLVED);
        Persist(w2, W.Log(after, AUTO_REMEDIATED), env)
    else Persist(w, WithPlan(c, w, plan), env)
  }

  /** What follows the planning. */
  function Treat(c: W.Config, w: W.World, p: PlanResult, env: Env): (W.World, Result) {
    match p
    case PlanRaises => Abandon(w, env.last)
    case NoPlan => Persist(w, W.Diagnosed(w), env)
    case Planned(plan) => Remediate(c, w, plan, env)
  }

  /** _run_investigation_sync. */
  function Run(
    c: W.Config, w: W.World, output: LlmOutput, component: string, parsing: Parsing, planId: Id,
    env: Env): (W.World, Result) {
    match env.first
    case Errors => Abandon(w, env.last)
    case Crashes => (w, Crashed)
    case Commits =>
      var w1 := w.(status := INVESTIGATING);
      match RunRca(c.upper, output, component, c.namespace, parsing)
      case RcaRaised => Abandon(w1, env.last)
      case Rca(actions) => Treat(c, w1, PlanRemediation(planId, actions, c.rootCause, c.service, c.namespace), env)
  }

  /** One incident under the fallback. */
  class Investigation {
    const c: W.Config
    const executor: Executor.K8sExecutor
    var status: IncidentStatus
    var timeline: seq<TimelineKind>

    function Contents(): W.World
      reads this, executor
    {
      W.World(status, timeline, executor.Contents())
    }

    constructor (c: W.Config, w: W.World)
      ensures this.c == c && Contents() == w && fresh(executor)
    {
      this.c := c;
      executor := new Executor.K8sExecutor(w.store);
      status, timeline := w.status, w.timeline;
    }

    method GiveUp(last: Commit) returns (r: Result)
      modifies this`status
      ensures (Contents(), r) == Abandon(old(Contents()), last)
    {
      if last.Errors? {
        return Raised;
      }
      if last.Crashes? {
        return Crashed;
      }
      status := FAILED;
      return Returned;
    }

    /** Commit the second transaction, whose changes were kept aside until now. */
    method Persist(newStatus: IncidentStatus, newRows: seq<TimelineKind>, newPlans: set<Id>, env: Env)
      returns (r: Result)
      modifies this, executor
      ensures env.second.Commits? ==> r == Returned && status == newStatus && timeline == old(timeline) + newRows
      ensures env.second.Commits? ==>
                executor.Contents() == old(executor.Contents()).(plans := old(executor.plans) + newPlans)
      ensures env.second.Errors? ==> (Contents(), r) == Abandon(old(Contents()), env.last)
      ensures env.second.Crashes? ==> (Contents(), r) == (old(Contents()), Crashed)
    {
      if env.second.Errors? {
        r := GiveUp(env.last);
        return;
      }
      if env.second.Crashes? {
        return Crashed;
      }
      status, timeline := newStatus, timeline + newRows;
      executor.plans := executor.plans + newPlans;
      return Returned;
    }

    /** The part of the second transaction that deals with a plan. */
    method RemediatePlan(plan: Plan, env: Env) returns (r: Result)
      modifies this, executor
      ensures (Contents(), r) == Remediate(c, old(Contents()), plan, env)
    {
      ghost var rows := timeline;
      var policy := EvaluatePolicy(c.settings, plan);
      if policy.allowed && !policy.requiresHumanApproval {
        var execution := executor.ExecuteRemediation(plan, c.executionId, env.executor);
        if execution.Raises? {
          r := GiveUp(env.last);
          return;
        }
        if execution.Crashes? {
          return Crashed;
        }
        assert rows + [RCA_COMPLETED, AUTO_REMEDIATED] == rows + [RCA_COMPLETED] + [AUTO_REMEDIATED];
        r := Persist(RESOLVED, [RCA_COMPLETED, AUTO_REMEDIATED], {plan.planId}, env);
      } else if policy.allowed && policy.requiresHumanApproval {
        assert rows + [RCA_COMPLETED, APPROVAL_AWAITED] == rows + [RCA_COMPLETED] + [APPROVAL_AWAITED];
        r := Persist(AWAITING_APPROVAL, [RCA_COMPLETED, APPROVAL_AWAITED], {plan.planId}, env);
      } else {
        assert rows + [RCA_COMPLETED, STATUS_CHANGED_UNNAMED, POLICY_REJECTED]
               == rows + [RCA_COMPLETED] + [STATUS_CHANGED_UNNAMED] + [POLICY_REJECTED];
        r := Persist(FAILED, [RCA_COMPLETED, STATUS_CHANGED_UNNAMED, POLICY_REJECTED], {plan.planId}, env);
      }
    }

    method RunInvestigationSync(output: LlmOutput, component: string, parsing: Parsing, planId: Id, env: Env)
      returns (r: Result)
      modifies this, executor
      ensures (Contents(), r) == Run(c, old(Contents()), output, component, parsing, planId, env)
    {
      if env.first.Errors? {
        r := GiveUp(env.last);
        return;
      }
      if env.first.Crashes? {
        return Crashed;
      }
      status := INVESTIGATING;
      var rca := RunRca(c.upper, output, component, c.namespace, parsing);
      if rca.RcaRaised? {
        r := GiveUp(env.last);
        return;
      }
      var planning := PlanRemediation(planId, rca.actions, c.rootCause, c.service, c.namespace);
      match planning {
        case PlanRaises =>
          r := GiveUp(env.last);
        case NoPlan =>
          assert executor.plans + {} == executor.plans;
          r := Persist(DIAGNOSED, [RCA_COMPLETED], {}, env);
        case Planned(plan) =>
          r := RemediatePlan(plan, env);
      }
    }
  }

  // ---------------------------------------------------------------- theorems

  lemma RemediateSafety(c: W.Config, w: W.World, plan: Plan, env: Env)
    requires EvaluatePolicy(c.settings, plan).allowed ==> Dispatch(plan).Some?
    ensures var cluster := Remediate(c, w, plan, env).0.store.cluster;
            cluster == w.store.cluster
            || (EvaluatePolicy(c.settings, plan).autoApproved && cluster == w.store.cluster + [Dispatch(plan).value])
  {
  }

  /** For every model output and failure: the fallback does at most one thing to the cluster, and that is a
      restart or a scale within bounds, never a rollback. */
  lemma FallbackSafety(
    c: W.Config, w: W.World, output: LlmOutput, component: string, parsing: Parsing, planId: Id, env: Env)
    ensures var w' := Run(c, w, output, component, parsing, planId, env).0;
            w'.store.cluster == w.store.cluster
            || exists a :: w'.store.cluster == w.store.cluster + [a] && Bounded(c.settings, a) && !a.RollBack?
  {
    var rca := RunRca(c.upper, output, component, c.namespace, parsing);
    if rca.Rca? {
      ChainTheorem(c.settings, c.upper, output, component, parsing, planId, c.rootCause, c.service, c.namespace);
      var p := PlanRemediation(planId, rca.actions, c.rootCause, c.service, c.namespace);
      if p.Planned? {
        RemediateSafety(c, w.(status := INVESTIGATING), p.plan, env);
      }
    }
  }

  lemma RemediateNeverResolves(c: W.Config, w: W.World, plan: Plan, env: Env)
    requires plan.planId !in w.store.plans && c.executionId !in w.store.executions && w.status == INVESTIGATING
    ensures var w' := Remediate(c, w, plan, env).0;
            && w'.status != RESOLVED && w'.store.executions == w.store.executions
            && (w'.store.cluster != w.store.cluster ==>
                  w'.status in {FAILED, INVESTIGATING} && w'.timeline == w.timeline && w'.store.plans == w.store.plans)
  {
    Executor.MissingPlanNeverRecords(w.store, plan, c.executionId, env.executor);
  }

  /** The fallback never resolves an incident. A plan that needs no approval is carried out, but its plan row
      is not committed, so the executor's own rows are rejected, its error rolls the second transaction
      back, and the incident is left FAILED, or INVESTIGATING if something crashes or raises again. */
  lemma FallbackNeverResolves(
    c: W.Config, w: W.World, output: LlmOutput, component: string, parsing: Parsing, planId: Id, env: Env)
    requires planId !in w.store.plans && c.executionId !in w.store.executions
    ensures var w' := Run(c, w, output, component, parsing, planId, env).0;
            && (w'.status == RESOLVED ==> w' == w)
            && w'.store.executions == w.store.executions
            && (w'.store.cluster != w.store.cluster ==>
                  w'.status in {FAILED, INVESTIGATING} && w'.timeline == w.timeline && w'.store.plans == w.store.plans)
  {
    var rca := RunRca(c.upper, output, component, c.namespace, parsing);
    if rca.Rca? {
      var p := PlanRemediation(planId, rca.actions, c.rootCause, c.service, c.namespace);
      if p.Planned? {
        RemediateNeverResolves(c, w.(status := INVESTIGATING), p.plan, env);
      }
    }
  }

  /** What the run leaves behind: no change, a status without a row, or the rows of the second transaction, with
      or without a plan. */
  datatype Trace = Unchanged | StatusOnly(status: IncidentStatus) | DiagnosedOnly | WithPlanRows

  /** After an error the incident is marked FAILED, if that can be stored. */
  function AfterError(env: Env): Trace {
    StatusOnly(if env.last.Commits? then FAILED else INVESTIGATING)
  }

  /** A call whose rows are rejected crashes, or else raises. */
  predicate ExecutorCrashes(env: Executor.Env) {
    && !env.checkRaises
    && (env.act.ActCrashes? || (env.act.Acts? && env.recordSuccess.CrashesBefore?) || env.recordFailure.CrashesBefore?)
  }

  function TraceOfCommit(committed: Trace, env: Env): Trace {
    match env.second
    case Commits => committed
    case Errors => AfterError(env)
    case Crashes => StatusOnly(INVESTIGATING)
  }

  function TraceOfPlan(c: W.Config, plan: Plan, env: Env): Trace {
    if !EvaluatePolicy(c.settings, plan).autoApproved then TraceOfCommit(WithPlanRows, env)
    else if ExecutorCrashes(env.executor) then StatusOnly(INVESTIGATING)
    else AfterError(env)
  }

  function TraceOfTreatment(c: W.Config, p: PlanResult, env: Env): Trace {
    match p
    case PlanRaises => AfterError(env)
    case NoPlan => TraceOfCommit(DiagnosedOnly, env)
    case Planned(plan) => TraceOfPlan(c, plan, env)
  }

  function TraceOf(c: W.Config, output: LlmOutput, component: string, parsing: Parsing, planId: Id, env: Env): Trace {
    if env.first.Crashes? || (env.first.Errors? && !env.last.Commits?) then Unchanged
    else if env.first.Errors? then StatusOnly(FAILED)
    else
      match RunRca(c.upper, output, component, c.namespace, parsing)
      case RcaRaised => AfterError(env)
      case Rca(actions) =>
        TraceOfTreatment(c, PlanRemediation(planId, actions, c.rootCause, c.service, c.namespace), env)
  }

  /** Whether the timeline still tells the status, for an incident that came with `before`. */
  predicate TellsStatus(t: Trace, before: IncidentStatus) {
    match t
    case Unchanged => true
    case StatusOnly(status) => status == before
    case DiagnosedOnly => true
    case WithPlanRows => false
  }

  lemma AutomaticLog(c: W.Config, w: W.World, plan: Plan, env: Env)
    requires plan.planId !in w.store.plans && c.executionId !in w.store.executions
    requires EvaluatePolicy(c.settings, plan).autoApproved
    ensures var w' := Remediate(c, w, plan, env).0;
            && w'.timeline == w.timeline
            && w'.status == if !ExecutorCrashes(env.executor) && env.last.Commits? then FAILED else w.status
  {
    PolicyExact(c.settings, plan);
    Executor.MissingPlanNeverRecords(w.store, plan, c.executionId, env.executor);
  }

  /** Exactly when the fallback acts: its first transaction and the executor's check got through, and the answer
      leads to a plan that needs no approval. The incident is then left FAILED if that can be stored and the
      executor does not crash, and INVESTIGATING otherwise. */
  lemma ActsExactlyWhenAutomatic(
    c: W.Config, w: W.World, output: LlmOutput, component: string, parsing: Parsing, planId: Id, env: Env)
    requires planId !in w.store.plans && c.executionId !in w.store.executions
    ensures var w' := Run(c, w, output, component, parsing, planId, env).0;
            && (w'.store.cluster != w.store.cluster <==>
                  && env.first.Commits? && !env.executor.checkRaises
                  && var rca := RunRca(c.upper, output, component, c.namespace, parsing);
                     rca.Rca?
                     && var p := PlanRemediation(planId, rca.actions, c.rootCause, c.service, c.namespace);
                        p.Planned? && EvaluatePolicy(c.settings, p.plan).autoApproved)
            && (w'.store.cluster != w.store.cluster ==>
                  w'.status == if ExecutorCrashes(env.executor) || !env.last.Commits? then INVESTIGATING else FAILED)
  {
    var rca := RunRca(c.upper, output, component, c.namespace, parsing);
    if env.first.Commits? && rca.Rca? {
      var p := PlanRemediation(planId, rca.actions, c.rootCause, c.service, c.namespace);
      if p.Planned? { RemediateActs(c, w.(status := INVESTIGATING), p.plan, env); }
    }
  }

  lemma RemediateActs(c: W.Config, w: W.World, plan: Plan, env: Env)
    requires plan.planId !in w.store.plans && c.executionId !in w.store.executions && w.status == INVESTIGATING
    ensures var w' := Remediate(c, w, plan, env).0;
            && (w'.store.cluster != w.store.cluster <==>
                  !env.executor.checkRaises && EvaluatePolicy(c.settings, plan).autoApproved)
            && (w'.store.cluster != w.store.cluster ==>
                  w'.status == if ExecutorCrashes(env.executor) || !env.last.Commits? then INVESTIGATING else FAILED)
  {
    if EvaluatePolicy(c.settings, plan).autoApproved {
      PolicyExact(c.settings, plan);
      Executor.ActsExactlyWhenNotSucceeded(w.store, plan, c.executionId, env.executor);
      Executor.MissingPlanNeverRecords(w.store, plan, c.executionId, env.executor);
      AutomaticLog(c, w, plan, env);
    }
  }

  /** Such an answer: a recommended restart is carried out and the incident is left FAILED, with nothing failing but
      the executor's own rows. */
  lemma FallbackRestarts(c: W.Config, w: W.World, component: string, planId: Id)
    requires planId !in w.store.plans && c.executionId !in w.store.executions
    requires c.namespace in c.settings.allowedNamespaces && component in c.settings.allowedDeployments
    ensures var restart := Proposal("RESTART_POD", component, c.namespace, "");
            var output := Response([("recommended_actions", List([Obj(restart)]))]);
            var w' := Run(c, w, output, component, Fine, planId, NOTHING_FAILS).0;
            w'.store == w.store.(cluster := w.store.cluster + [RestartPods(component, c.namespace)])
            && w'.status == FAILED && w'.timeline == w.timeline
  {
    var restart := Proposal("RESTART_POD", component, c.namespace, "");
    var output := Response([("recommended_actions", List([Obj(restart)]))]);
    Runs.RestartAnswer(c, component, restart);
    PlanOfProposal(planId, "RESTART_POD", component, c.namespace, "", c.rootCause, c.service, c.namespace);
    var p := PlanRemediation(planId, [restart], c.rootCause, c.service, c.namespace);
    Runs.UnrecordedAct(w.store, p.plan, c.executionId, NOTHING_FAILS.executor);
    AutomaticLog(c, w.(status := INVESTIGATING), p.plan, NOTHING_FAILS);
  }

  /** Where the fallback leaves the incident when its second transaction commits and the executor was not called: a
      diagnosis alone, a plan that awaits approval, or one that was rejected, each with its own rows. */
  lemma EndsAsDecided(
    c: W.Config, w: W.World, output: LlmOutput, component: string, parsing: Parsing, planId: Id, env: Env)
    requires env.first.Commits? && env.second.Commits? && RunRca(c.upper, output, component, c.namespace, parsing).Rca?
    ensures var (w', r) := Run(c, w, output, component, parsing, planId, env);
            var rca := RunRca(c.upper, output, component, c.namespace, parsing);
            match PlanRemediation(planId, rca.actions, c.rootCause, c.service, c.namespace)
            case PlanRaises => w'.timeline == w.timeline && w'.store == w.store
                               && w'.status == if env.last.Commits? then FAILED else INVESTIGATING
            case NoPlan => r == Returned && w' == W.World(DIAGNOSED, w.timeline + [RCA_COMPLETED], w.store)
            case Planned(plan) =>
              var policy := EvaluatePolicy(c.settings, plan);
              var stored := w.store.(plans := w.store.plans + {planId});
              && (policy.allowed && policy.requiresHumanApproval ==>
                    r == Returned
                    && w' == W.World(AWAITING_APPROVAL, w.timeline + [RCA_COMPLETED, APPROVAL_AWAITED], stored))
              && (!policy.allowed ==>
                    r == Returned
                    && w'.status == FAILED && w'.store == stored
                    && w'.timeline == w.timeline + [RCA_COMPLETED, STATUS_CHANGED_UNNAMED, POLICY_REJECTED])
  {
    var t := w.timeline;
    assert t + [RCA_COMPLETED] + [APPROVAL_AWAITED] == t + [RCA_COMPLETED, APPROVAL_AWAITED];
    assert t + [RCA_COMPLETED] + [STATUS_CHANGED_UNNAMED] + [POLICY_REJECTED]
           == t + [RCA_COMPLETED, STATUS_CHANGED_UNNAMED, POLICY_REJECTED];
  }

  /** When a transaction fails instead: nothing of it is kept, and the incident is FAILED if that can be stored. */
  lemma EndsAsFailed(
    c: W.Config, w: W.World, output: LlmOutput, component: string, parsing: Parsing, planId: Id, env: Env)
    requires planId !in w.store.plans && c.executionId !in w.store.executions
    requires !env.first.Commits? || !env.second.Commits?
             || RunRca(c.upper, output, component, c.namespace, parsing).RcaRaised?
    ensures var (w', r) := Run(c, w, output, component, parsing, planId, env);
            && w'.timeline == w.timeline && w'.store.plans == w.store.plans && w'.store.executions == w.store.executions
            && w'.status in {w.status, INVESTIGATING, FAILED}
            && (r == Raised ==> env.last.Errors?)
            && (r == Returned ==> w'.status == FAILED)
            && (env.first.Errors? ==> w'.status == if env.last.Commits? then FAILED else w.status)
            && (env.first.Crashes? ==> w' == w && r == Crashed)
  {
    var rca := RunRca(c.upper, output, component, c.namespace, parsing);
    if env.first.Commits? && rca.Rca? {
      TreatmentFails(c, w.(status := INVESTIGATING),
                     PlanRemediation(planId, rca.actions, c.rootCause, c.service, c.namespace), env);
    }
  }

  lemma TreatmentFails(c: W.Config, w: W.World, p: PlanResult, env: Env)
    requires p.Planned? ==> p.plan.planId !in w.store.plans && c.executionId !in w.store.executions
    requires !env.second.Commits? && w.status == INVESTIGATING
    ensures var (w', r) := Treat(c, w, p, env);
            && w'.timeline == w.timeline && w'.store.plans == w.store.plans && w'.store.executions == w.store.executions
            && w'.status in {INVESTIGATING, FAILED}
            && (r == Raised ==> env.last.Errors?)
            && (r == Returned ==> w'.status == FAILED)
  {
    if p.Planned? { Executor.MissingPlanNeverRecords(w.store, p.plan, c.executionId, env.executor); }
  }

  /** If the plan row were committed before the executor is called, an automatic plan would resolve the incident
      whenever the executor returns, also when what it returns is a failure. */
  lemma WouldResolveExactlyWhenReturned(c: W.Config, w: W.World, plan: Plan, env: Env)
    requires EvaluatePolicy(c.settings, plan).autoApproved && env.second.Commits? && w.status == INVESTIGATING
    ensures var w' := Remediate(c, w, plan, env).0;
            var executed := Executor.Call(w.store, plan, c.executionId, env.executor);
            && (w'.status == RESOLVED <==>
                  executed.1 in {Executor.Success, Executor.Failure, Executor.SkippedIdempotent})
            && (w'.status == RESOLVED ==>
                  w' == W.World(RESOLVED, w.timeline + [RCA_COMPLETED, AUTO_REMEDIATED],
                                executed.0.(plans := executed.0.plans + {plan.planId})))
  {
    assert w.timeline + [RCA_COMPLETED] + [AUTO_REMEDIATED] == w.timeline + [RCA_COMPLETED, AUTO_REMEDIATED];
    assert Executor.Call(w.store, plan, c.executionId, env.executor).0.plans == w.store.plans;
  }

  /** Whatever becomes of the second transaction, what the executor committed and did stays. */
  lemma ExecutorCommitsSurvive(c: W.Config, w: W.World, plan: Plan, env: Env)
    requires EvaluatePolicy(c.settings, plan).autoApproved
    ensures var w' := Remediate(c, w, plan, env).0;
            var executed := Executor.Call(w.store, plan, c.executionId, env.executor).0;
            w'.store.executions == executed.executions && w'.store.cluster == executed.cluster
  {
  }

  lemma PlanRowsBreakLog(c: W.Config, w: W.World, plan: Plan)
    ensures !W.Logged(WithPlan(c, w, plan))
  {
    W.LogFold(w.(status := DIAGNOSED), RCA_COMPLETED);
    var recorded := W.Diagnosed(w).(store := w.store.(plans := w.store.plans + {plan.planId}));
    W.LogFold(recorded.(status := AWAITING_APPROVAL), APPROVAL_AWAITED);
    W.LogFold(recorded.(status := FAILED), STATUS_CHANGED_UNNAMED);
    W.LogFold(W.Log(recorded.(status := FAILED), STATUS_CHANGED_UNNAMED), POLICY_REJECTED);
  }

  lemma PlannedLog(c: W.Config, w: W.World, plan: Plan, env: Env)
    requires W.Logged(w) && plan.planId !in w.store.plans && c.executionId !in w.store.executions
    ensures W.Logged(Remediate(c, w.(status := INVESTIGATING), plan, env).0)
            <==> TellsStatus(TraceOfPlan(c, plan, env), w.status)
  {
    var w1 := w.(status := INVESTIGATING);
    PlanRowsBreakLog(c, w1, plan);
    if EvaluatePolicy(c.settings, plan).autoApproved { AutomaticLog(c, w1, plan, env); }
  }

  lemma TreatmentLog(c: W.Config, w: W.World, p: PlanResult, env: Env)
    requires W.Logged(w) && c.executionId !in w.store.executions && (p.Planned? ==> p.plan.planId !in w.store.plans)
    ensures W.Logged(Treat(c, w.(status := INVESTIGATING), p, env).0)
            <==> TellsStatus(TraceOfTreatment(c, p, env), w.status)
  {
    W.LogFold(w.(status := DIAGNOSED), RCA_COMPLETED);
    if p.Planned? { PlannedLog(c, w, p.plan, env); }
  }

  /** Exactly when the timeline still gives the status after the fallback, for every model output, failure and
      status before: nothing was stored, the diagnosis was stored without a plan, or the only thing stored is
      the status that the incident already had. */
  lemma LogAgreesExactlyWhenTold(
    c: W.Config, w: W.World, output: LlmOutput, component: string, parsing: Parsing, planId: Id, env: Env)
    requires W.Logged(w) && planId !in w.store.plans && c.executionId !in w.store.executions
    ensures W.Logged(Run(c, w, output, component, parsing, planId, env).0)
            <==> TellsStatus(TraceOf(c, output, component, parsing, planId, env), w.status)
  {
    var rca := RunRca(c.upper, output, component, c.namespace, parsing);
    if env.first.Commits? && rca.Rca? {
      TreatmentLog(c, w, PlanRemediation(planId, rca.actions, c.rootCause, c.service, c.namespace), env);
    }
  }

  const NOTHING_FAILS := Env(
    Commits, Commits, Commits, Executor.Env(false, Executor.Acts, Executor.Commits, Executor.Commits))

  /** When nothing goes wrong, the timeline of an incident that had not failed still gives the status exactly when
      no plan was made. */
  lemma LogAgreesExactlyWhenNoPlan(
    c: W.Config, w: W.World, output: LlmOutput, component: string, parsing: Parsing, planId: Id)
    requires W.Logged(w) && w.status != FAILED
    requires planId !in w.store.plans && c.executionId !in w.store.executions
    ensures W.Logged(Run(c, w, output, component, parsing, planId, NOTHING_FAILS).0)
            <==> var rca := RunRca(c.upper, output, component, c.namespace, parsing);
                 rca.Rca? && PlanRemediation(planId, rca.actions, c.rootCause, c.service, c.namespace) == NoPlan
  {
    LogAgreesExactlyWhenTold(c, w, output, component, parsing, planId, NOTHING_FAILS);
  }
}
