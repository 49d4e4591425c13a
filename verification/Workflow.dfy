/** The incident workflow as a durable state machine: each input is one activity attempt, a signal, an
    alert that the correlator attaches meanwhile, or the end of the wait. Crashes between the
    transactions of an activity are attempts that stop there. Every theorem below is about all sequences
    of inputs. */
module Workflow {
  import opened Schema
  import opened Remediation
  import Executor

  // ---------------------------------------------------------------- state

  /** The payload of an approval signal, as far as it is read. */
  datatype Decision = Decision(verdict: Option<string>)

  predicate Approved(d: Decision) {
    d.verdict == Some("approved")
  }

  /** The error rate that verification read: no sample or no answer, not a number, or a rate. */
  datatype Measurement = NotMeasured | NotANumber | Rate(rate: real)

  /** Anything that is not below 5% counts as high, also NaN. */
  predicate HighRate(m: Measurement) {
    m.NotANumber? || (m.Rate? && !(m.rate < 0.05))
  }

  /** What the workflow returns. */
  datatype Outcome =
    | Resolved(diagnosedOnly: bool) | InvestigationFailed | PolicyRejected | ApprovalTimeout | Rejected
    | RemediationFailed | NotRecovered

  /** Where the run stands. Attempts count from 1. */
  datatype Pc =
    | Investigating(attempt: nat)
    | Diagnosing(attempt: nat)
    | Planning(actions: seq<Fields>, attempt: nat)
    | CheckingPolicy(plan: Plan)
    | RequestingApproval(plan: Plan)
    | Writing(status: IncidentStatus, next: Pc)
    | Waiting(plan: Plan)
    | Executing(plan: Plan, attempt: nat)
    | Verifying(attempt: nat)
    | Returned(outcome: Outcome)
    | Aborted

  /** The incident's rows and the shared tables. */
  datatype World = World(status: IncidentStatus, timeline: seq<TimelineKind>, store: Executor.Store)

  /** `plan`, `consumed` and `measured` are history variables: the plan the policy allowed, the decision
      the run acted on, and the measurement of the completed verification. */
  datatype Machine = Machine(
    pc: Pc, decision: Option<Decision>, world: World,
    plan: Option<Plan>, consumed: Option<Decision>, measured: Option<Measurement>)

  /** What does not change during a run. */
  datatype Config = Config(
    settings: Settings, upper: Capitalisation, service: string, namespace: string, rootCause: string, executionId: Id)

  // ---------------------------------------------------------------- inputs

  /** How an attempt that consists of one transaction ends. */
  datatype Attempt = Fails | CommitsThenCrashes | Completes

  /** How the second half of an investigation attempt ends: the model's answer and the transaction that
      stores the diagnosis. */
  datatype Diagnosis =
    | Crashes
    | CrashesAfterCommit(output: LlmOutput, component: string, parsing: Parsing)
    | Ends(output: LlmOutput, component: string, parsing: Parsing, persists: bool)

  datatype Input =
    | Signal(decision: Decision)
    | AlertCorrelated(alertId: Id)
    | StartInvestigation(commits: bool)
    | Diagnose(diagnosis: Diagnosis)
    | MakePlan(planId: Id, ok: bool)
    | CheckPolicy(ok: bool)
    | RequestApproval(attempt: Attempt)
    | WriteStatus(attempt: Attempt)
    | WaitReturns
    | WaitRaises
    | ExecutePlan(env: Executor.Env, report: Attempt)
    | Verify(measurement: Measurement, attempt: Attempt)

  const MAXIMUM_ATTEMPTS: nat := 3

  // ---------------------------------------------------------------- steps

  function Log(w: World, kind: TimelineKind): World {
    w.(timeline := w.timeline + [kind])
  }

  /** Activities with the retry policy end the workflow with an error after three attempts. */
  function AfterFailure(attempt: nat, again: Pc): Pc {
    if attempt >= MAXIMUM_ATTEMPTS then Aborted else again
  }

  function Started(w: World): World {
    Log(w.(status := INVESTIGATING), INVESTIGATION_STARTED)
  }

  function Diagnosed(w: World): World {
    Log(w.(status := DIAGNOSED), RCA_COMPLETED)
  }

  /** The first transaction of an attempt. Alerts and signals may come before the second. */
  function StartStep(m: Machine, commits: bool): Machine
    requires m.pc.Investigating?
  {
    if commits then m.(pc := Diagnosing(m.pc.attempt), world := Started(m.world))
    else m.(pc := AfterFailure(m.pc.attempt, Investigating(m.pc.attempt + 1)))
  }

  /** The model's answer and the second transaction. An error in either is reported as a failed diagnosis. */
  function DiagnoseStep(c: Config, m: Machine, d: Diagnosis): Machine
    requires m.pc.Diagnosing?
  {
    var again := AfterFailure(m.pc.attempt, Investigating(m.pc.attempt + 1));
    match d
    case Crashes => m.(pc := again)
    case CrashesAfterCommit(output, component, parsing) =>
      if RunRca(c.upper, output, component, c.namespace, parsing).Rca?
      then m.(pc := again, world := Diagnosed(m.world))
      else m.(pc := again)
    case Ends(output, component, parsing, persists) =>
      match RunRca(c.upper, output, component, c.namespace, parsing)
      case Rca(actions) =>
        if persists then m.(pc := Planning(actions, 1), world := Diagnosed(m.world))
        else m.(pc := Writing(FAILED, Returned(InvestigationFailed)))
      case RcaRaised => m.(pc := Writing(FAILED, Returned(InvestigationFailed)))
  }

  /** New plan ids are fresh. */
  function PlanStep(c: Config, m: Machine, planId: Id, ok: bool): Machine
    requires m.pc.Planning?
  {
    var again := AfterFailure(m.pc.attempt, Planning(m.pc.actions, m.pc.attempt + 1));
    if planId in m.world.store.plans then m
    else if !ok then m.(pc := again)
    else
      match PlanRemediation(planId, m.pc.actions, c.rootCause, c.service, c.namespace)
      case NoPlan => m.(pc := Writing(RESOLVED, Returned(Resolved(true))))
      case PlanRaises => m.(pc := again)
      case Planned(plan) => m.(pc := CheckingPolicy(plan))
  }

  function PolicyStep(c: Config, m: Machine, ok: bool): Machine
    requires m.pc.CheckingPolicy?
  {
    var plan := m.pc.plan;
    var r := EvaluatePolicy(c.settings, plan);
    if !ok then m.(pc := Aborted)
    else if !r.allowed then m.(pc := Writing(FAILED, Returned(PolicyRejected)))
    else m.(plan := Some(plan),
            pc := if r.requiresHumanApproval then RequestingApproval(plan)
                  else Writing(REMEDIATING, Executing(plan, 1)))
  }

  /** The plan id is the primary key: after a commit that went unreported every retry violates it. */
  function RequestStep(m: Machine, a: Attempt): Machine
    requires m.pc.RequestingApproval?
  {
    var plan := m.pc.plan;
    if a.Fails? || plan.planId in m.world.store.plans then m
    else
      var store := m.world.store.(plans := m.world.store.plans + {plan.planId});
      m.(world := Log(m.world.(store := store), APPROVAL_REQUESTED),
         pc := if a.Completes? then Writing(AWAITING_APPROVAL, Waiting(plan)) else m.pc)
  }

  function WriteStep(m: Machine, a: Attempt): Machine
    requires m.pc.Writing?
  {
    if a.Fails? then m
    else
      m.(world := Log(m.world.(status := m.pc.status), STATUS_CHANGED(m.pc.status)),
         pc := if a.Completes? then m.pc.next else m.pc)
  }

  /** The wait returns when there is a decision; the source also handles a wait that returns without one. */
  function DecideStep(m: Machine): Machine
    requires m.pc.Waiting?
  {
    match m.decision
    case None => m.(pc := Writing(FAILED, Returned(ApprovalTimeout)))
    case Some(d) =>
      m.(consumed := Some(d),
         pc := if Approved(d) then Writing(REMEDIATING, Executing(m.pc.plan, 1))
               else Writing(FAILED, Returned(Rejected)))
  }

  /** The executor writes other tables than signals and alerts do, so whatever comes between its transactions and
      the timeline row has the effect of coming before the attempt. */
  function ExecuteStep(c: Config, m: Machine, env: Executor.Env, report: Attempt): Machine
    requires m.pc.Executing?
  {
    var plan := m.pc.plan;
    var again := AfterFailure(m.pc.attempt, Executing(plan, m.pc.attempt + 1));
    var (store, result) := Executor.Call(m.world.store, plan, c.executionId, env);
    var world := m.world.(store := store);
    if result.Raises? || result.Crashes? || report.Fails? then m.(pc := again, world := world)
    else if report.CommitsThenCrashes? then m.(pc := again, world := Log(world, REMEDIATION_EXECUTED))
    else
      m.(world := Log(world, REMEDIATION_EXECUTED),
         pc := if result.Failure? then Writing(FAILED, Returned(RemediationFailed))
               else Writing(VERIFYING, Verifying(1)))
  }

  /** Latency and pods are always reported healthy, so the error rate alone decides. */
  function VerifyStep(m: Machine, measurement: Measurement, a: Attempt): Machine
    requires m.pc.Verifying?
  {
    var again := AfterFailure(m.pc.attempt, Verifying(m.pc.attempt + 1));
    if a.Fails? then m.(pc := again)
    else if a.CommitsThenCrashes? then m.(pc := again, world := Log(m.world, VERIFICATION_COMPLETED))
    else
      m.(world := Log(m.world, VERIFICATION_COMPLETED), measured := Some(measurement),
         pc := if HighRate(measurement) then Writing(FAILED, Returned(NotRecovered))
               else Writing(RESOLVED, Returned(Resolved(false))))
  }

  predicate Finished(pc: Pc) {
    pc.Returned? || pc.Aborted?
  }

  /** Inputs that do not fit the state leave it as it is. */
  function Step(c: Config, m: Machine, i: Input): Machine {
    match i
    case Signal(d) => if Finished(m.pc) then m else m.(decision := Some(d))
    case AlertCorrelated(id) => m.(world := Log(m.world, ALERT_CORRELATED(id)))
    case StartInvestigation(commits) => if m.pc.Investigating? then StartStep(m, commits) else m
    case Diagnose(d) => if m.pc.Diagnosing? then DiagnoseStep(c, m, d) else m
    case MakePlan(planId, ok) => if m.pc.Planning? then PlanStep(c, m, planId, ok) else m
    case CheckPolicy(ok) => if m.pc.CheckingPolicy? then PolicyStep(c, m, ok) else m
    case RequestApproval(a) => if m.pc.RequestingApproval? then RequestStep(m, a) else m
    case WriteStatus(a) => if m.pc.Writing? then WriteStep(m, a) else m
    case WaitReturns => if m.pc.Waiting? then DecideStep(m) else m
    case WaitRaises => if m.pc.Waiting? && m.decision.None? then m.(pc := Aborted) else m
    case ExecutePlan(env, report) => if m.pc.Executing? then ExecuteStep(c, m, env, report) else m
    case Verify(measurement, a) => if m.pc.Verifying? then VerifyStep(m, measurement, a) else m
  }

  function Execute(c: Config, m: Machine, inputs: seq<Input>): Machine {
    if inputs == [] then m
    else Step(c, Execute(c, m, inputs[..|inputs| - 1]), inputs[|inputs| - 1])
  }

  function Start(w: World): Machine {
    Machine(Investigating(1), None, w, None, None, None)
  }

  /** Where a workflow may start: the timeline of the incident so far agrees with its status, nothing was
      done for it yet, and its execution id is new. */
  ghost predicate Initial(c: Config, w: World) {
    && Logged(w)
    && w.store.cluster == []
    && Executor.OneRowPerPlan(w.store)
    && c.executionId !in w.store.executions
    && (forall e :: e in w.store.executions ==> w.store.executions[e].planId in w.store.plans)
  }

  // ---------------------------------------------------------------- the timeline as a log

  lemma LogFold(w: World, kind: TimelineKind)
    ensures Fold(Log(w, kind).timeline) == StatusAfter(kind, Fold(w.timeline))
  {
    FoldAppend(w.timeline, kind);
  }

  predicate Logged(w: World) {
    Fold(w.timeline) == Some(w.status)
  }

  /** The commits of the machine: the first three name the status they write, the others leave it. */
  lemma CommitsAreLogged(w: World, kind: TimelineKind)
    requires Logged(w)
    ensures Logged(Started(w)) && Logged(Diagnosed(w))
    ensures kind.STATUS_CHANGED? ==> Logged(Log(w.(status := kind.newStatus), kind))
    ensures StatusAfter(kind, Some(w.status)) == Some(w.status) ==>
              forall store :: Logged(Log(w.(store := store), kind))
  {
    LogFold(w.(status := INVESTIGATING), INVESTIGATION_STARTED);
    LogFold(w.(status := DIAGNOSED), RCA_COMPLETED);
    if kind.STATUS_CHANGED? { LogFold(w.(status := kind.newStatus), kind); }
    forall store { LogFold(w.(store := store), kind); }
  }

  lemma StepKeepsLog(c: Config, m: Machine, i: Input)
    requires Logged(m.world)
    ensures Logged(Step(c, m, i).world)
  {
    var w := m.world;
    match i
    case AlertCorrelated(id) =>
      CommitsAreLogged(w, ALERT_CORRELATED(id));
      assert Log(w, ALERT_CORRELATED(id)) == Log(w.(store := w.store), ALERT_CORRELATED(id));
    case StartInvestigation(_) => CommitsAreLogged(w, RCA_COMPLETED);
    case Diagnose(_) => CommitsAreLogged(w, RCA_COMPLETED);
    case RequestApproval(_) => CommitsAreLogged(w, APPROVAL_REQUESTED);
    case WriteStatus(a) => if m.pc.Writing? { CommitsAreLogged(w, STATUS_CHANGED(m.pc.status)); }
    case ExecutePlan(env, report) => if m.pc.Executing? { ExecuteKeepsLog(c, m, env, report); }
    case Verify(_, _) =>
      CommitsAreLogged(w, VERIFICATION_COMPLETED);
      assert Log(w, VERIFICATION_COMPLETED) == Log(w.(store := w.store), VERIFICATION_COMPLETED);
    case _ =>
  }

  lemma ExecuteKeepsLog(c: Config, m: Machine, env: Executor.Env, report: Attempt)
    requires m.pc.Executing? && Logged(m.world)
    ensures Logged(ExecuteStep(c, m, env, report).world)
  {
    CommitsAreLogged(m.world, REMEDIATION_EXECUTED);
  }

  /** After every commit of every run, with activities retried or crashed between their transactions and
      alerts attached at any moment, folding the timeline gives the status. */
  lemma {:induction false} LogTheorem(c: Config, w: World, inputs: seq<Input>)
    requires Initial(c, w)
    ensures Logged(Execute(c, Start(w), inputs).world)
  {
    if inputs != [] {
      LogTheorem(c, w, inputs[..|inputs| - 1]);
      StepKeepsLog(c, Execute(c, Start(w), inputs[..|inputs| - 1]), inputs[|inputs| - 1]);
    }
  }

  // ---------------------------------------------------------------- safety

  predicate AllPermitted(c: Config, actions: seq<Fields>) {
    forall a :: a in actions ==> Permitted(c.upper, a)
  }

  /** The plan has passed the policy, with the consumed decision where one is required. */
  predicate Cleared(c: Config, m: Machine, plan: Plan) {
    && m.plan == Some(plan)
    && EvaluatePolicy(c.settings, plan).allowed
    && (EvaluatePolicy(c.settings, plan).requiresHumanApproval ==> m.consumed.Some? && Approved(m.consumed.value))
  }

  predicate Kernel(plan: Plan) {
    plan.action in {RESTART_POD, SCALE_DEPLOYMENT, ROLLBACK_DEPLOYMENT}
  }

  /** What is known at each place of the run. */
  predicate Located(c: Config, m: Machine, pc: Pc) {
    match pc
    case Investigating(attempt) => m.plan.None? && m.world.store.cluster == [] && 1 <= attempt <= 3
    case Diagnosing(attempt) => m.plan.None? && m.world.store.cluster == [] && 1 <= attempt <= 3
    case Planning(actions, attempt) =>
      AllPermitted(c, actions) && m.plan.None? && m.world.store.cluster == [] && 1 <= attempt <= 3
    case CheckingPolicy(plan) => Kernel(plan) && m.plan.None? && m.world.store.cluster == []
    case RequestingApproval(plan) =>
      Kernel(plan) && m.plan == Some(plan) && EvaluatePolicy(c.settings, plan).allowed
      && EvaluatePolicy(c.settings, plan).requiresHumanApproval && m.world.store.cluster == []
    case Waiting(plan) =>
      Kernel(plan) && m.plan == Some(plan) && EvaluatePolicy(c.settings, plan).allowed
      && EvaluatePolicy(c.settings, plan).requiresHumanApproval && m.world.store.cluster == []
    case Executing(plan, attempt) =>
      Kernel(plan) && Cleared(c, m, plan) && 1 <= attempt <= 3 && |m.world.store.cluster| < attempt
    case Verifying(attempt) => m.plan.Some? && 1 <= attempt <= 3
    case Writing(status, next) =>
      match next {
        case Returned(outcome) => status == if outcome.Resolved? then RESOLVED else FAILED
        case Executing(_, attempt) => status == REMEDIATING && attempt == 1
        case Waiting(_) => status == AWAITING_APPROVAL
        case Verifying(_) => status == VERIFYING
        case _ => false
      }
    case _ => true
  }

  /** What a returned run has to show for its outcome. */
  predicate Justified(m: Machine, outcome: Outcome) {
    && (outcome == Resolved(true) ==> m.plan.None? && m.world.store.cluster == [])
    && (outcome == Resolved(false) ==> m.measured.Some? && !HighRate(m.measured.value))
  }

  function Target(pc: Pc): Pc {
    if pc.Writing? then pc.next else pc
  }

  predicate Done(c: Config, m: Machine, a: ClusterAction) {
    && m.plan.Some? && Cleared(c, m, m.plan.value)
    && Dispatch(m.plan.value) == Some(a)
  }

  predicate Safe(c: Config, m: Machine) {
    && Located(c, m, m.pc) && Located(c, m, Target(m.pc))
    && |m.world.store.cluster| <= 3
    && (forall a :: a in m.world.store.cluster ==> Done(c, m, a))
    && (m.pc.Returned? ==> m.world.status == if m.pc.outcome.Resolved? then RESOLVED else FAILED)
    && (Target(m.pc).Returned? ==> Justified(m, Target(m.pc).outcome))
  }

  lemma PlanStepIsSafe(c: Config, m: Machine, planId: Id, ok: bool)
    requires Safe(c, m) && m.pc.Planning?
    ensures Safe(c, PlanStep(c, m, planId, ok))
  {
    var actions := m.pc.actions;
    if actions != [] {
      assert actions[0] in actions;
      PermittedParses(c.upper, GetOr(actions[0], "action", Str("")).s);
    }
  }

  lemma StartStepIsSafe(c: Config, m: Machine, commits: bool)
    requires Safe(c, m) && m.pc.Investigating?
    ensures Safe(c, StartStep(m, commits))
  {
  }

  lemma DiagnoseStepIsSafe(c: Config, m: Machine, d: Diagnosis)
    requires Safe(c, m) && m.pc.Diagnosing?
    ensures Safe(c, DiagnoseStep(c, m, d))
  {
    if d.Ends? {
      RcaIsPermitted(c.upper, d.output, d.component, c.namespace, d.parsing);
    }
  }

  lemma ExecuteStepIsSafe(c: Config, m: Machine, env: Executor.Env, report: Attempt)
    requires Safe(c, m) && m.pc.Executing?
    ensures Safe(c, ExecuteStep(c, m, env, report))
  {
    var m' := ExecuteStep(c, m, env, report);
    var plan := m.pc.plan;
    var cluster, cluster' := m.world.store.cluster, m'.world.store.cluster;
    assert cluster' == cluster || (Dispatch(plan).Some? && cluster' == cluster + [Dispatch(plan).value]);
    forall a | a in cluster' ensures Done(c, m', a) {
      if a in cluster { assert Done(c, m, a); }
    }
  }

  /** A step that leaves the cluster, the plan and the consumed decision alone keeps what is known of them. */
  lemma FrameKeepsDone(c: Config, m: Machine, m': Machine)
    requires Safe(c, m) && m'.plan == m.plan && m'.world.store.cluster == m.world.store.cluster
    requires m'.consumed == m.consumed || m.world.store.cluster == []
    ensures forall a :: a in m'.world.store.cluster ==> Done(c, m', a)
  {
    forall a | a in m'.world.store.cluster ensures Done(c, m', a) { assert Done(c, m, a); }
  }

  lemma PolicyStepIsSafe(c: Config, m: Machine, ok: bool)
    requires Safe(c, m) && m.pc.CheckingPolicy?
    ensures Safe(c, PolicyStep(c, m, ok))
  {
  }

  lemma RequestStepIsSafe(c: Config, m: Machine, a: Attempt)
    requires Safe(c, m) && m.pc.RequestingApproval?
    ensures Safe(c, RequestStep(m, a))
  {
  }

  lemma WriteStepIsSafe(c: Config, m: Machine, a: Attempt)
    requires Safe(c, m) && m.pc.Writing?
    ensures Safe(c, WriteStep(m, a))
  {
    FrameKeepsDone(c, m, WriteStep(m, a));
  }

  lemma DecideStepIsSafe(c: Config, m: Machine)
    requires Safe(c, m) && m.pc.Waiting?
    ensures Safe(c, DecideStep(m))
  {
  }

  lemma VerifyStepIsSafe(c: Config, m: Machine, measurement: Measurement, a: Attempt)
    requires Safe(c, m) && m.pc.Verifying?
    ensures Safe(c, VerifyStep(m, measurement, a))
  {
    FrameKeepsDone(c, m, VerifyStep(m, measurement, a));
  }

  /** Signals and attached alerts change nothing that safety depends on. */
  lemma InterruptionIsSafe(c: Config, m: Machine, m': Machine)
    requires Safe(c, m) && m'.pc == m.pc && m'.plan == m.plan && m'.consumed == m.consumed && m'.measured == m.measured
    requires m'.world.store == m.world.store && m'.world.status == m.world.status
    ensures Safe(c, m')
  {
    FrameKeepsDone(c, m, m');
  }

  lemma AbortIsSafe(c: Config, m: Machine)
    requires Safe(c, m)
    ensures Safe(c, m.(pc := Aborted))
  {
    FrameKeepsDone(c, m, m.(pc := Aborted));
  }

  lemma StepIsSafe(c: Config, m: Machine, i: Input)
    requires Safe(c, m)
    ensures Safe(c, Step(c, m, i))
  {
    match i
    case Signal(d) => InterruptionIsSafe(c, m, m.(decision := Some(d)));
    case AlertCorrelated(id) => InterruptionIsSafe(c, m, m.(world := Log(m.world, ALERT_CORRELATED(id))));
    case StartInvestigation(commits) => if m.pc.Investigating? { StartStepIsSafe(c, m, commits); }
    case Diagnose(d) => if m.pc.Diagnosing? { DiagnoseStepIsSafe(c, m, d); }
    case MakePlan(planId, ok) => if m.pc.Planning? { PlanStepIsSafe(c, m, planId, ok); }
    case CheckPolicy(ok) => if m.pc.CheckingPolicy? { PolicyStepIsSafe(c, m, ok); }
    case RequestApproval(a) => if m.pc.RequestingApproval? { RequestStepIsSafe(c, m, a); }
    case WriteStatus(a) => if m.pc.Writing? { WriteStepIsSafe(c, m, a); }
    case WaitReturns => if m.pc.Waiting? { DecideStepIsSafe(c, m); }
    case WaitRaises => AbortIsSafe(c, m);
    case ExecutePlan(env, report) => if m.pc.Executing? { ExecuteStepIsSafe(c, m, env, report); }
    case Verify(measurement, a) => if m.pc.Verifying? { VerifyStepIsSafe(c, m, measurement, a); }
  }

  lemma {:induction false} RunIsSafe(c: Config, w: World, inputs: seq<Input>)
    requires Initial(c, w)
    ensures Safe(c, Execute(c, Start(w), inputs))
  {
    if inputs != [] {
      RunIsSafe(c, w, inputs[..|inputs| - 1]);
      StepIsSafe(c, Execute(c, Start(w), inputs[..|inputs| - 1]), inputs[|inputs| - 1]);
    }
  }

  /** For every model output, signal and failure: what reached the cluster is one plan's action, at most
      three times; it is a restart, scale or rollback on an allowed target and namespace, a scale to the
      count that the policy checked and within 1..10, and a rollback only after the consumed decision was
      "approved". */
  lemma SafetyTheorem(c: Config, w: World, inputs: seq<Input>, a: ClusterAction)
    requires Initial(c, w) && a in Execute(c, Start(w), inputs).world.store.cluster
    ensures var m := Execute(c, Start(w), inputs);
            && |m.world.store.cluster| <= 3
            && Bounded(c.settings, a)
            && m.plan.Some? && Dispatch(m.plan.value) == Some(a)
            && (a.ScaleTo? ==> PyInt(Replicas(m.plan.value)) == Some(a.replicas))
            && (a.RollBack? ==> m.consumed.Some? && Approved(m.consumed.value))
  {
    RunIsSafe(c, w, inputs);
    var m := Execute(c, Start(w), inputs);
    assert Done(c, m, a);
    PolicyExact(c.settings, m.plan.value);
  }

  /** The run returns "RESOLVED" exactly when the last status write is RESOLVED, and otherwise that write is
      FAILED; resolved means either that nothing was planned and nothing done, or that the completed
      verification measured no error rate of 5% or more. */
  lemma AgreementTheorem(c: Config, w: World, inputs: seq<Input>)
    requires Initial(c, w) && Execute(c, Start(w), inputs).pc.Returned?
    ensures var m := Execute(c, Start(w), inputs);
            && (m.pc.outcome.Resolved? <==> m.world.status == RESOLVED)
            && (!m.pc.outcome.Resolved? ==> m.world.status == FAILED)
            && (m.pc.outcome.Resolved? ==>
                  (m.plan.None? && m.world.store.cluster == []) || (m.measured.Some? && !HighRate(m.measured.value)))
  {
    RunIsSafe(c, w, inputs);
  }

  // ---------------------------------------------------------------- automatic remediation

  predicate NeedsNoApproval(c: Config, m: Machine) {
    m.plan.Some? && !EvaluatePolicy(c.settings, m.plan.value).requiresHumanApproval
  }

  /** A run that needs no approval has no row in remediation_plans and never gets past its execution. */
  ghost predicate Unrecorded(c: Config, m: Machine) {
    && (m.plan.None? ==> c.executionId !in m.world.store.executions)
    && (m.pc.Planning? ==> m.plan.None? && m.world.status == DIAGNOSED)
    && (m.pc.CheckingPolicy? ==>
          m.plan.None? && m.world.status == DIAGNOSED && m.pc.plan.planId !in m.world.store.plans)
    && (m.pc.Investigating? || m.pc.Diagnosing? ==> m.plan.None?)
    && (NeedsNoApproval(c, m) ==>
          && m.plan.value.planId !in m.world.store.plans
          && c.executionId !in m.world.store.executions
          && (m.pc.Aborted? || m.pc == Writing(REMEDIATING, Executing(m.plan.value, 1))
              || (m.pc.Executing? && m.pc.plan == m.plan.value))
          && m.world.status in {DIAGNOSED, REMEDIATING})
  }

  lemma StepKeepsUnrecorded(c: Config, m: Machine, i: Input)
    requires Safe(c, m) && Unrecorded(c, m)
    ensures Unrecorded(c, Step(c, m, i))
  {
    if i.ExecutePlan? && m.pc.Executing? && NeedsNoApproval(c, m) {
      Executor.MissingPlanNeverRecords(m.world.store, m.pc.plan, c.executionId, i.env);
    }
  }

  /** Automatic remediation cannot succeed: only the approval request writes a plan row, so for a plan that
      needs no approval the execution table rejects both results. In no run does such an incident leave
      REMEDIATING again, get an execution row or return: it waits, acts again, or has aborted. */
  lemma {:induction false} AutomaticRemediationNeverReturns(c: Config, w: World, inputs: seq<Input>)
    requires Initial(c, w)
    ensures var m := Execute(c, Start(w), inputs);
            && Unrecorded(c, m)
            && (NeedsNoApproval(c, m) ==>
                  && !m.pc.Returned? && !m.pc.Verifying?
                  && m.world.status in {DIAGNOSED, REMEDIATING}
                  && c.executionId !in m.world.store.executions
                  && m.plan.value.planId !in m.world.store.plans)
  {
    if inputs != [] {
      AutomaticRemediationNeverReturns(c, w, inputs[..|inputs| - 1]);
      RunIsSafe(c, w, inputs[..|inputs| - 1]);
      StepKeepsUnrecorded(c, Execute(c, Start(w), inputs[..|inputs| - 1]), inputs[|inputs| - 1]);
    }
  }

  // ---------------------------------------------------------------- termination

  /** The number of steps that a run may still take, not counting failed attempts of activities without a
      retry limit. */
  function Fuel(pc: Pc): nat {
    match pc
    case Investigating(attempt) => 20 + (if attempt <= 3 then 2 * (4 - attempt) else 0)
    case Diagnosing(attempt) => 19 + (if attempt <= 3 then 2 * (4 - attempt) else 0)
    case Planning(_, attempt) => 17 + (if attempt <= 3 then 4 - attempt else 0)
    case CheckingPolicy(_) => 17
    case RequestingApproval(_) => 15
    case Waiting(_) => 13
    case Executing(_, attempt) => 7 + (if attempt <= 3 then 4 - attempt else 0)
    case Verifying(attempt) => 2 + (if attempt <= 3 then 4 - attempt else 0)
    case Writing(_, next) => 1 + Fuel(next)
    case Returned(_) => 0
    case Aborted => 0
  }

  lemma ExecuteUsesFuel(c: Config, m: Machine, env: Executor.Env, report: Attempt)
    requires m.pc.Executing? && 1 <= m.pc.attempt <= 3
    ensures Fuel(ExecuteStep(c, m, env, report).pc) < Fuel(m.pc)
  {
    assert Fuel(AfterFailure(m.pc.attempt, Executing(m.pc.plan, m.pc.attempt + 1))) < Fuel(m.pc);
  }

  lemma VerifyUsesFuel(m: Machine, measurement: Measurement, a: Attempt)
    requires m.pc.Verifying? && 1 <= m.pc.attempt <= 3
    ensures Fuel(VerifyStep(m, measurement, a).pc) < Fuel(m.pc)
  {
  }

  lemma PolicyUsesFuel(c: Config, m: Machine, ok: bool)
    requires m.pc.CheckingPolicy?
    ensures Fuel(PolicyStep(c, m, ok).pc) < Fuel(m.pc)
  {
  }

  lemma DecideUsesFuel(m: Machine)
    requires m.pc.Waiting?
    ensures Fuel(DecideStep(m).pc) < Fuel(m.pc)
  {
  }

  lemma RequestUsesFuel(m: Machine, a: Attempt)
    requires m.pc.RequestingApproval?
    ensures var m' := RequestStep(m, a); m'.pc == m.pc || Fuel(m'.pc) < Fuel(m.pc)
  {
  }

  lemma InvestigateUsesFuel(c: Config, m: Machine, commits: bool, d: Diagnosis)
    requires (m.pc.Investigating? || m.pc.Diagnosing?) && 1 <= m.pc.attempt <= 3
    ensures m.pc.Investigating? ==> Fuel(StartStep(m, commits).pc) < Fuel(m.pc)
    ensures m.pc.Diagnosing? ==> Fuel(DiagnoseStep(c, m, d).pc) < Fuel(m.pc)
  {
  }

  lemma PlanUsesFuel(c: Config, m: Machine, planId: Id, ok: bool)
    requires m.pc.Planning? && 1 <= m.pc.attempt <= 3
    ensures var m' := PlanStep(c, m, planId, ok); m'.pc == m.pc || Fuel(m'.pc) < Fuel(m.pc)
  {
  }

  /** Every step either leaves the place of the run as it is or uses fuel. */
  lemma StepUsesFuel(c: Config, m: Machine, i: Input)
    requires Safe(c, m)
    ensures var m' := Step(c, m, i);
            m'.pc == m.pc || Fuel(m'.pc) < Fuel(m.pc)
  {
    match i
    case StartInvestigation(commits) => if m.pc.Investigating? { InvestigateUsesFuel(c, m, commits, Crashes); }
    case Diagnose(d) => if m.pc.Diagnosing? { InvestigateUsesFuel(c, m, true, d); }
    case MakePlan(planId, ok) => if m.pc.Planning? { PlanUsesFuel(c, m, planId, ok); }
    case ExecutePlan(env, report) => if m.pc.Executing? { ExecuteUsesFuel(c, m, env, report); }
    case Verify(measurement, a) => if m.pc.Verifying? { VerifyUsesFuel(m, measurement, a); }
    case CheckPolicy(ok) => if m.pc.CheckingPolicy? { PolicyUsesFuel(c, m, ok); }
    case RequestApproval(a) => if m.pc.RequestingApproval? { RequestUsesFuel(m, a); }
    case WaitReturns => if m.pc.Waiting? { DecideUsesFuel(m); }
    case _ =>
  }

  function Moves(c: Config, m: Machine, inputs: seq<Input>): nat {
    if inputs == [] then 0
    else
      var before := Execute(c, m, inputs[..|inputs| - 1]);
      Moves(c, m, inputs[..|inputs| - 1]) + if Step(c, before, inputs[|inputs| - 1]).pc != before.pc then 1 else 0
  }

  /** No run moves more than 26 times, whatever fails and however often. */
  lemma {:induction false} TerminationTheorem(c: Config, w: World, inputs: seq<Input>)
    requires Initial(c, w)
    ensures Moves(c, Start(w), inputs) + Fuel(Execute(c, Start(w), inputs).pc) <= 26
  {
    if inputs != [] {
      var init := inputs[..|inputs| - 1];
      TerminationTheorem(c, w, init);
      RunIsSafe(c, w, init);
      StepUsesFuel(c, Execute(c, Start(w), init), inputs[|inputs| - 1]);
    }
  }

  /** The step that the run is waiting for, with every transaction committing and every report arriving. */
  predicate Succeeds(c: Config, m: Machine, i: Input) {
    match m.pc
    case Investigating(_) => i == StartInvestigation(true)
    case Diagnosing(_) => i.Diagnose? && i.diagnosis.Ends?
    case Planning(_, _) => i.MakePlan? && i.planId !in m.world.store.plans
    case CheckingPolicy(_) => i.CheckPolicy?
    case RequestingApproval(plan) => i == RequestApproval(Completes) && plan.planId !in m.world.store.plans
    case Writing(_, _) => i == WriteStatus(Completes)
    case Waiting(_) => i == WaitReturns
    case Executing(_, _) => i.ExecutePlan?
    case Verifying(_) => i.Verify?
    case _ => false
  }

  /** A success moves the run on. */
  lemma SuccessMoves(c: Config, m: Machine, i: Input)
    requires Safe(c, m) && Succeeds(c, m, i)
    ensures Fuel(Step(c, m, i).pc) < Fuel(m.pc)
  {
    StepUsesFuel(c, m, i);
    assert Step(c, m, i).pc != m.pc;
  }

  predicate Stuck(m: Machine) {
    m.pc.RequestingApproval? && m.pc.plan.planId in m.world.store.plans
  }

  ghost predicate CanSucceed(c: Config, m: Machine) {
    exists i :: Succeeds(c, m, i)
  }

  lemma UnusedId(used: set<Id>) returns (id: Id)
    ensures forall x: Id :: x in used ==> x < id
  {
    if used == {} {
      return 0;
    }
    var x :| x in used;
    var bound := UnusedId(used - {x});
    assert forall y: Id :: y in used ==> y == x || y in used - {x};
    return if bound <= x then x + 1 else bound;
  }

  /** A run can go on exactly when it is not finished and its approval request is not stuck. */
  lemma GoesOnExactlyWhenNotStuck(c: Config, m: Machine)
    ensures CanSucceed(c, m) <==> !Finished(m.pc) && !Stuck(m)
  {
    match m.pc
    case Investigating(_) => assert Succeeds(c, m, StartInvestigation(true));
    case Diagnosing(_) => assert Succeeds(c, m, Diagnose(Ends(NotJson, "", Fine, true)));
    case Planning(_, _) =>
      var planId := UnusedId(m.world.store.plans);
      assert Succeeds(c, m, MakePlan(planId, true));
    case CheckingPolicy(_) => assert Succeeds(c, m, CheckPolicy(true));
    case RequestingApproval(plan) => assert !Stuck(m) ==> Succeeds(c, m, RequestApproval(Completes));
    case Writing(_, _) => assert Succeeds(c, m, WriteStatus(Completes));
    case Waiting(_) => assert Succeeds(c, m, WaitReturns);
    case Executing(_, _) =>
      assert Succeeds(c, m,
                      ExecutePlan(Executor.Env(false, Executor.Acts, Executor.Commits, Executor.Commits), Completes));
    case Verifying(_) => assert Succeeds(c, m, Verify(NotMeasured, Completes));
    case _ =>
  }

  ghost predicate CanLeave(c: Config, m: Machine) {
    exists inputs :: Execute(c, m, inputs).pc != m.pc
  }

  /** Exactly when an approval request can still get through: its plan row is not there yet. A crash
      between the commit and the report leaves the row behind, and then every retry fails for ever. */
  lemma RequestStuckExactlyWhenRecorded(c: Config, m: Machine)
    requires m.pc.RequestingApproval?
    ensures CanLeave(c, m) <==> m.pc.plan.planId !in m.world.store.plans
  {
    if m.pc.plan.planId in m.world.store.plans {
      forall inputs ensures Execute(c, m, inputs).pc == m.pc {
        StuckRequest(c, m, inputs);
      }
    } else {
      var inputs := [RequestApproval(Completes)];
      assert Execute(c, m, inputs[..0]) == m;
      assert Execute(c, m, inputs) == Step(c, m, RequestApproval(Completes));
    }
  }

  lemma {:induction false} StuckRequest(c: Config, m: Machine, inputs: seq<Input>)
    requires m.pc.RequestingApproval? && m.pc.plan.planId in m.world.store.plans
    ensures var m' := Execute(c, m, inputs);
            m'.pc == m.pc && m.world.store.plans <= m'.world.store.plans
  {
    if inputs != [] { StuckRequest(c, m, inputs[..|inputs| - 1]); }
  }

  /** The theorems are not empty: an approved plan whose action dispatches runs through to RESOLVED. */
  lemma ApprovedPlanResolves(c: Config, m: Machine, d: Decision)
    requires m.pc.RequestingApproval?
    requires Executor.CanInsert(m.world.store.(plans := m.world.store.plans + {m.pc.plan.planId}),
                                c.executionId, m.pc.plan.planId)
    requires m.pc.plan.planId !in m.world.store.plans && Dispatch(m.pc.plan).Some? && Approved(d)
    ensures var done := WriteStatus(Completes);
            var good := Executor.Env(false, Executor.Acts, Executor.Commits, Executor.Commits);
            var m1 := Step(c, Step(c, Step(c, m, RequestApproval(Completes)), done), Signal(d));
            var m2 := Step(c, Step(c, Step(c, m1, WaitReturns), done), ExecutePlan(good, Completes));
            var m3 := Step(c, Step(c, Step(c, m2, done), Verify(NotMeasured, Completes)), done);
            m3.pc == Returned(Resolved(false)) && m3.world.status == RESOLVED
            && m3.world.store.cluster == m.world.store.cluster + [Dispatch(m.pc.plan).value]
  {
    var done, plan := WriteStatus(Completes), m.pc.plan;
    var good := Executor.Env(false, Executor.Acts, Executor.Commits, Executor.Commits);
    var m1 := Step(c, Step(c, Step(c, m, RequestApproval(Completes)), done), Signal(d));
    assert m1.pc == Waiting(plan) && m1.decision == Some(d);
    assert m1.world.store == m.world.store.(plans := m.world.store.plans + {plan.planId});
    var executing := Step(c, Step(c, m1, WaitReturns), done);
    assert executing.pc == Executing(plan, 1) && executing.world.store == m1.world.store;
    var m2 := Step(c, executing, ExecutePlan(good, Completes));
    assert m2.pc == Writing(VERIFYING, Verifying(1));
    assert m2.world.store.cluster == m.world.store.cluster + [Dispatch(plan).value];
  }
}
