/** What a run has to show for the place it is at and for what it returns, and what each step decides. */
module Outcomes {
  import opened Schema
  import opened Remediation
  import opened Workflow
  import Executor

  // ---------------------------------------------------------------- outcomes

  predicate NeedsApproval(c: Config, m: Machine) {
    m.plan.Some? && EvaluatePolicy(c.settings, m.plan.value).requiresHumanApproval
  }

  /** Nothing was done for the incident and nothing recorded. */
  predicate Untouched(c: Config, m: Machine) {
    m.world.store.cluster == [] && c.executionId !in m.world.store.executions
  }

  /** The run has recorded this result for its plan. */
  predicate Recorded(c: Config, m: Machine, status: Executor.ExecutionStatus) {
    m.plan.Some? && c.executionId in m.world.store.executions
    && m.world.store.executions[c.executionId] == Executor.Execution(m.plan.value.planId, status)
  }

  /** What stands behind each outcome. */
  predicate Earned(c: Config, m: Machine, outcome: Outcome) {
    match outcome
    case Resolved(diagnosedOnly) =>
      if diagnosedOnly then m.plan.None? && m.consumed.None? && Untouched(c, m)
      else Recorded(c, m, Executor.SUCCESS) && m.measured.Some?
           && (m.measured.value.NotMeasured? || (m.measured.value.Rate? && m.measured.value.rate < 0.05))
    case InvestigationFailed => m.plan.None? && m.consumed.None? && Untouched(c, m)
    case PolicyRejected => m.plan.None? && m.consumed.None? && Untouched(c, m)
    case ApprovalTimeout => NeedsApproval(c, m) && m.consumed.None? && Untouched(c, m)
    case Rejected =>
      NeedsApproval(c, m) && m.consumed.Some? && m.consumed.value.verdict != Some("approved") && Untouched(c, m)
    case RemediationFailed => Recorded(c, m, Executor.FAILURE) && m.measured.None?
    case NotRecovered =>
      Recorded(c, m, Executor.SUCCESS) && m.measured.Some?
      && (m.measured.value.NotANumber? || (m.measured.value.Rate? && m.measured.value.rate >= 0.05))
  }

  /** What stands behind the place that the run is at or is about to reach. */
  predicate Founded(c: Config, m: Machine, pc: Pc) {
    match pc
    case Investigating(_) => m.plan.None? && m.consumed.None? && m.measured.None? && Untouched(c, m)
    case Diagnosing(_) => m.plan.None? && m.consumed.None? && m.measured.None? && Untouched(c, m)
    case Planning(_, _) => m.plan.None? && m.consumed.None? && m.measured.None? && Untouched(c, m)
    case CheckingPolicy(_) => m.plan.None? && m.consumed.None? && m.measured.None? && Untouched(c, m)
    case RequestingApproval(_) => NeedsApproval(c, m) && m.consumed.None? && m.measured.None? && Untouched(c, m)
    case Waiting(_) => NeedsApproval(c, m) && m.consumed.None? && m.measured.None? && Untouched(c, m)
    case Executing(plan, _) =>
      m.plan == Some(plan) && m.measured.None?
      && (NeedsApproval(c, m) ==> m.consumed.Some? && m.consumed.value.verdict == Some("approved"))
      && (c.executionId in m.world.store.executions ==>
            m.world.store.executions[c.executionId].planId == plan.planId)
    case Verifying(_) => Recorded(c, m, Executor.SUCCESS) && m.measured.None?
    case Returned(outcome) => Earned(c, m, outcome)
    case _ => true
  }

  /** The status tells where the run stands. */
  predicate Placed(m: Machine) {
    match m.pc
    case Diagnosing(_) => m.world.status == INVESTIGATING
    case Planning(_, _) => m.world.status == DIAGNOSED
    case CheckingPolicy(_) => m.world.status == DIAGNOSED
    case RequestingApproval(_) => m.world.status == DIAGNOSED
    case Waiting(_) => m.world.status == AWAITING_APPROVAL
    case Executing(_, _) => m.world.status == REMEDIATING
    case Verifying(_) => m.world.status == VERIFYING
    case _ => true
  }

  predicate Sound(c: Config, m: Machine) {
    Founded(c, m, Target(m.pc)) && Placed(m)
  }

  lemma ExecuteKeeps(c: Config, m: Machine, env: Executor.Env, report: Attempt)
    requires Sound(c, m) && m.pc.Executing?
    ensures Sound(c, ExecuteStep(c, m, env, report))
  {
    Executor.ResultsAreRecorded(m.world.store, m.pc.plan, c.executionId, env);
  }

  lemma DecisionsKeep(c: Config, m: Machine, ok: bool)
    requires Sound(c, m) && Safe(c, m)
    ensures m.pc.CheckingPolicy? ==> Sound(c, PolicyStep(c, m, ok))
    ensures m.pc.Waiting? ==> Sound(c, DecideStep(m))
  {
  }

  lemma WritesKeep(c: Config, m: Machine, a: Attempt)
    requires Sound(c, m) && Safe(c, m)
    ensures m.pc.Writing? ==> Sound(c, WriteStep(m, a))
    ensures m.pc.RequestingApproval? ==> Sound(c, RequestStep(m, a))
  {
  }

  lemma DiagnosesKeep(c: Config, m: Machine, commits: bool, d: Diagnosis, planId: Id, ok: bool)
    requires Sound(c, m)
    ensures m.pc.Investigating? ==> Sound(c, StartStep(m, commits))
    ensures m.pc.Diagnosing? ==> Sound(c, DiagnoseStep(c, m, d))
    ensures m.pc.Planning? ==> Sound(c, PlanStep(c, m, planId, ok))
  {
  }

  lemma VerifyKeeps(c: Config, m: Machine, measurement: Measurement, a: Attempt)
    requires Sound(c, m) && m.pc.Verifying?
    ensures Sound(c, VerifyStep(m, measurement, a))
  {
  }

  lemma StepKeeps(c: Config, m: Machine, i: Input)
    requires Safe(c, m) && Sound(c, m)
    ensures Sound(c, Step(c, m, i))
  {
    match i
    case Signal(_) =>
    case AlertCorrelated(_) =>
    case StartInvestigation(commits) => DiagnosesKeep(c, m, commits, Crashes, 0, false);
    case Diagnose(d) => DiagnosesKeep(c, m, false, d, 0, false);
    case MakePlan(planId, ok) => DiagnosesKeep(c, m, false, Crashes, planId, ok);
    case CheckPolicy(ok) => DecisionsKeep(c, m, ok);
    case RequestApproval(a) => WritesKeep(c, m, a);
    case WriteStatus(a) => WritesKeep(c, m, a);
    case WaitReturns => DecisionsKeep(c, m, false);
    case WaitRaises =>
    case ExecutePlan(env, report) => if m.pc.Executing? { ExecuteKeeps(c, m, env, report); }
    case Verify(measurement, a) => if m.pc.Verifying? { VerifyKeeps(c, m, measurement, a); }
  }

  lemma {:induction false} RunIsSound(c: Config, w: World, inputs: seq<Input>)
    requires Initial(c, w)
    ensures Sound(c, Execute(c, Start(w), inputs))
  {
    if inputs != [] {
      RunIsSound(c, w, inputs[..|inputs| - 1]);
      RunIsSafe(c, w, inputs[..|inputs| - 1]);
      StepKeeps(c, Execute(c, Start(w), inputs[..|inputs| - 1]), inputs[|inputs| - 1]);
    }
  }

  /** Every outcome is earned: a run that says its remediation failed has a FAILURE row, one that verified has a
      SUCCESS row and the measurement to match, one that was rejected or timed out has the plan, the decision and an
      untouched cluster, and the others have done nothing. */
  lemma OutcomeTheorem(c: Config, w: World, inputs: seq<Input>)
    requires Initial(c, w) && Execute(c, Start(w), inputs).pc.Returned?
    ensures Earned(c, Execute(c, Start(w), inputs), Execute(c, Start(w), inputs).pc.outcome)
  {
    RunIsSound(c, w, inputs);
  }

  /** Only a recorded success is verified. */
  lemma VerifiedWasRecorded(c: Config, w: World, inputs: seq<Input>)
    requires Initial(c, w)
    ensures var m := Execute(c, Start(w), inputs);
            Target(m.pc).Verifying? || Target(m.pc) in {Returned(Resolved(false)), Returned(NotRecovered)} ==>
              Recorded(c, m, Executor.SUCCESS)
  {
    RunIsSound(c, w, inputs);
  }

  /** In every run the incident's status tells where the workflow stands. */
  lemma StatusTellsPlace(c: Config, w: World, inputs: seq<Input>)
    requires Initial(c, w)
    ensures Placed(Execute(c, Start(w), inputs))
  {
    RunIsSound(c, w, inputs);
  }

  // ---------------------------------------------------------------- decisions

  /** What a diagnosis, a plan, a policy check and a verification decide. */
  lemma StepsDecide(c: Config, m: Machine, output: LlmOutput, component: string, parsing: Parsing, persists: bool,
                    planId: Id, measurement: Measurement)
    ensures m.pc.Diagnosing? ==>
              var m' := Step(c, m, Diagnose(Ends(output, component, parsing, persists)));
              var rca := RunRca(c.upper, output, component, c.namespace, parsing);
              if rca.Rca? && persists then m'.pc == Planning(rca.actions, 1) && m'.world.status == DIAGNOSED
              else m'.pc == Writing(FAILED, Returned(InvestigationFailed)) && m'.world == m.world
    ensures m.pc.Planning? && planId !in m.world.store.plans ==>
              var m' := Step(c, m, MakePlan(planId, true));
              var p := PlanRemediation(planId, m.pc.actions, c.rootCause, c.service, c.namespace);
              && m'.world == m.world
              && (forall plan :: m'.pc == CheckingPolicy(plan) <==> p == Planned(plan))
              && (m'.pc == Writing(RESOLVED, Returned(Resolved(true))) <==> p == NoPlan)
    ensures m.pc.CheckingPolicy? ==>
              var m', r := Step(c, m, CheckPolicy(true)), EvaluatePolicy(c.settings, m.pc.plan);
              && (m'.pc == Writing(FAILED, Returned(PolicyRejected)) <==> !r.allowed)
              && (m'.pc == RequestingApproval(m.pc.plan) <==> r.allowed && r.requiresHumanApproval)
              && (m'.pc == Writing(REMEDIATING, Executing(m.pc.plan, 1)) <==> r.autoApproved)
    ensures m.pc.Verifying? ==>
              var m' := Step(c, m, Verify(measurement, Completes));
              var fine := measurement.NotMeasured? || (measurement.Rate? && measurement.rate < 0.05);
              m'.pc == if fine then Writing(RESOLVED, Returned(Resolved(false)))
                       else Writing(FAILED, Returned(NotRecovered))
  {
    if m.pc.CheckingPolicy? { PolicyExact(c.settings, m.pc.plan); }
  }

  /** Failed attempts: an activity with the retry policy is tried three times before the run ends with an error, the
      policy check once, and the others for ever. */
  lemma FailuresAreRetried(c: Config, m: Machine, planId: Id, env: Executor.Env, measurement: Measurement)
    requires planId !in m.world.store.plans && env.checkRaises
    ensures m.pc.Investigating? ==>
              Step(c, m, StartInvestigation(false)).pc
              == if m.pc.attempt < 3 then Investigating(m.pc.attempt + 1) else Aborted
    ensures m.pc.Diagnosing? ==>
              Step(c, m, Diagnose(Crashes)).pc == if m.pc.attempt < 3 then Investigating(m.pc.attempt + 1) else Aborted
    ensures m.pc.Planning? ==>
              Step(c, m, MakePlan(planId, false)).pc
              == if m.pc.attempt < 3 then Planning(m.pc.actions, m.pc.attempt + 1) else Aborted
    ensures m.pc.Planning?
            && PlanRemediation(planId, m.pc.actions, c.rootCause, c.service, c.namespace).PlanRaises? ==>
              Step(c, m, MakePlan(planId, true)).pc
              == if m.pc.attempt < 3 then Planning(m.pc.actions, m.pc.attempt + 1) else Aborted
    ensures m.pc.Executing? ==>
              Step(c, m, ExecutePlan(env, Completes)).pc
              == if m.pc.attempt < 3 then Executing(m.pc.plan, m.pc.attempt + 1) else Aborted
    ensures m.pc.Verifying? ==>
              Step(c, m, Verify(measurement, Fails)).pc
              == if m.pc.attempt < 3 then Verifying(m.pc.attempt + 1) else Aborted
    ensures m.pc.CheckingPolicy? ==> Step(c, m, CheckPolicy(false)).pc == Aborted
    ensures m.pc.RequestingApproval? ==> Step(c, m, RequestApproval(Fails)) == m
    ensures m.pc.Writing? ==> Step(c, m, WriteStatus(Fails)) == m
  {
  }

  /** A lost report keeps what was committed: the tables are those of the reported attempt, and the attempt counts as
      failed. */
  lemma LostReportsKeepCommits(c: Config, m: Machine, output: LlmOutput, component: string, parsing: Parsing,
                               env: Executor.Env, measurement: Measurement)
    ensures m.pc.Diagnosing? ==>
              var lost := Step(c, m, Diagnose(CrashesAfterCommit(output, component, parsing)));
              && lost.world == Step(c, m, Diagnose(Ends(output, component, parsing, true))).world
              && lost.pc == Step(c, m, Diagnose(Crashes)).pc
    ensures m.pc.RequestingApproval? ==>
              var lost := Step(c, m, RequestApproval(CommitsThenCrashes));
              lost.world == Step(c, m, RequestApproval(Completes)).world && lost.pc == m.pc
    ensures m.pc.Writing? ==>
              var lost := Step(c, m, WriteStatus(CommitsThenCrashes));
              lost.world == Step(c, m, WriteStatus(Completes)).world && lost.pc == m.pc
    ensures m.pc.Executing? ==>
              var lost := Step(c, m, ExecutePlan(env, CommitsThenCrashes));
              && lost.world == Step(c, m, ExecutePlan(env, Completes)).world
              && lost.pc == Step(c, m, ExecutePlan(env, Fails)).pc
    ensures m.pc.Verifying? ==>
              var lost := Step(c, m, Verify(measurement, CommitsThenCrashes));
              && lost.world == Step(c, m, Verify(measurement, Completes)).world && lost.measured == m.measured
              && lost.pc == Step(c, m, Verify(measurement, Fails)).pc
  {
  }

  /** Every row of a workflow tells where it was logged, and the status of a status row is the one written. */
  lemma RowsTellPlaces(c: Config, m: Machine, i: Input)
    requires !i.AlertCorrelated?
    ensures var (t, t') := (m.world.timeline, Step(c, m, i).world.timeline);
            |t'| > |t| ==>
              && t' == t + [t'[|t|]]
              && (t'[|t|] == INVESTIGATION_STARTED <==> m.pc.Investigating?)
              && (t'[|t|] == RCA_COMPLETED <==> m.pc.Diagnosing?)
              && (t'[|t|] == APPROVAL_REQUESTED <==> m.pc.RequestingApproval?)
              && (t'[|t|] == REMEDIATION_EXECUTED <==> m.pc.Executing?)
              && (t'[|t|] == VERIFICATION_COMPLETED <==> m.pc.Verifying?)
              && (t'[|t|].STATUS_CHANGED? <==> m.pc.Writing?)
              && (m.pc.Writing? ==> t'[|t|].newStatus == m.pc.status)
  {
  }

  /** And no transaction goes without its row: a commit that is reported has logged it. */
  lemma CommitsLeaveRows(c: Config, m: Machine, i: Input)
    requires Succeeds(c, m, i)
    ensures var (t, t') := (m.world.timeline, Step(c, m, i).world.timeline);
            && (m.pc.Investigating? || m.pc.RequestingApproval? || m.pc.Writing? ==> |t'| > |t|)
            && (m.pc.Diagnosing? && Step(c, m, i).pc.Planning? ==> |t'| > |t|)
            && (m.pc.Executing? && Step(c, m, i).pc.Writing? ==> |t'| > |t|)
            && (m.pc.Verifying? && Step(c, m, i).pc.Writing? ==> |t'| > |t|)
            && (m.pc.RequestingApproval? ==> m.pc.plan.planId in Step(c, m, i).world.store.plans)
  {
  }
}
