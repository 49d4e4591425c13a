/** Whole runs of the workflow: which signal decides, what becomes of a plan that the policy allows, and when
    a run has ended. */
module Runs {
  import opened Schema
  import opened Remediation
  import opened Workflow
  import Executor
  import Outcomes

  // ---------------------------------------------------------------- joining runs

  lemma {:induction false} ExecuteConcat(c: Config, m: Machine, a: seq<Input>, b: seq<Input>)
    ensures Execute(c, m, a + b) == Execute(c, Execute(c, m, a), b)
  {
    if b == [] {
      assert a + b == a;
    } else {
      ExecuteConcat(c, m, a, b[..|b| - 1]);
      assert (a + b)[..|a + b| - 1] == a + b[..|b| - 1];
    }
  }

  lemma ExecuteFirst(c: Config, m: Machine, inputs: seq<Input>)
    requires inputs != []
    ensures Execute(c, m, inputs) == Execute(c, Step(c, m, inputs[0]), inputs[1..])
  {
    assert inputs == [inputs[0]] + inputs[1..];
    ExecuteConcat(c, m, [inputs[0]], inputs[1..]);
    assert [inputs[0]][..0] == [];
  }

  lemma ExecuteTwo(c: Config, m: Machine, i: Input, j: Input)
    ensures Execute(c, m, [i, j]) == Step(c, Step(c, m, i), j)
  {
    assert [i, j][..1] == [i] && [i][..0] == [];
    assert Execute(c, m, [i]) == Step(c, m, i);
  }

  lemma ExecuteThree(c: Config, m: Machine, i: Input, j: Input, k: Input)
    ensures Execute(c, m, [i, j, k]) == Step(c, Step(c, Step(c, m, i), j), k)
  {
    ExecuteFirst(c, m, [i, j, k]);
    assert [i, j, k][1..] == [j, k];
    ExecuteTwo(c, Step(c, m, i), j, k);
  }

  // ---------------------------------------------------------------- signals

  function LastSignal(inputs: seq<Input>): (r: Option<Decision>)
    ensures r.Some? ==> Signal(r.value) in inputs
    ensures r.None? ==> forall i :: i in inputs ==> !i.Signal?
  {
    if inputs == [] then None
    else if inputs[|inputs| - 1].Signal? then Some(inputs[|inputs| - 1].decision)
    else LastSignal(inputs[..|inputs| - 1])
  }

  /** A later signal replaces an earlier one, wherever the run stands. */
  lemma {:induction false} DecisionIsLastSignal(c: Config, w: World, inputs: seq<Input>)
    ensures var m := Execute(c, Start(w), inputs);
            !Finished(m.pc) ==> m.decision == LastSignal(inputs)
  {
    if inputs != [] { DecisionIsLastSignal(c, w, inputs[..|inputs| - 1]); }
  }

  /** At its k-th input the run consumed a decision. */
  ghost predicate ConsumedAt(c: Config, w: World, inputs: seq<Input>, k: nat) {
    && k < |inputs| && inputs[k] == WaitReturns
    && Execute(c, Start(w), inputs[..k]).pc.Waiting?
    && LastSignal(inputs[..k]).Some?
  }

  /** The consumed decision is the last signal before the wait returned, wherever that signal stands relative
      to the request. */
  lemma {:induction false} ConsumedIsLastSignal(c: Config, w: World, inputs: seq<Input>)
    ensures var m := Execute(c, Start(w), inputs);
            m.consumed.Some? ==> exists k: nat :: ConsumedAt(c, w, inputs, k) && m.consumed == LastSignal(inputs[..k])
  {
    if inputs != [] && Execute(c, Start(w), inputs).consumed.Some? {
      var init := inputs[..|inputs| - 1];
      var m := Execute(c, Start(w), init);
      ConsumedIsLastSignal(c, w, init);
      DecisionIsLastSignal(c, w, init);
      if m.consumed == Execute(c, Start(w), inputs).consumed {
        var k: nat :| ConsumedAt(c, w, init, k) && m.consumed == LastSignal(init[..k]);
        assert init[..k] == inputs[..k];
        assert ConsumedAt(c, w, inputs, k);
      } else {
        assert ConsumedAt(c, w, inputs, |init|);
      }
    }
  }

  /** A wait that returns leads to the execution if and only if the last signal so far was an approval. */
  lemma GoesOnExactlyWhenApproved(c: Config, w: World, inputs: seq<Input>)
    requires Execute(c, Start(w), inputs).pc.Waiting?
    ensures var m, m' := Execute(c, Start(w), inputs), Execute(c, Start(w), inputs + [WaitReturns]);
            m'.pc == Writing(REMEDIATING, Executing(m.pc.plan, 1))
            <==> LastSignal(inputs).Some? && Approved(LastSignal(inputs).value)
  {
    DecisionIsLastSignal(c, w, inputs);
    assert (inputs + [WaitReturns])[..|inputs|] == inputs;
  }

  /** A wait can raise if and only if no signal has come; the run then ends with an error, and the incident stays
      AWAITING_APPROVAL, even if signals follow. */
  lemma RaisedWaitLeavesWaiting(c: Config, w: World, inputs: seq<Input>, rest: seq<Input>)
    requires Initial(c, w) && Execute(c, Start(w), inputs).pc.Waiting?
    ensures var m, m' := Execute(c, Start(w), inputs), Execute(c, Start(w), inputs + [WaitRaises]);
            && (m'.pc.Aborted? <==> LastSignal(inputs).None?)
            && (!m'.pc.Aborted? ==> m' == m)
            && m'.world == m.world && m'.world.status == AWAITING_APPROVAL
    ensures LastSignal(inputs).None? ==>
              Execute(c, Start(w), inputs + [WaitRaises] + rest).world.status == AWAITING_APPROVAL
  {
    DecisionIsLastSignal(c, w, inputs);
    Outcomes.RunIsSound(c, w, inputs);
    assert (inputs + [WaitRaises])[..|inputs|] == inputs;
    if LastSignal(inputs).None? {
      ExecuteConcat(c, Start(w), inputs + [WaitRaises], rest);
      AbortedStays(c, Execute(c, Start(w), inputs + [WaitRaises]), rest);
    }
  }

  lemma {:induction false} AbortedStays(c: Config, m: Machine, rest: seq<Input>)
    requires m.pc.Aborted?
    ensures Execute(c, m, rest).pc.Aborted? && Execute(c, m, rest).world.status == m.world.status
  {
    if rest != [] { AbortedStays(c, m, rest[..|rest| - 1]); }
  }

  /** An execution that needs approval was preceded by a wait whose last signal approved. */
  lemma ExecutedAfterApproval(c: Config, w: World, inputs: seq<Input>)
    requires Initial(c, w) && Execute(c, Start(w), inputs).pc.Executing?
    requires EvaluatePolicy(c.settings, Execute(c, Start(w), inputs).pc.plan).requiresHumanApproval
    ensures exists k: nat :: ConsumedAt(c, w, inputs, k) && Approved(LastSignal(inputs[..k]).value)
  {
    RunIsSafe(c, w, inputs);
    ConsumedIsLastSignal(c, w, inputs);
  }

  /** A decision that is there before the request is enough: without another signal the run goes on to execute
      if and only if it is an approval. */
  lemma DecidesBeforeRequest(c: Config, m: Machine)
    requires m.pc.RequestingApproval? && m.pc.plan.planId !in m.world.store.plans
    ensures Execute(c, m, [RequestApproval(Completes), WriteStatus(Completes), WaitReturns]).pc
            == Writing(REMEDIATING, Executing(m.pc.plan, 1))
            <==> m.decision.Some? && Approved(m.decision.value)
  {
    ExecuteThree(c, m, RequestApproval(Completes), WriteStatus(Completes), WaitReturns);
  }

  /** The plan for a sole proposal. */
  function PlanFor(c: Config, planId: Id, a: Action, component: string): Plan {
    Plan(planId, a, c.namespace, component, if a == SCALE_DEPLOYMENT then Some(Int(3)) else None,
         PlannedRisk(a), a == ROLLBACK_DEPLOYMENT)
  }

  lemma DiagnosesAndPlans(
    c: Config, m: Machine, output: LlmOutput, action: string, component: string, reason: string, planId: Id)
    requires action in ALLOWED_ACTIONS && m.pc == Diagnosing(1) && planId !in m.world.store.plans
    requires RunRca(c.upper, output, component, c.namespace, Fine)
             == Rca([Proposal(action, component, c.namespace, reason)])
    ensures Execute(c, m, [Diagnose(Ends(output, component, Fine, true)), MakePlan(planId, true)])
            == m.(pc := CheckingPolicy(PlanFor(c, planId, ParseAction(action).value, component)),
                  world := Diagnosed(m.world))
  {
    PlanOfProposal(planId, action, component, c.namespace, reason, c.rootCause, c.service, c.namespace);
    ExecuteTwo(c, m, Diagnose(Ends(output, component, Fine, true)), MakePlan(planId, true));
  }

  function ToPolicy(output: LlmOutput, component: string, planId: Id, signal: Option<Decision>): seq<Input> {
    (if signal.Some? then [StartInvestigation(true), Signal(signal.value)] else [StartInvestigation(true)])
    + [Diagnose(Ends(output, component, Fine, true)), MakePlan(planId, true)]
  }

  /** From the start of a run to its plan, with a signal before the diagnosis is stored if there is one. `output`
      recommends one action. */
  lemma ReachesPolicy(c: Config, w: World, output: LlmOutput, action: string, component: string, reason: string,
                      planId: Id, signal: Option<Decision>)
    requires action in ALLOWED_ACTIONS && planId !in w.store.plans
    requires RunRca(c.upper, output, component, c.namespace, Fine)
             == Rca([Proposal(action, component, c.namespace, reason)])
    ensures Execute(c, Start(w), ToPolicy(output, component, planId, signal))
            == Machine(CheckingPolicy(PlanFor(c, planId, ParseAction(action).value, component)), signal,
                       Diagnosed(Started(w)), None, None, None)
  {
    var start := if signal.Some? then [StartInvestigation(true), Signal(signal.value)] else [StartInvestigation(true)];
    var m := Machine(Diagnosing(1), signal, Started(w), None, None, None);
    assert Execute(c, Start(w), start) == m by {
      if signal.Some? {
        ExecuteTwo(c, Start(w), StartInvestigation(true), Signal(signal.value));
      } else {
        assert start[..0] == [];
      }
    }
    ExecuteConcat(c, Start(w), start, [Diagnose(Ends(output, component, Fine, true)), MakePlan(planId, true)]);
    DiagnosesAndPlans(c, m, output, action, component, reason, planId);
  }

  /** An approval that arrives while the model is still being asked executes the rollback that is proposed
      afterwards, with no signal after the request. */
  lemma EarlyApprovalCounts(c: Config, w: World, component: string, planId: Id, d: Decision)
    requires c.namespace in c.settings.allowedNamespaces && component in c.settings.allowedDeployments
    requires planId !in w.store.plans && Approved(d)
    ensures var inputs := ToPolicy(Response([]), component, planId, Some(d))
                          + [CheckPolicy(true), RequestApproval(Completes), WriteStatus(Completes), WaitReturns];
            var m := Execute(c, Start(w), inputs);
            && m.pc.Writing? && m.pc.next.Executing? && m.pc.next.plan.action == ROLLBACK_DEPLOYMENT
            && m.consumed == Some(d) && inputs[1] == Signal(d)
            && forall k :: 2 <= k < |inputs| ==> !inputs[k].Signal?
  {
    var reason := "Restore previous stable deployment revision";
    assert RunRca(c.upper, Response([]), component, c.namespace, Fine)
           == Rca([Proposal("ROLLBACK_DEPLOYMENT", component, c.namespace, reason)]);
    ReachesPolicy(c, w, Response([]), "ROLLBACK_DEPLOYMENT", component, reason, planId, Some(d));
    var before := ToPolicy(Response([]), component, planId, Some(d));
    ExecuteConcat(c, Start(w), before,
                  [CheckPolicy(true), RequestApproval(Completes), WriteStatus(Completes), WaitReturns]);
    DecidedPlanExecutes(c, Execute(c, Start(w), before), d);
  }

  /** A run gets stuck: its approval request commits and is not reported. */
  lemma RequestGetsStuck(c: Config, w: World, component: string, planId: Id)
    requires c.namespace in c.settings.allowedNamespaces && component in c.settings.allowedDeployments
    requires planId !in w.store.plans
    ensures var inputs := ToPolicy(Response([]), component, planId, None)
                          + [CheckPolicy(true), RequestApproval(CommitsThenCrashes)];
            var m := Execute(c, Start(w), inputs);
            m.pc.RequestingApproval? && m.pc.plan.planId in m.world.store.plans
  {
    var reason := "Restore previous stable deployment revision";
    assert RunRca(c.upper, Response([]), component, c.namespace, Fine)
           == Rca([Proposal("ROLLBACK_DEPLOYMENT", component, c.namespace, reason)]);
    ReachesPolicy(c, w, Response([]), "ROLLBACK_DEPLOYMENT", component, reason, planId, None);
    var before := ToPolicy(Response([]), component, planId, None);
    ExecuteConcat(c, Start(w), before, [CheckPolicy(true), RequestApproval(CommitsThenCrashes)]);
    ExecuteTwo(c, Execute(c, Start(w), before), CheckPolicy(true), RequestApproval(CommitsThenCrashes));
  }

  lemma DecidedPlanExecutes(c: Config, m: Machine, d: Decision)
    requires m.pc.CheckingPolicy? && m.pc.plan.planId !in m.world.store.plans && m.decision == Some(d) && Approved(d)
    requires EvaluatePolicy(c.settings, m.pc.plan).requiresHumanApproval
    ensures var inputs := [CheckPolicy(true), RequestApproval(Completes), WriteStatus(Completes), WaitReturns];
            var m' := Execute(c, m, inputs);
            m'.pc == Writing(REMEDIATING, Executing(m.pc.plan, 1)) && m'.consumed == Some(d)
  {
    var inputs := [CheckPolicy(true), RequestApproval(Completes), WriteStatus(Completes), WaitReturns];
    ExecuteFirst(c, m, inputs);
    assert inputs[1..] == [RequestApproval(Completes), WriteStatus(Completes), WaitReturns];
    ExecuteThree(c, Step(c, m, CheckPolicy(true)), RequestApproval(Completes), WriteStatus(Completes), WaitReturns);
  }

  // ---------------------------------------------------------------- what becomes of a diagnosis

  /** A successful planning step resolves the incident with nothing done if and only if the first of the recommended
      actions is not named exactly as the planner expects. */
  lemma ResolvesUndoneExactlyWhenMisspelt(c: Config, m: Machine, planId: Id)
    requires Safe(c, m) && m.pc.Planning? && m.pc.actions != [] && planId !in m.world.store.plans
    ensures Execute(c, m, [MakePlan(planId, true), WriteStatus(Completes)]).pc == Returned(Resolved(true))
            <==> forall name :: name in ALLOWED_ACTIONS ==> GetOr(m.pc.actions[0], "action", Str("")) != Str(name)
  {
    assert m.pc.actions[0] in m.pc.actions;
    NoPlanExactlyWhenMisspelt(c.upper, planId, m.pc.actions, c.rootCause, c.service, c.namespace);
    ExecuteTwo(c, m, MakePlan(planId, true), WriteStatus(Completes));
  }

  /** And such answers come through: a run of an answer that asks to "restart_pod" is resolved with nothing done. */
  lemma LowerCaseResolvesUndone(c: Config, w: World, component: string, planId: Id)
    requires c.upper("restart_pod") == "RESTART_POD" && planId !in w.store.plans
    ensures var output := Response([("recommended_actions", List([Obj([("action", Str("restart_pod"))])]))]);
            var m := Execute(c, Start(w), ToPolicy(output, component, planId, None) + [WriteStatus(Completes)]);
            m.pc == Returned(Resolved(true)) && m.world.status == RESOLVED && m.world.store == w.store
  {
    var action := [("action", Str("restart_pod"))];
    var output := Response([("recommended_actions", List([Obj(action)]))]);
    LowerCaseAnswer(c, component, action);
    var m := Step(c, Start(w), StartInvestigation(true));
    ExecuteFirst(c, Start(w), ToPolicy(output, component, planId, None) + [WriteStatus(Completes)]);
    assert (ToPolicy(output, component, planId, None) + [WriteStatus(Completes)])[1..]
           == [Diagnose(Ends(output, component, Fine, true)), MakePlan(planId, true), WriteStatus(Completes)];
    ExecuteThree(c, m, Diagnose(Ends(output, component, Fine, true)), MakePlan(planId, true), WriteStatus(Completes));
    NoPlanExactlyWhenMisspelt(c.upper, planId, [action], c.rootCause, c.service, c.namespace);
  }

  lemma LowerCaseAnswer(c: Config, component: string, action: Fields)
    requires c.upper("restart_pod") == "RESTART_POD" && action == [("action", Str("restart_pod"))]
    ensures var output := Response([("recommended_actions", List([Obj(action)]))]);
            RunRca(c.upper, output, component, c.namespace, Fine) == Rca([action])
    ensures Permitted(c.upper, action) && GetOr(action, "action", Str("")) == Str("restart_pod")
    ensures "restart_pod" !in ALLOWED_ACTIONS
  {
    assert "restart_pod"[0] == 'r';
    var fields := [("recommended_actions", List([Obj(action)]))];
    assert RawActions(fields) == List([Obj(action)]);
    assert Strip(c.upper, [Obj(action)][..0], component, c.namespace) == [];
    assert Strip(c.upper, [Obj(action)], component, c.namespace) == [action];
  }

  // ---------------------------------------------------------------- what becomes of an allowed plan

  ghost predicate KeysHold(w: World) {
    forall e :: e in w.store.executions ==> w.store.executions[e].planId in w.store.plans
  }

  lemma StepKeepsKeys(c: Config, m: Machine, i: Input)
    requires KeysHold(m.world)
    ensures KeysHold(Step(c, m, i).world)
  {
  }

  /** In every run the foreign key holds. */
  lemma {:induction false} RunKeepsKeys(c: Config, w: World, inputs: seq<Input>)
    requires Initial(c, w)
    ensures KeysHold(Execute(c, Start(w), inputs).world)
  {
    if inputs != [] {
      RunKeepsKeys(c, w, inputs[..|inputs| - 1]);
      StepKeepsKeys(c, Execute(c, Start(w), inputs[..|inputs| - 1]), inputs[|inputs| - 1]);
    }
  }

  /** The run is past planning, and the plan, which the policy allows, can only be this one. */
  predicate Settled(c: Config, m: Machine, plan: Plan) {
    && EvaluatePolicy(c.settings, plan).allowed
    && !Target(m.pc).Investigating? && !Target(m.pc).Diagnosing? && !Target(m.pc).Planning?
    && (Target(m.pc).CheckingPolicy? ==> m.pc == CheckingPolicy(plan))
    && (m.plan.Some? ==> m.plan.value == plan)
    && (m.plan.None? ==> m.pc.CheckingPolicy? || m.pc.Aborted?)
  }

  lemma StepKeepsPlan(c: Config, m: Machine, i: Input, plan: Plan)
    requires Safe(c, m) && Settled(c, m, plan)
    ensures Settled(c, Step(c, m, i), plan)
  {
  }

  lemma {:induction false} RunKeepsPlan(c: Config, m: Machine, rest: seq<Input>, plan: Plan)
    requires Safe(c, m) && Settled(c, m, plan)
    ensures Safe(c, Execute(c, m, rest)) && Settled(c, Execute(c, m, rest), plan)
  {
    if rest != [] {
      RunKeepsPlan(c, m, rest[..|rest| - 1], plan);
      StepKeepsPlan(c, Execute(c, m, rest[..|rest| - 1]), rest[|rest| - 1], plan);
      StepIsSafe(c, Execute(c, m, rest[..|rest| - 1]), rest[|rest| - 1]);
    }
  }

  /** The continuation returns, with the plan carried out. */
  ghost predicate Accomplishes(c: Config, m: Machine, rest: seq<Input>) {
    Execute(c, m, rest).pc.Returned? && Execute(c, m, rest).world.store.cluster != []
  }

  const GOOD := Executor.Env(false, Executor.Acts, Executor.Commits, Executor.Commits)

  function Approval(): seq<Input> {
    [CheckPolicy(true), RequestApproval(Completes), WriteStatus(Completes)] +
    [Signal(Decision(Some("approved"))), WaitReturns, WriteStatus(Completes)] +
    [ExecutePlan(GOOD, Completes), WriteStatus(Completes), Verify(NotMeasured, Completes)] +
    [WriteStatus(Completes)]
  }

  lemma ApprovalAccomplishes(c: Config, m: Machine)
    requires Safe(c, m) && m.pc.CheckingPolicy? && KeysHold(m.world)
    requires m.pc.plan.planId !in m.world.store.plans && c.executionId !in m.world.store.executions
    requires EvaluatePolicy(c.settings, m.pc.plan).allowed
    requires EvaluatePolicy(c.settings, m.pc.plan).requiresHumanApproval
    ensures Accomplishes(c, m, Approval())
    ensures Execute(c, m, Approval()).pc == Returned(Resolved(false))
  {
    var plan, d, done := m.pc.plan, Decision(Some("approved")), WriteStatus(Completes);
    PolicyExact(c.settings, plan);
    var m0 := Step(c, m, CheckPolicy(true));
    ApprovedPlanResolves(c, m0, d);
    var m1 := Step(c, Step(c, m0, RequestApproval(Completes)), done);
    var m2 := Step(c, Step(c, Step(c, m1, Signal(d)), WaitReturns), done);
    var m3 := Step(c, Step(c, Step(c, m2, ExecutePlan(GOOD, Completes)), done), Verify(NotMeasured, Completes));
    var a, b := [CheckPolicy(true), RequestApproval(Completes), done], [Signal(d), WaitReturns, done];
    var e := [ExecutePlan(GOOD, Completes), done, Verify(NotMeasured, Completes)];
    ExecuteThree(c, m, CheckPolicy(true), RequestApproval(Completes), done);
    ExecuteThree(c, m1, Signal(d), WaitReturns, done);
    ExecuteThree(c, m2, ExecutePlan(GOOD, Completes), done, Verify(NotMeasured, Completes));
    ExecuteConcat(c, m, a, b);
    ExecuteConcat(c, m, a + b, e);
    ExecuteConcat(c, m, a + b + e, [done]);
    assert [done][..0] == [];
  }

  ghost predicate CanReturn(c: Config, m: Machine) {
    exists rest :: Execute(c, m, rest).pc.Returned?
  }

  /** A run whose plan the policy allows can still return if and only if the plan needs human approval, and then
      it can also carry the plan out. A run with an automatic plan can do neither. */
  lemma ReturnsExactlyWhenApprovalNeeded(c: Config, w: World, inputs: seq<Input>)
    requires Initial(c, w) && Execute(c, Start(w), inputs).pc.CheckingPolicy?
    requires EvaluatePolicy(c.settings, Execute(c, Start(w), inputs).pc.plan).allowed
    ensures var m := Execute(c, Start(w), inputs);
            && (CanReturn(c, m) <==> EvaluatePolicy(c.settings, m.pc.plan).requiresHumanApproval)
            && ((exists rest :: Accomplishes(c, m, rest))
                <==> EvaluatePolicy(c.settings, m.pc.plan).requiresHumanApproval)
  {
    var m := Execute(c, Start(w), inputs);
    RunIsSafe(c, w, inputs);
    RunKeepsKeys(c, w, inputs);
    AutomaticRemediationNeverReturns(c, w, inputs);
    if EvaluatePolicy(c.settings, m.pc.plan).requiresHumanApproval {
      ApprovalAccomplishes(c, m);
    } else {
      forall rest ensures !Execute(c, m, rest).pc.Returned? {
        ExecuteConcat(c, Start(w), inputs, rest);
        AutomaticRemediationNeverReturns(c, w, inputs + rest);
        RunKeepsPlan(c, m, rest, m.pc.plan);
      }
    }
  }

  /** And such plans are made: an answer that recommends a restart leads to three restarts, whatever happens to
      the calls as long as they get past their check, and then the run has failed with nothing recorded. */
  lemma AutomaticRestartActsThreeTimes(c: Config, w: World, component: string, planId: Id,
                                       e1: Executor.Env, e2: Executor.Env, e3: Executor.Env)
    requires Initial(c, w) && planId !in w.store.plans
    requires c.namespace in c.settings.allowedNamespaces && component in c.settings.allowedDeployments
    requires !e1.checkRaises && !e2.checkRaises && !e3.checkRaises
    ensures var restart := Proposal("RESTART_POD", component, c.namespace, "");
            var output := Response([("recommended_actions", List([Obj(restart)]))]);
            var inputs := ToPolicy(output, component, planId, None) + [CheckPolicy(true), WriteStatus(Completes)]
                          + [ExecutePlan(e1, Completes), ExecutePlan(e2, Completes), ExecutePlan(e3, Completes)];
            var m, a := Execute(c, Start(w), inputs), RestartPods(component, c.namespace);
            && NeedsNoApproval(c, m) && m.pc == Aborted && m.world.status == REMEDIATING
            && m.world.store == w.store.(cluster := [a, a, a])
  {
    var restart := Proposal("RESTART_POD", component, c.namespace, "");
    var output := Response([("recommended_actions", List([Obj(restart)]))]);
    RestartAnswer(c, component, restart);
    ReachesPolicy(c, w, output, "RESTART_POD", component, "", planId, None);
    var before := ToPolicy(output, component, planId, None);
    var m := Execute(c, Start(w), before);
    AutomaticPlanExecutes(c, m);
    ExecuteConcat(c, Start(w), before, [CheckPolicy(true), WriteStatus(Completes)]);
    ThreeActs(c, Execute(c, m, [CheckPolicy(true), WriteStatus(Completes)]), e1, e2, e3);
    assert w.store.cluster == [];
    ExecuteConcat(c, Start(w), before + [CheckPolicy(true), WriteStatus(Completes)],
                  [ExecutePlan(e1, Completes), ExecutePlan(e2, Completes), ExecutePlan(e3, Completes)]);
  }

  lemma AutomaticPlanExecutes(c: Config, m: Machine)
    requires m.pc.CheckingPolicy? && EvaluatePolicy(c.settings, m.pc.plan).autoApproved
    ensures var m' := Execute(c, m, [CheckPolicy(true), WriteStatus(Completes)]);
            && m'.pc == Executing(m.pc.plan, 1) && m'.plan == Some(m.pc.plan)
            && m'.world.store == m.world.store && m'.world.status == REMEDIATING
  {
    ExecuteTwo(c, m, CheckPolicy(true), WriteStatus(Completes));
  }

  lemma RestartAnswer(c: Config, component: string, restart: Fields)
    requires restart == Proposal("RESTART_POD", component, c.namespace, "")
    ensures var output := Response([("recommended_actions", List([Obj(restart)]))]);
            RunRca(c.upper, output, component, c.namespace, Fine) == Rca([restart])
  {
    var fields := [("recommended_actions", List([Obj(restart)]))];
    ProposalIsPermitted(c.upper, "RESTART_POD", component, c.namespace, "");
    assert RawActions(fields) == List([Obj(restart)]);
    assert Strip(c.upper, [Obj(restart)][..0], component, c.namespace) == [];
    assert Strip(c.upper, [Obj(restart)], component, c.namespace) == [restart];
  }

  /** Three attempts of an execution whose plan has no row. */
  lemma ThreeActs(c: Config, m: Machine, e1: Executor.Env, e2: Executor.Env, e3: Executor.Env)
    requires m.pc.Executing? && m.pc.attempt == 1 && Dispatch(m.pc.plan).Some?
    requires m.pc.plan.planId !in m.world.store.plans && c.executionId !in m.world.store.executions
    requires !e1.checkRaises && !e2.checkRaises && !e3.checkRaises
    ensures var a := Dispatch(m.pc.plan).value;
            Execute(c, m, [ExecutePlan(e1, Completes), ExecutePlan(e2, Completes), ExecutePlan(e3, Completes)])
            == m.(pc := Aborted,
                  world := m.world.(store := m.world.store.(cluster := m.world.store.cluster + [a, a, a])))
  {
    var plan, store := m.pc.plan, m.world.store;
    var a := Dispatch(plan).value;
    var m1 := Step(c, m, ExecutePlan(e1, Completes));
    var m2 := Step(c, m1, ExecutePlan(e2, Completes));
    UnrecordedAct(store, plan, c.executionId, e1);
    UnrecordedAct(m1.world.store, plan, c.executionId, e2);
    UnrecordedAct(m2.world.store, plan, c.executionId, e3);
    assert store.cluster + [a] + [a] + [a] == store.cluster + [a, a, a];
    ExecuteThree(c, m, ExecutePlan(e1, Completes), ExecutePlan(e2, Completes), ExecutePlan(e3, Completes));
  }

  lemma UnrecordedAct(s: Executor.Store, plan: Plan, executionId: Id, env: Executor.Env)
    requires plan.planId !in s.plans && executionId !in s.executions && Dispatch(plan).Some? && !env.checkRaises
    ensures var (s', r) := Executor.Call(s, plan, executionId, env);
            s' == s.(cluster := s.cluster + [Dispatch(plan).value]) && (r.Raises? || r.Crashes?)
  {
  }

  // ---------------------------------------------------------------- the end of a run

  /** The number of inputs that were the success the run was waiting for. */
  ghost function Successes(c: Config, m: Machine, inputs: seq<Input>): nat {
    if inputs == [] then 0
    else
      var before := Execute(c, m, inputs[..|inputs| - 1]);
      Successes(c, m, inputs[..|inputs| - 1]) + if Succeeds(c, before, inputs[|inputs| - 1]) then 1 else 0
  }

  lemma {:induction false} SuccessesAreMoves(c: Config, w: World, inputs: seq<Input>)
    requires Initial(c, w)
    ensures Successes(c, Start(w), inputs) <= Moves(c, Start(w), inputs)
  {
    if inputs != [] {
      var init, last := inputs[..|inputs| - 1], inputs[|inputs| - 1];
      SuccessesAreMoves(c, w, init);
      RunIsSafe(c, w, init);
      if Succeeds(c, Execute(c, Start(w), init), last) {
        SuccessMoves(c, Execute(c, Start(w), init), last);
      }
    }
  }

  /** A run ends: by its 26th success at the latest it has returned or aborted, whatever fails in between. */
  lemma EndsAfterSuccesses(c: Config, w: World, inputs: seq<Input>)
    requires Initial(c, w) && Successes(c, Start(w), inputs) >= 26
    ensures Finished(Execute(c, Start(w), inputs).pc)
  {
    SuccessesAreMoves(c, w, inputs);
    TerminationTheorem(c, w, inputs);
  }
}
