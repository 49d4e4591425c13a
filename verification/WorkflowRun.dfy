/** The workflow object as the source writes it: a run method that calls activities in order, each with its
    own retries, while signals set a field. Whatever the environment does is an arbitrary choice. Every
    run of this object is a run of the state machine, so the theorems about the machine hold of it. */
module WorkflowRun {
  import opened Schema
  import opened Remediation
  import Executor
  import opened Workflow
  import Runs

  /** NeverEnds: the approval request is retried for ever. */
  datatype RunResult = Completed(outcome: Outcome) | WorkflowFailed | NeverEnds

  class IncidentWorkflow {
    const c: Config
    const executor: Executor.K8sExecutor
    var approvalDecision: Option<Decision>
    var status: IncidentStatus
    var timeline: seq<TimelineKind>

    /** The inputs so far and the machine that has taken them. */
    ghost const start: World
    ghost var trace: seq<Input>
    ghost var machine: Machine

    ghost predicate Valid()
      reads this, executor
    {
      && machine == Execute(c, Start(start), trace)
      && machine.decision == approvalDecision
      && machine.world == World(status, timeline, executor.Contents())
    }

    constructor (c: Config, w: World)
      ensures Valid() && fresh(executor)
      ensures this.c == c && start == w && trace == [] && machine == Start(w)
    {
      this.c := c;
      executor := new Executor.K8sExecutor(w.store);
      approvalDecision, status, timeline := None, w.status, w.timeline;
      start, trace, machine := w, [], Start(w);
    }

    ghost method Take(i: Input)
      requires machine == Execute(c, Start(start), trace)
      modifies this`trace, this`machine
      ensures machine == Step(c, old(machine), i) && machine == Execute(c, Start(start), trace)
    {
      machine := Step(c, machine, i);
      trace := trace + [i];
      assert trace[..|trace| - 1] == old(trace);
    }

    method ApprovalSignal(decision: Decision)
      requires Valid() && !Finished(machine.pc)
      modifies this
      ensures Valid() && machine == old(machine).(decision := Some(decision))
    {
      approvalDecision := Some(decision);
      Take(Signal(decision));
    }

    /** While the workflow waits for an activity, signals arrive and the correlator attaches alerts. */
    method Meanwhile()
      requires Valid() && !Finished(machine.pc)
      modifies this
      ensures Valid() && machine.pc == old(machine.pc) && machine.world.store == old(machine.world.store)
    {
      var n: nat := *;
      while n > 0
        invariant Valid() && machine.pc == old(machine.pc) && machine.world.store == old(machine.world.store)
      {
        if * {
          var decision: Decision := *;
          ApprovalSignal(decision);
        } else {
          var alertId: Id := *;
          timeline := timeline + [ALERT_CORRELATED(alertId)];
          Take(AlertCorrelated(alertId));
        }
        n := n - 1;
      }
    }

    /** The first transaction of an attempt. */
    method StartAttempt(ghost attempt: nat) returns (committed: bool)
      requires Valid() && machine.pc == Investigating(attempt)
      modifies this
      ensures Valid()
      ensures machine.pc == if committed then Diagnosing(attempt) else AfterFailure(attempt, Investigating(attempt + 1))
    {
      committed := *;
      if committed {
        status := INVESTIGATING;
        timeline := timeline + [INVESTIGATION_STARTED];
      }
      Take(StartInvestigation(committed));
    }

    /** The model's answer and the second transaction. */
    method DiagnoseAttempt(ghost attempt: nat) returns (reported: bool, actions: Option<seq<Fields>>)
      requires Valid() && machine.pc == Diagnosing(attempt)
      modifies this
      ensures Valid()
      ensures !reported ==> machine.pc == AfterFailure(attempt, Investigating(attempt + 1))
      ensures reported && actions.Some? ==> machine.pc == Planning(actions.value, 1)
      ensures reported && actions.None? ==> machine.pc == Writing(FAILED, Returned(InvestigationFailed))
    {
      if * {
        Take(Diagnose(Crashes));
        return false, None;
      }
      var output: LlmOutput := *;
      var component: string := *;
      var parsing: Parsing := *;
      var persists: bool := *;
      reported := *;
      var rca := RunRca(c.upper, output, component, c.namespace, parsing);
      if rca.Rca? && (persists || !reported) {
        status := DIAGNOSED;
        timeline := timeline + [RCA_COMPLETED];
      }
      if !reported {
        Take(Diagnose(CrashesAfterCommit(output, component, parsing)));
        return false, None;
      }
      Take(Diagnose(Ends(output, component, parsing, persists)));
      return true, if rca.Rca? && persists then Some(rca.actions) else None;
    }

    /** At most three attempts. None: the diagnosis failed or no attempt reported. */
    method InvestigateActivity() returns (reported: bool, actions: Option<seq<Fields>>)
      requires Valid() && machine.pc == Investigating(1)
      modifies this
      ensures Valid()
      ensures !reported ==> machine.pc == Aborted
      ensures reported && actions.Some? ==> machine.pc == Planning(actions.value, 1)
      ensures reported && actions.None? ==> machine.pc == Writing(FAILED, Returned(InvestigationFailed))
    {
      for attempt := 1 to 4
        invariant Valid() && machine.pc == if attempt <= 3 then Investigating(attempt) else Aborted
      {
        Meanwhile();
        var committed := StartAttempt(attempt);
        if committed {
          Meanwhile();
          reported, actions := DiagnoseAttempt(attempt);
          if reported {
            return;
          }
        }
      }
      return false, None;
    }

    method PlanActivity(actions: seq<Fields>) returns (reported: bool, plan: Option<Plan>)
      requires Valid() && machine.pc == Planning(actions, 1)
      modifies this
      ensures Valid()
      ensures !reported ==> machine.pc == Aborted
      ensures reported ==>
                machine.pc == if plan.Some? then CheckingPolicy(plan.value)
                              else Writing(RESOLVED, Returned(Resolved(true)))
    {
      reported, plan := false, None;
      for attempt := 1 to 4
        invariant Valid() && machine.pc == if attempt <= 3 then Planning(actions, attempt) else Aborted
      {
        Meanwhile();
        var planId := FreshId(executor.plans);
        var ok: bool := *;
        Take(MakePlan(planId, ok));
        var r := PlanRemediation(planId, actions, c.rootCause, c.service, c.namespace);
        if ok && !r.PlanRaises? {
          return true, if r.Planned? then Some(r.plan) else None;
        }
      }
    }

    method PolicyActivity(plan: Plan) returns (reported: bool, r: PolicyResult)
      requires Valid() && machine.pc == CheckingPolicy(plan)
      modifies this
      ensures Valid() && r == EvaluatePolicy(c.settings, plan)
      ensures !reported ==> machine.pc == Aborted
      ensures reported && !r.allowed ==> machine.pc == Writing(FAILED, Returned(PolicyRejected))
      ensures reported && r.allowed ==>
                machine.pc == if r.requiresHumanApproval then RequestingApproval(plan)
                              else Writing(REMEDIATING, Executing(plan, 1))
    {
      Meanwhile();
      r := EvaluatePolicy(c.settings, plan);
      reported := *;
      Take(CheckPolicy(reported));
    }

    /** Retried until it reports. It cannot report once its own row is in the way. */
    method RequestApprovalActivity(plan: Plan) returns (reported: bool)
      requires Valid() && machine.pc == RequestingApproval(plan)
      modifies this, executor
      ensures Valid()
      ensures reported ==> machine.pc == Writing(AWAITING_APPROVAL, Waiting(plan))
      ensures !reported ==> machine.pc == RequestingApproval(plan) && plan.planId in executor.plans
    {
      var failures: nat := *;
      while failures > 0
        invariant Valid() && machine.pc == RequestingApproval(plan)
      {
        Meanwhile();
        Take(RequestApproval(Fails));
        failures := failures - 1;
      }
      if plan.planId in executor.plans {
        return false;
      }
      executor.plans := executor.plans + {plan.planId};
      timeline := timeline + [APPROVAL_REQUESTED];
      reported := *;
      Take(RequestApproval(if reported then Completes else CommitsThenCrashes));
    }

    /** Retried until it reports; each attempt may commit. */
    method UpdateStatusActivity(s: IncidentStatus, ghost next: Pc)
      requires Valid() && machine.pc == Writing(s, next)
      modifies this
      ensures Valid() && machine.pc == next && status == s
      ensures executor.Contents() == old(executor.Contents())
    {
      var failures: nat := *;
      while failures > 0
        invariant Valid() && machine.pc == Writing(s, next)
      {
        Meanwhile();
        if * {
          Take(WriteStatus(Fails));
        } else {
          status := s;
          timeline := timeline + [STATUS_CHANGED(s)];
          Take(WriteStatus(CommitsThenCrashes));
        }
        failures := failures - 1;
      }
      status := s;
      timeline := timeline + [STATUS_CHANGED(s)];
      Take(WriteStatus(Completes));
    }

    method ExecuteAttempt(plan: Plan, ghost attempt: nat) returns (reported: bool, failure: bool)
      requires Valid() && machine.pc == Executing(plan, attempt)
      modifies this, executor
      ensures Valid()
      ensures !reported ==> machine.pc == AfterFailure(attempt, Executing(plan, attempt + 1))
      ensures reported ==>
                machine.pc == if failure then Writing(FAILED, Returned(RemediationFailed))
                              else Writing(VERIFYING, Verifying(1))
    {
      var env: Executor.Env := *;
      var report := HowItEnds();
      var r := executor.ExecuteRemediation(plan, c.executionId, env);
      if !r.Raises? && !r.Crashes? && !report.Fails? {
        timeline := timeline + [REMEDIATION_EXECUTED];
      }
      Take(ExecutePlan(env, report));
      return !r.Raises? && !r.Crashes? && report.Completes?, r.Failure?;
    }

    method ExecuteActivity(plan: Plan) returns (reported: bool, failure: bool)
      requires Valid() && machine.pc == Executing(plan, 1)
      modifies this, executor
      ensures Valid()
      ensures !reported ==> machine.pc == Aborted
      ensures reported ==>
                machine.pc == if failure then Writing(FAILED, Returned(RemediationFailed))
                              else Writing(VERIFYING, Verifying(1))
    {
      reported, failure := false, false;
      for attempt := 1 to 4
        invariant Valid() && machine.pc == if attempt <= 3 then Executing(plan, attempt) else Aborted
      {
        Meanwhile();
        reported, failure := ExecuteAttempt(plan, attempt);
        if reported {
          return;
        }
      }
      reported := false;
    }

    /** Without a measurement the rate counts as fine. A comparison with NaN is false. */
    method ErrorRateOk(measurement: Measurement) returns (ok: bool)
      ensures ok <==> !HighRate(measurement)
    {
      ok := true;
      if measurement.NotANumber? {
        ok := false;
      } else if measurement.Rate? {
        ok := measurement.rate < 0.05;
      }
    }

    method VerifyAttempt(ghost attempt: nat) returns (reported: bool, recovered: bool)
      requires Valid() && machine.pc == Verifying(attempt)
      modifies this
      ensures Valid()
      ensures !reported ==> machine.pc == AfterFailure(attempt, Verifying(attempt + 1))
      ensures reported ==>
                machine.pc == if recovered then Writing(RESOLVED, Returned(Resolved(false)))
                              else Writing(FAILED, Returned(NotRecovered))
    {
      var measurement: Measurement := *;
      recovered := ErrorRateOk(measurement);
      var report := HowItEnds();
      if !report.Fails? {
        timeline := timeline + [VERIFICATION_COMPLETED];
      }
      Take(Verify(measurement, report));
      reported := report.Completes?;
    }

    method VerifyActivity() returns (reported: bool, recovered: bool)
      requires Valid() && machine.pc == Verifying(1)
      modifies this
      ensures Valid()
      ensures !reported ==> machine.pc == Aborted
      ensures reported ==>
                machine.pc == if recovered then Writing(RESOLVED, Returned(Resolved(false)))
                              else Writing(FAILED, Returned(NotRecovered))
    {
      for attempt := 1 to 4
        invariant Valid() && machine.pc == if attempt <= 3 then Verifying(attempt) else Aborted
      {
        Meanwhile();
        reported, recovered := VerifyAttempt(attempt);
        if reported {
          return;
        }
      }
      return false, false;
    }

    /** The last status write, which ends the run. */
    method Finish(outcome: Outcome) returns (result: RunResult)
      requires Valid() && machine.pc == Writing(if outcome.Resolved? then RESOLVED else FAILED, Returned(outcome))
      modifies this
      ensures Valid() && result == Completed(outcome) && Ended(result)
    {
      UpdateStatusActivity(if outcome.Resolved? then RESOLVED else FAILED, Returned(outcome));
      return Completed(outcome);
    }

    /** The result tells where the machine stands. */
    ghost predicate Ended(result: RunResult)
      reads this, executor
    {
      match result
      case Completed(outcome) =>
        machine.pc == Returned(outcome) && status == if outcome.Resolved? then RESOLVED else FAILED
      case WorkflowFailed => machine.pc == Aborted
      case NeverEnds => machine.pc.RequestingApproval? && machine.pc.plan.planId in executor.plans
    }

    /** The wait may raise only while there is no decision. */
    method WaitCondition(plan: Plan) returns (raised: bool)
      requires Valid() && machine.pc == Waiting(plan)
      modifies this
      ensures Valid() && machine.pc == if raised then Aborted else Waiting(plan)
      ensures raised ==> approvalDecision.None?
    {
      Meanwhile();
      raised := *;
      if raised {
        Take(WaitRaises);
        raised := approvalDecision.None?;
      }
    }

    /** Step 4: None when the plan is approved. */
    method AwaitApproval(plan: Plan) returns (end: Option<RunResult>)
      requires Valid() && machine.pc == RequestingApproval(plan)
      modifies this, executor
      ensures Valid()
      ensures match end
              case Some(result) => Ended(result)
              case None => machine.pc == Writing(REMEDIATING, Executing(plan, 1))
    {
      var reported := RequestApprovalActivity(plan);
      if !reported {
        return Some(NeverEnds);
      }
      UpdateStatusActivity(AWAITING_APPROVAL, Waiting(plan));
      var raised := WaitCondition(plan);
      if raised {
        return Some(WorkflowFailed);
      }
      Take(WaitReturns);
      if approvalDecision.None? {
        var result := Finish(ApprovalTimeout);
        return Some(result);
      }
      if approvalDecision.value.verdict != Some("approved") {
        var result := Finish(Rejected);
        return Some(result);
      }
      return None;
    }

    /** Steps 5 to 7. */
    method Remediate(plan: Plan) returns (result: RunResult)
      requires Valid() && machine.pc == Writing(REMEDIATING, Executing(plan, 1))
      modifies this, executor
      ensures Valid() && Ended(result)
    {
      UpdateStatusActivity(REMEDIATING, Executing(plan, 1));
      var reported, failure := ExecuteActivity(plan);
      if !reported {
        return WorkflowFailed;
      }
      if failure {
        result := Finish(RemediationFailed);
        return;
      }
      UpdateStatusActivity(VERIFYING, Verifying(1));
      var verified, recovered := VerifyActivity();
      if !verified {
        return WorkflowFailed;
      }
      if recovered {
        result := Finish(Resolved(false));
      } else {
        result := Finish(NotRecovered);
      }
    }

    /** Steps 2 and 3 and what follows from them. */
    method PlanAndRemediate(actions: seq<Fields>) returns (result: RunResult)
      requires Valid() && machine.pc == Planning(actions, 1)
      modifies this, executor
      ensures Valid() && Ended(result)
    {
      var planned, plan := PlanActivity(actions);
      if !planned {
        return WorkflowFailed;
      }
      if plan.None? {
        result := Finish(Resolved(true));
        return;
      }
      var checked, policy := PolicyActivity(plan.value);
      if !checked {
        return WorkflowFailed;
      }
      if !policy.allowed {
        result := Finish(PolicyRejected);
        return;
      }
      if policy.requiresHumanApproval {
        var end := AwaitApproval(plan.value);
        if end.Some? {
          return end.value;
        }
      }
      result := Remediate(plan.value);
    }

    /** The run consumed a decision, and the last signal before that was an approval. */
    ghost predicate ApprovedBefore()
      reads this
    {
      exists k: nat :: Runs.ConsumedAt(c, start, trace, k) && Approved(Runs.LastSignal(trace[..k]).value)
    }

    /** The run method. What it returns, the status it leaves and everything it did on the way are those of
        a run of the machine; so what reached the cluster is bounded and approved where it must be. */
    method Run() returns (result: RunResult)
      requires Valid() && trace == [] && machine == Start(start) && Initial(c, start)
      modifies this, executor
      ensures Valid() && Ended(result)
      ensures |executor.cluster| <= 3
      ensures forall a :: a in executor.cluster ==>
                Bounded(c.settings, a) && (a.RollBack? ==> ApprovedBefore())
    {
      var reported, actions := InvestigateActivity();
      if !reported {
        result := WorkflowFailed;
      } else if actions.None? {
        result := Finish(InvestigationFailed);
      } else {
        result := PlanAndRemediate(actions.value);
      }
      RunIsSafe(c, start, trace);
      Runs.ConsumedIsLastSignal(c, start, trace);
      forall a | a in executor.cluster
        ensures Bounded(c.settings, a) && (a.RollBack? ==> ApprovedBefore())
      {
        SafetyTheorem(c, start, trace, a);
      }
    }
  }

  method HowItEnds() returns (a: Attempt)
  {
    if {
      case true => a := Fails;
      case true => a := CommitsThenCrashes;
      case true => a := Completes;
    }
  }

  method FreshId(used: set<Id>) returns (id: Id)
    ensures id !in used
  {
    id := 0;
    var seen: set<Id> := {};
    while id in used
      invariant seen <= used && forall x: nat :: x in seen <==> x < id
      decreases used - seen
    {
      seen := seen + {id};
      id := id + 1;
    }
  }
}
