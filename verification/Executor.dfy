/** The remediation executor: check the execution table, act on the cluster, record the result under the
    table's constraints. */
module Executor {
  import opened Schema
  import opened Remediation

  datatype ExecutionStatus = SUCCESS | FAILURE
  datatype Execution = Execution(planId: Id, status: ExecutionStatus)

  /** The committed remediation_plans ids and remediation_executions rows, and the log of everything that
      was done to the cluster on behalf of one incident. */
  datatype Store = Store(plans: set<Id>, executions: map<Id, Execution>, cluster: seq<ClusterAction>)

  /** The primary key, the unique plan_id and the foreign key to remediation_plans. */
  predicate CanInsert(s: Store, executionId: Id, planId: Id) {
    && executionId !in s.executions
    && planId in s.plans
    && forall e :: e in s.executions ==> s.executions[e].planId != planId
  }

  datatype Act = Acts | ActRaises | ActCrashes
  datatype Tx = Commits | Errors | CrashesBefore | CrashesAfter

  /** What goes wrong during one call. */
  datatype Env = Env(checkRaises: bool, act: Act, recordSuccess: Tx, recordFailure: Tx)

  datatype Result = Success | Failure | SkippedIdempotent | Raises | Crashes

  function Insert(s: Store, executionId: Id, planId: Id, status: ExecutionStatus): Store {
    s.(executions := s.executions[executionId := Execution(planId, status)])
  }

  function RecordFailure(s: Store, planId: Id, executionId: Id, tx: Tx): (Store, Result) {
    if tx.CrashesBefore? then (s, Crashes)
    else if tx.Errors? || !CanInsert(s, executionId, planId) then (s, Raises)
    else (Insert(s, executionId, planId, FAILURE), if tx.Commits? then Failure else Crashes)
  }

  /** One call of execute_remediation. An action that raises or crashes may have reached the cluster. */
  function Call(s: Store, plan: Plan, executionId: Id, env: Env): (Store, Result) {
    if env.checkRaises then (s, Raises)
    else if executionId in s.executions && s.executions[executionId].status == SUCCESS then (s, SkippedIdempotent)
    else if Dispatch(plan).None? then RecordFailure(s, plan.planId, executionId, env.recordFailure)
    else
      var acted := s.(cluster := s.cluster + [Dispatch(plan).value]);
      match env.act
      case ActCrashes => (acted, Crashes)
      case ActRaises => RecordFailure(acted, plan.planId, executionId, env.recordFailure)
      case Acts =>
        if env.recordSuccess.CrashesBefore? then (acted, Crashes)
        else if env.recordSuccess.Errors? || !CanInsert(s, executionId, plan.planId)
        then RecordFailure(acted, plan.planId, executionId, env.recordFailure)
        else (Insert(acted, executionId, plan.planId, SUCCESS), if env.recordSuccess.Commits? then Success else Crashes)
  }

  class K8sExecutor {
    var plans: set<Id>
    var executions: map<Id, Execution>
    var cluster: seq<ClusterAction>

    function Contents(): Store
      reads this
    {
      Store(plans, executions, cluster)
    }

    constructor (s: Store)
      ensures Contents() == s
    {
      plans, executions, cluster := s.plans, s.executions, s.cluster;
    }

    /** Insert one row in its own transaction. */
    method Record(executionId: Id, planId: Id, status: ExecutionStatus, tx: Tx) returns (raised: bool, crashed: bool)
      modifies this`executions
      ensures crashed <==> tx.CrashesBefore? || (tx.CrashesAfter? && CanInsert(old(Contents()), executionId, planId))
      ensures raised <==> !tx.CrashesBefore? && (tx.Errors? || !CanInsert(old(Contents()), executionId, planId))
      ensures executions == if raised || tx.CrashesBefore? then old(executions)
                            else old(executions)[executionId := Execution(planId, status)]
    {
      if tx.CrashesBefore? {
        return false, true;
      }
      if tx.Errors? || !CanInsert(Contents(), executionId, planId) {
        return true, false;
      }
      executions := executions[executionId := Execution(planId, status)];
      return false, tx.CrashesAfter?;
    }

    method ExecuteRemediation(plan: Plan, executionId: Id, env: Env) returns (r: Result)
      modifies this
      ensures (Contents(), r) == Call(old(Contents()), plan, executionId, env)
      ensures plans == old(plans)
    {
      if env.checkRaises {
        return Raises;
      }
      if executionId in executions && executions[executionId].status == SUCCESS {
        return SkippedIdempotent;
      }
      var action := Dispatch(plan);
      if action.Some? {
        cluster := cluster + [action.value];
        if env.act.ActCrashes? {
          return Crashes;
        }
        if env.act.Acts? {
          var raised, crashed := Record(executionId, plan.planId, SUCCESS, env.recordSuccess);
          if crashed {
            return Crashes;
          }
          if !raised {
            return Success;
          }
        }
      }
      var raised, crashed := Record(executionId, plan.planId, FAILURE, env.recordFailure);
      return if crashed then Crashes else if raised then Raises else Failure;
    }
  }

  // ---------------------------------------------------------------- repeated calls

  /** The store after calls for one plan under one execution id. */
  function Calls(s: Store, plan: Plan, executionId: Id, envs: seq<Env>): Store {
    if envs == [] then s
    else Call(Calls(s, plan, executionId, envs[..|envs| - 1]), plan, executionId, envs[|envs| - 1]).0
  }

  predicate OneRowPerPlan(s: Store) {
    forall d, e :: d in s.executions && e in s.executions && s.executions[d].planId == s.executions[e].planId ==> d == e
  }

  predicate Succeeded(s: Store, executionId: Id) {
    executionId in s.executions && s.executions[executionId].status == SUCCESS
  }

  /** What the results and the new rows mean. A SUCCESS row newly appears if and only if the plan's action ran to its
      end and the insertion was committed, a FAILURE row if and only if the action failed or its success could not
      be recorded, and then the failure was; a new row is the plan's; and a result tells the row. */
  lemma ResultsAreRecorded(s: Store, plan: Plan, executionId: Id, env: Env)
    ensures var (s', r) := Call(s, plan, executionId, env);
            var added := executionId in s'.executions && executionId !in s.executions;
            && (added && s'.executions[executionId].status == SUCCESS <==>
                  && !env.checkRaises && Dispatch(plan).Some? && env.act.Acts?
                  && CanInsert(s, executionId, plan.planId)
                  && (env.recordSuccess.Commits? || env.recordSuccess.CrashesAfter?))
            && (added && s'.executions[executionId].status == FAILURE <==>
                  && !env.checkRaises && CanInsert(s, executionId, plan.planId)
                  && (Dispatch(plan).None? || env.act.ActRaises? || (env.act.Acts? && env.recordSuccess.Errors?))
                  && (env.recordFailure.Commits? || env.recordFailure.CrashesAfter?))
            && (added ==> s'.executions[executionId].planId == plan.planId)
            && (r == Success <==> added && Succeeded(s', executionId) && env.recordSuccess.Commits?)
            && (r == Failure <==> added && !Succeeded(s', executionId) && env.recordFailure.Commits?)
            && (r == SkippedIdempotent <==> !env.checkRaises && Succeeded(s, executionId))
  {
  }

  /** Of the calls that return no result, those crash in which the action or a record crashed, and the others raise. */
  lemma CrashesExactly(s: Store, plan: Plan, executionId: Id, env: Env)
    requires !env.checkRaises && !Succeeded(s, executionId)
    ensures var acts := Dispatch(plan).Some?;
            var fits := CanInsert(s, executionId, plan.planId);
            var crashedFirst := acts && (env.act.ActCrashes?
                                         || (env.act.Acts? && (env.recordSuccess.CrashesBefore?
                                                               || (env.recordSuccess.CrashesAfter? && fits))));
            var succeeded := acts && env.act.Acts? && env.recordSuccess.Commits? && fits;
            Call(s, plan, executionId, env).1 == Crashes
            <==> crashedFirst
                 || (!succeeded && (env.recordFailure.CrashesBefore? || (env.recordFailure.CrashesAfter? && fits)))
    ensures Call(s, plan, executionId, env.(checkRaises := true)) == (s, Raises)
  {
  }

  /** The steps that every call takes, whatever goes wrong in it: at most one action, the plan's own; rows
      are added but never changed, at most one per plan; and after a SUCCESS row nothing happens. */
  lemma CallIsBounded(s: Store, plan: Plan, executionId: Id, env: Env)
    requires OneRowPerPlan(s)
    ensures var s' := Call(s, plan, executionId, env).0;
            && OneRowPerPlan(s') && s'.plans == s.plans
            && (s'.cluster == s.cluster || (Dispatch(plan).Some? && s'.cluster == s.cluster + [Dispatch(plan).value]))
            && (forall e :: e in s.executions ==> e in s'.executions && s'.executions[e] == s.executions[e])
            && (Succeeded(s, executionId) ==> s' == s)
  {
  }

  /** Idempotence with crashes anywhere: over any number of calls, rows stay one per plan, the cluster sees
      at most one action per call, all of them the plan's own, and none after a SUCCESS row is committed. */
  lemma {:induction false} ExecutorTheorem(s: Store, plan: Plan, executionId: Id, envs: seq<Env>, k: nat)
    requires OneRowPerPlan(s) && k <= |envs|
    ensures var (mid, end) := (Calls(s, plan, executionId, envs[..k]), Calls(s, plan, executionId, envs));
            && OneRowPerPlan(end)
            && |mid.cluster| <= |end.cluster| <= |mid.cluster| + |envs| - k
            && end.cluster[..|mid.cluster|] == mid.cluster
            && (forall i :: |mid.cluster| <= i < |end.cluster| ==> Dispatch(plan) == Some(end.cluster[i]))
            && (Succeeded(mid, executionId) ==> end == mid)
  {
    if |envs| == k {
      assert envs[..k] == envs;
      if k > 0 {
        ExecutorTheorem(s, plan, executionId, envs[..k - 1], k - 1);
        CallIsBounded(Calls(s, plan, executionId, envs[..k - 1]), plan, executionId, envs[k - 1]);
      }
    } else {
      var init := envs[..|envs| - 1];
      assert init[..k] == envs[..k];
      ExecutorTheorem(s, plan, executionId, init, k);
      CallIsBounded(Calls(s, plan, executionId, init), plan, executionId, envs[|envs| - 1]);
    }
  }

  /** After a call that returned Success, and after one that was skipped, no later call does anything. */
  lemma SuccessIsFinal(s: Store, plan: Plan, executionId: Id, envs: seq<Env>, k: nat)
    requires OneRowPerPlan(s) && k < |envs|
    requires Call(Calls(s, plan, executionId, envs[..k]), plan, executionId, envs[k]).1 in {Success, SkippedIdempotent}
    ensures Calls(s, plan, executionId, envs) == Calls(s, plan, executionId, envs[..k + 1])
  {
    assert envs[..k + 1][..k] == envs[..k];
    ResultsAreRecorded(Calls(s, plan, executionId, envs[..k]), plan, executionId, envs[k]);
    ExecutorTheorem(s, plan, executionId, envs[..k], k);
    CallIsBounded(Calls(s, plan, executionId, envs[..k]), plan, executionId, envs[k]);
    ExecutorTheorem(s, plan, executionId, envs, k + 1);
  }

  /** Without a committed plan row the foreign key rejects both records: the call acts, stores nothing and
      never returns a result. */
  lemma MissingPlanNeverRecords(s: Store, plan: Plan, executionId: Id, env: Env)
    requires plan.planId !in s.plans && executionId !in s.executions
    ensures var (s', r) := Call(s, plan, executionId, env);
            s'.executions == s.executions && (r == Raises || r == Crashes)
  {
  }

  /** Exactly when a call acts: its check got through, the plan dispatches and no SUCCESS row is there. A FAILURE
      row, or another plan's row, does not stop it. */
  lemma ActsExactlyWhenNotSucceeded(s: Store, plan: Plan, executionId: Id, env: Env)
    ensures Call(s, plan, executionId, env).0.cluster != s.cluster
            <==> !env.checkRaises && !Succeeded(s, executionId) && Dispatch(plan).Some?
  {
    if Dispatch(plan).Some? {
      assert s.cluster + [Dispatch(plan).value] != s.cluster;
    }
  }

  /** A FAILURE row is not a stop sign: a retry acts again, then violates the primary key and raises. */
  lemma RetryAfterFailureActsAgain(s: Store, plan: Plan, executionId: Id, env: Env)
    requires executionId in s.executions && s.executions[executionId].status == FAILURE
    requires Dispatch(plan).Some? && !env.checkRaises
    ensures var (s', r) := Call(s, plan, executionId, env);
            s'.executions == s.executions && s'.cluster == s.cluster + [Dispatch(plan).value]
            && (r == Raises || r == Crashes)
  {
  }

  /** An action that raised is recorded as a failure, and the next call repeats it. */
  lemma FailedActionIsRepeated(s: Store, plan: Plan, executionId: Id, env: Env)
    requires CanInsert(s, executionId, plan.planId) && Dispatch(plan).Some? && !env.checkRaises
    ensures var a := Dispatch(plan).value;
            var envs := [Env(false, ActRaises, Commits, Commits), env];
            && Calls(s, plan, executionId, envs[..1])
               == Insert(s.(cluster := s.cluster + [a]), executionId, plan.planId, FAILURE)
            && Calls(s, plan, executionId, envs).cluster == s.cluster + [a, a]
  {
    var a := Dispatch(plan).value;
    var envs := [Env(false, ActRaises, Commits, Commits), env];
    assert envs[..1] == [envs[0]] && envs[..1][..0] == [];
    var s1 := Insert(s.(cluster := s.cluster + [a]), executionId, plan.planId, FAILURE);
    assert Calls(s, plan, executionId, envs[..1]) == s1;
    RetryAfterFailureActsAgain(s1, plan, executionId, env);
    assert s.cluster + [a] + [a] == s.cluster + [a, a];
  }

  /** A call returns a recorded result exactly when its row could be inserted and nothing crashed. */
  lemma RecordsExactlyWhenInsertable(s: Store, plan: Plan, executionId: Id)
    requires executionId !in s.executions && Dispatch(plan).Some?
    ensures (exists env :: Call(s, plan, executionId, env).1 in {Success, Failure})
            <==> CanInsert(s, executionId, plan.planId)
  {
    var good := Env(false, Acts, Commits, Commits);
    if CanInsert(s, executionId, plan.planId) {
      assert Call(s, plan, executionId, good).1 == Success;
    }
  }
}
