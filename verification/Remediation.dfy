/** From model output to one bounded cluster action: the action-stripping part of the root cause agent,
    the planner, the policy engine and the executor's dispatch. */
module Remediation {
  import opened Schema

  // ---------------------------------------------------------------- parsed JSON

  type Fields = seq<(string, Json)>

  datatype Json =
    | Null | Bool(b: bool) | Int(n: int) | Float(r: real) | Str(s: string)
    | List(items: seq<Json>) | Obj(fields: seq<(string, Json)>)

  /** The value of a key. A repeated key keeps its last value. */
  function Lookup(fields: Fields, key: string): Option<Json> {
    if fields == [] then None
    else if fields[|fields| - 1].0 == key then Some(fields[|fields| - 1].1)
    else Lookup(fields[..|fields| - 1], key)
  }

  function GetOr(fields: Fields, key: string, default: Json): Json {
    match Lookup(fields, key)
    case Some(v) => v
    case None => default
  }

  /** The keys, in the order of their first occurrence. */
  function Keys(fields: Fields): seq<string> {
    if fields == [] then []
    else
      var before := Keys(fields[..|fields| - 1]);
      if fields[|fields| - 1].0 in before then before else before + [fields[|fields| - 1].0]
  }

  predicate Truthy(j: Json) {
    match j
    case Null => false
    case Bool(b) => b
    case Int(n) => n != 0
    case Float(r) => r != 0.0
    case Str(s) => s != ""
    case List(items) => items != []
    case Obj(fields) => fields != []
  }

  // ---------------------------------------------------------------- sanitiser

  const ACTION_NAMES := {
    "RESTART_POD", "SCALE_DEPLOYMENT", "ROLLBACK_DEPLOYMENT", "CHANGE_CONFIG", "DELETE_RESOURCE", "DATABASE_MUTATION"}

  /** str.upper. All that is used of it is that it leaves the names of actions and the empty text as they are; what
      it makes of other letters is arbitrary. */
  type Capitalisation = upper: string -> string |
    upper("") == "" && forall name :: name in ACTION_NAMES ==> upper(name) == name
    witness (s: string) => s

  function AsciiUpperChar(c: char): char {
    if 'a' <= c <= 'z' then 'A' + (c - 'a') else c
  }

  function AsciiUpper(s: string): string {
    seq(|s|, i requires 0 <= i < |s| => AsciiUpperChar(s[i]))
  }

  lemma AsciiUpperKeepsNames()
    ensures forall name :: name in ACTION_NAMES ==> AsciiUpper(name) == name
  {
    assert AsciiUpper("RESTART_POD") == "RESTART_POD";
    assert AsciiUpper("SCALE_DEPLOYMENT") == "SCALE_DEPLOYMENT";
    assert AsciiUpper("ROLLBACK_DEPLOYMENT") == "ROLLBACK_DEPLOYMENT";
    assert AsciiUpper("CHANGE_CONFIG") == "CHANGE_CONFIG";
    assert AsciiUpper("DELETE_RESOURCE") == "DELETE_RESOURCE";
    assert AsciiUpper("DATABASE_MUTATION") == "DATABASE_MUTATION";
  }

  /** Capitalising ASCII letters is one such function, and it makes action names of other words. */
  lemma AsciiUpperCapitalises()
    ensures exists upper: Capitalisation :: upper("restart_pod") == "RESTART_POD"
  {
    AsciiUpperKeepsNames();
    var upper: Capitalisation := AsciiUpper;
    assert upper("restart_pod") == "RESTART_POD" by {
      assert AsciiUpper("restart_pod") == "RESTART_POD";
    }
  }

  predicate Contains(s: string, word: string) {
    exists i :: 0 <= i <= |s| - |word| && s[i..][..|word|] == word
  }

  const ALLOWED_ACTIONS := {"RESTART_POD", "SCALE_DEPLOYMENT", "ROLLBACK_DEPLOYMENT"}

  /** An action proposed by the model under one of the allowed names, in any case. */
  predicate Permitted(upper: Capitalisation, fields: Fields) {
    var name := GetOr(fields, "action", Str(""));
    name.Str? && upper(name.s) in ALLOWED_ACTIONS
  }

  function Proposal(action: string, component: string, namespace: string, reason: string): Fields {
    [("action", Str(action)), ("target", Str(component)), ("namespace", Str(namespace)), ("reason", Str(reason))]
  }

  /** What one element of the model's list contributes: at most one action. */
  function StripOne(upper: Capitalisation, item: Json, component: string, namespace: string): Option<Fields> {
    match item
    case Obj(fields) => if Permitted(upper, fields) then Some(fields) else None
    case Str(s) =>
      if Contains(upper(s), "ROLLBACK") then Some(Proposal("ROLLBACK_DEPLOYMENT", component, namespace, s))
      else if Contains(upper(s), "RESTART") then Some(Proposal("RESTART_POD", component, namespace, s))
      else if Contains(upper(s), "SCALE") then Some(Proposal("SCALE_DEPLOYMENT", component, namespace, s))
      else None
    case _ => None
  }

  function Strip(upper: Capitalisation, items: seq<Json>, component: string, namespace: string): seq<Fields> {
    if items == [] then []
    else
      var last := StripOne(upper, items[|items| - 1], component, namespace);
      Strip(upper, items[..|items| - 1], component, namespace) + if last.Some? then [last.value] else []
  }

  method SafeActions(upper: Capitalisation, items: seq<Json>, component: string, namespace: string)
    returns (safe: seq<Fields>)
    ensures safe == Strip(upper, items, component, namespace)
  {
    safe := [];
    for i := 0 to |items|
      invariant safe == Strip(upper, items[..i], component, namespace)
    {
      assert items[..i + 1][..i] == items[..i];
      var action := items[i];
      if action.Obj? {
        var name := GetOr(action.fields, "action", Str(""));
        if name.Str? && upper(name.s) in ALLOWED_ACTIONS {
          safe := safe + [action.fields];
        }
      } else if action.Str? {
        var text := upper(action.s);
        if Contains(text, "ROLLBACK") {
          safe := safe + [Proposal("ROLLBACK_DEPLOYMENT", component, namespace, action.s)];
        } else if Contains(text, "RESTART") {
          safe := safe + [Proposal("RESTART_POD", component, namespace, action.s)];
        } else if Contains(text, "SCALE") {
          safe := safe + [Proposal("SCALE_DEPLOYMENT", component, namespace, action.s)];
        }
      }
    }
    assert items[..|items|] == items;
  }

  /** What the Python loop iterates over: list items, characters of a string, keys of an object. A number
      or a boolean cannot be iterated. */
  function Elements(raw: Json): Option<seq<Json>> {
    match raw
    case List(items) => Some(items)
    case Str(s) => Some(seq(|s|, i requires 0 <= i < |s| => Str([s[i]])))
    case Obj(fields) => Some(seq(|Keys(fields)|, i requires 0 <= i < |Keys(fields)| => Str(Keys(fields)[i])))
    case _ => None
  }

  /** The first truthy value under the three spellings, or an empty list. */
  function RawActions(response: Fields): Json {
    var a, b := GetOr(response, "recommended_actions", Null), GetOr(response, "recommendedActions", Null);
    var c := GetOr(response, "actions", Null);
    if Truthy(a) then a else if Truthy(b) then b else if Truthy(c) then c else List([])
  }

  /** What is recommended if nothing is left after stripping. */
  function DefaultAction(component: string, namespace: string): Fields {
    Proposal("ROLLBACK_DEPLOYMENT", component, namespace, "Restore previous stable deployment revision")
  }

  datatype LlmOutput = NotJson | NotAnObject | Response(fields: Fields)

  /** How the parts of the parsing that are not modelled end: well, in an error that the agent catches,
      or in one that it does not. */
  datatype Parsing = Fine | Caught | Uncaught

  datatype RcaResult = Rca(actions: seq<Fields>) | RcaRaised

  /** run_rca, as far as its recommended actions go. `component` is the suspected component, an arbitrary
      string of the model. */
  function RunRca(
    upper: Capitalisation, output: LlmOutput, component: string, namespace: string, parsing: Parsing): RcaResult {
    match output
    case NotJson => Rca([])
    case NotAnObject => RcaRaised
    case Response(fields) =>
      match Elements(RawActions(fields))
      case None => RcaRaised
      case Some(items) =>
        var safe := Strip(upper, items, component, namespace);
        match parsing
        case Fine => Rca(if safe == [] then [DefaultAction(component, namespace)] else safe)
        case Caught => Rca([])
        case Uncaught => RcaRaised
  }

  lemma ProposalIsPermitted(upper: Capitalisation, action: string, component: string, namespace: string, reason: string)
    requires action in ALLOWED_ACTIONS
    ensures Lookup(Proposal(action, component, namespace, reason), "action") == Some(Str(action))
    ensures Permitted(upper, Proposal(action, component, namespace, reason))
  {
    ProposalFields(action, component, namespace, reason);
  }

  lemma StripOneIsPermitted(upper: Capitalisation, item: Json, component: string, namespace: string)
    ensures StripOne(upper, item, component, namespace).Some?
            ==> Permitted(upper, StripOne(upper, item, component, namespace).value)
  {
    if item.Str? {
      ProposalIsPermitted(upper, "ROLLBACK_DEPLOYMENT", component, namespace, item.s);
      ProposalIsPermitted(upper, "RESTART_POD", component, namespace, item.s);
      ProposalIsPermitted(upper, "SCALE_DEPLOYMENT", component, namespace, item.s);
    }
  }

  /** Stripping keeps exactly the permitted actions: whatever it returns is permitted, and no permitted
      object of the list is lost. */
  lemma {:induction false} StripExact(upper: Capitalisation, items: seq<Json>, component: string, namespace: string)
    ensures forall a :: a in Strip(upper, items, component, namespace) ==> Permitted(upper, a)
    ensures forall fields :: Obj(fields) in items && Permitted(upper, fields) ==>
              fields in Strip(upper, items, component, namespace)
  {
    if items != [] {
      StripExact(upper, items[..|items| - 1], component, namespace);
      StripOneIsPermitted(upper, items[|items| - 1], component, namespace);
      assert items == items[..|items| - 1] + [items[|items| - 1]];
    }
  }

  /** Whatever the model answers, only permitted actions are recommended. */
  lemma RcaIsPermitted(upper: Capitalisation, output: LlmOutput, component: string, namespace: string, parsing: Parsing)
    ensures var r := RunRca(upper, output, component, namespace, parsing);
            r.Rca? ==> forall a :: a in r.actions ==> Permitted(upper, a)
  {
    ProposalIsPermitted(upper, "ROLLBACK_DEPLOYMENT", component, namespace,
                        "Restore previous stable deployment revision");
    if output.Response? && Elements(RawActions(output.fields)).Some? {
      StripExact(upper, Elements(RawActions(output.fields)).value, component, namespace);
    }
  }

  // ---------------------------------------------------------------- planner

  datatype Action =
    | RESTART_POD | SCALE_DEPLOYMENT | ROLLBACK_DEPLOYMENT | CHANGE_CONFIG | DELETE_RESOURCE | DATABASE_MUTATION

  datatype RiskLevel = LOW | MEDIUM | HIGH | FORBIDDEN

  function ParseAction(name: string): Option<Action> {
    if name == "RESTART_POD" then Some(RESTART_POD)
    else if name == "SCALE_DEPLOYMENT" then Some(SCALE_DEPLOYMENT)
    else if name == "ROLLBACK_DEPLOYMENT" then Some(ROLLBACK_DEPLOYMENT)
    else if name == "CHANGE_CONFIG" then Some(CHANGE_CONFIG)
    else if name == "DELETE_RESOURCE" then Some(DELETE_RESOURCE)
    else if name == "DATABASE_MUTATION" then Some(DATABASE_MUTATION)
    else None
  }

  /** ACTION_RISK_MAP of the planner. */
  function PlannedRisk(a: Action): RiskLevel {
    match a
    case RESTART_POD => LOW
    case SCALE_DEPLOYMENT => LOW
    case ROLLBACK_DEPLOYMENT => MEDIUM
    case CHANGE_CONFIG => HIGH
    case DELETE_RESOURCE => FORBIDDEN
    case DATABASE_MUTATION => FORBIDDEN
  }

  /** `replicas` is the parameter of that name, if the plan has it. */
  datatype Plan = Plan(
    planId: Id, action: Action, namespace: string, target: string, replicas: Option<Json>,
    riskLevel: RiskLevel, requiresApproval: bool)

  datatype PlanResult = NoPlan | PlanRaises | Planned(plan: Plan)

  /** plan_remediation. Fields of the wrong type make building the plan raise. */
  function PlanRemediation(
    planId: Id, actions: seq<Fields>, rootCause: string, service: string, namespace: string): PlanResult {
    if actions == [] then NoPlan
    else
      var chosen := actions[0];
      var name := GetOr(chosen, "action", Str(""));
      if !name.Str? || ParseAction(name.s).None? then NoPlan
      else
        var action := ParseAction(name.s).value;
        var risk := PlannedRisk(action);
        if risk == FORBIDDEN then NoPlan
        else
          var target := GetOr(chosen, "target", Str(service));
          var ns := GetOr(chosen, "namespace", Str(namespace));
          var reason := GetOr(chosen, "reason", Str(rootCause));
          var replicas := if action == SCALE_DEPLOYMENT then Some(GetOr(chosen, "replicas", Int(3))) else None;
          if target.Str? && ns.Str? && reason.Str?
          then Planned(Plan(planId, action, ns.s, target.s, replicas, risk, risk == MEDIUM || risk == HIGH))
          else PlanRaises
  }

  /** Exactly when a non-empty diagnosis yields no plan: the first action spells its name in another case.
      The sanitiser lets such names through, and the planner does not try the next action. */
  lemma NoPlanExactlyWhenMisspelt(
    upper: Capitalisation, planId: Id, actions: seq<Fields>, rootCause: string, service: string, namespace: string)
    requires actions != [] && Permitted(upper, actions[0])
    ensures PlanRemediation(planId, actions, rootCause, service, namespace) == NoPlan
            <==> GetOr(actions[0], "action", Str("")).s !in ALLOWED_ACTIONS
  {
    var name := GetOr(actions[0], "action", Str("")).s;
    PermittedParses(upper, name);
  }

  /** A permitted name that parses at all is one of the three. */
  lemma PermittedParses(upper: Capitalisation, name: string)
    requires upper(name) in ALLOWED_ACTIONS
    ensures ParseAction(name).Some? <==> name in ALLOWED_ACTIONS
    ensures ParseAction(name).Some? ==> ParseAction(name).value in {RESTART_POD, SCALE_DEPLOYMENT, ROLLBACK_DEPLOYMENT}
  {
  }

  lemma LookupLast(fields: Fields, key: string, value: Json, sought: string)
    ensures Lookup(fields + [(key, value)], sought) == if sought == key then Some(value) else Lookup(fields, sought)
  {
    assert (fields + [(key, value)])[..|fields|] == fields;
  }

  lemma ProposalFields(action: string, component: string, ns: string, reason: string)
    ensures var p := Proposal(action, component, ns, reason);
            && Lookup(p, "action") == Some(Str(action)) && Lookup(p, "target") == Some(Str(component))
            && Lookup(p, "namespace") == Some(Str(ns)) && Lookup(p, "reason") == Some(Str(reason))
            && Lookup(p, "replicas").None?
  {
    assert |"replicas"| == 8 && |"action"| == 6 && |"target"| == 6 && |"namespace"| == 9 && |"reason"| == 6;
    assert "reason"[0] != "action"[0] && "reason"[0] != "target"[0] && "target"[0] != "action"[0];
    forall sought | sought in {"action", "target", "namespace", "reason", "replicas"}
      ensures Lookup(Proposal(action, component, ns, reason), sought)
              == if sought == "action" then Some(Str(action)) else if sought == "target" then Some(Str(component))
                 else if sought == "namespace" then Some(Str(ns)) else if sought == "reason" then Some(Str(reason))
                 else None
    {
      LookupLast([], "action", Str(action), sought);
      LookupLast([("action", Str(action))], "target", Str(component), sought);
      LookupLast([("action", Str(action)), ("target", Str(component))], "namespace", Str(ns), sought);
      LookupLast([("action", Str(action)), ("target", Str(component)), ("namespace", Str(ns))],
                 "reason", Str(reason), sought);
      assert [] + [("action", Str(action))] == [("action", Str(action))];
      assert [("action", Str(action))] + [("target", Str(component))]
             == [("action", Str(action)), ("target", Str(component))];
      assert [("action", Str(action)), ("target", Str(component))] + [("namespace", Str(ns))]
             == [("action", Str(action)), ("target", Str(component)), ("namespace", Str(ns))];
      assert [("action", Str(action)), ("target", Str(component)), ("namespace", Str(ns))] + [("reason", Str(reason))]
             == Proposal(action, component, ns, reason);
    }
  }

  /** A sole proposal is planned as it stands. */
  lemma PlanOfProposal(
    planId: Id, action: string, component: string, ns: string, reason: string,
    rootCause: string, service: string, namespace: string)
    requires action in ALLOWED_ACTIONS
    ensures var a := ParseAction(action).value;
            PlanRemediation(planId, [Proposal(action, component, ns, reason)], rootCause, service, namespace)
            == Planned(Plan(planId, a, ns, component, if a == SCALE_DEPLOYMENT then Some(Int(3)) else None,
                            PlannedRisk(a), a == ROLLBACK_DEPLOYMENT))
  {
    ProposalFields(action, component, ns, reason);
  }

  // ---------------------------------------------------------------- policy

  datatype Settings = Settings(allowedNamespaces: set<string>, allowedDeployments: set<string>)

  datatype Rejection =
    | ForbiddenAction | NamespaceNotAllowed | TargetNotAllowed
    | InvalidParameter | ReplicaLimitExceeded | ReplicaMinimumViolated

  datatype PolicyResult = PolicyResult(
    allowed: bool, requiresHumanApproval: bool, riskLevel: RiskLevel, rejection: Option<Rejection>, autoApproved: bool)

  function Reject(risk: RiskLevel, reason: Rejection): PolicyResult {
    PolicyResult(false, false, risk, Some(reason), false)
  }

  const MAX_AUTO_SCALE_REPLICAS := 10
  const MIN_AUTO_SCALE_REPLICAS := 1

  const REQUIRES_APPROVAL := {ROLLBACK_DEPLOYMENT, CHANGE_CONFIG}
  const FORBIDDEN_ACTIONS := {DELETE_RESOURCE, DATABASE_MUTATION}

  const RISK_TABLE := map[
    RESTART_POD := LOW, SCALE_DEPLOYMENT := LOW, ROLLBACK_DEPLOYMENT := MEDIUM,
    CHANGE_CONFIG := HIGH, DELETE_RESOURCE := FORBIDDEN, DATABASE_MUTATION := FORBIDDEN]

  /** isinstance(value, int): in Python a boolean is an int, with True equal to 1. */
  function PyInt(j: Json): Option<int> {
    match j
    case Int(n) => Some(n)
    case Bool(b) => Some(if b then 1 else 0)
    case _ => None
  }

  function Replicas(plan: Plan): Json {
    if plan.replicas.Some? then plan.replicas.value else Int(2)
  }

  function EvaluatePolicy(settings: Settings, plan: Plan): PolicyResult {
    if plan.action in FORBIDDEN_ACTIONS then Reject(FORBIDDEN, ForbiddenAction)
    else if plan.namespace !in settings.allowedNamespaces then Reject(HIGH, NamespaceNotAllowed)
    else if plan.target !in settings.allowedDeployments then Reject(HIGH, TargetNotAllowed)
    else if plan.action == SCALE_DEPLOYMENT && PyInt(Replicas(plan)).None? then Reject(HIGH, InvalidParameter)
    else if plan.action == SCALE_DEPLOYMENT && PyInt(Replicas(plan)).value > MAX_AUTO_SCALE_REPLICAS
    then Reject(HIGH, ReplicaLimitExceeded)
    else if plan.action == SCALE_DEPLOYMENT && PyInt(Replicas(plan)).value < MIN_AUTO_SCALE_REPLICAS
    then Reject(HIGH, ReplicaMinimumViolated)
    else
      var risk := if plan.action in RISK_TABLE then RISK_TABLE[plan.action] else HIGH;
      var approval := plan.action in REQUIRES_APPROVAL;
      PolicyResult(true, approval, risk, None, !approval)
  }

  // ---------------------------------------------------------------- dispatch

  datatype ClusterAction =
    | RestartPods(target: string, namespace: string)
    | ScaleTo(target: string, namespace: string, replicas: int)
    | RollBack(target: string, namespace: string)

  /** _execute_k8s_action. None: it raises before touching the cluster. Of the values int() accepts, only
      those that the policy lets through are modelled. */
  function Dispatch(plan: Plan): Option<ClusterAction> {
    match plan.action
    case RESTART_POD => Some(RestartPods(plan.target, plan.namespace))
    case SCALE_DEPLOYMENT =>
      if PyInt(Replicas(plan)).Some? then Some(ScaleTo(plan.target, plan.namespace, PyInt(Replicas(plan)).value))
      else None
    case ROLLBACK_DEPLOYMENT => Some(RollBack(plan.target, plan.namespace))
    case _ => None
  }

  /** The actions that may ever reach the cluster. */
  predicate Bounded(settings: Settings, c: ClusterAction) {
    && c.target in settings.allowedDeployments
    && c.namespace in settings.allowedNamespaces
    && (c.ScaleTo? ==> 1 <= c.replicas <= 10)
  }

  /** The policy allows exactly the plans that either dispatch to a bounded action or change configuration
      on an allowed target, and asks for approval exactly for rollbacks and configuration changes. */
  lemma PolicyExact(settings: Settings, plan: Plan)
    ensures var r := EvaluatePolicy(settings, plan);
            && (r.allowed <==>
                  if plan.action == CHANGE_CONFIG
                  then plan.namespace in settings.allowedNamespaces && plan.target in settings.allowedDeployments
                  else Dispatch(plan).Some? && Bounded(settings, Dispatch(plan).value))
            && (r.allowed <==> r.rejection.None?)
            && (r.requiresHumanApproval <==>
                  r.allowed
                  && (plan.action == CHANGE_CONFIG || (Dispatch(plan).Some? && Dispatch(plan).value.RollBack?)))
            && (r.autoApproved <==> r.allowed && !r.requiresHumanApproval)
  {
  }

  /** Planner and policy agree on every plan that the planner emits and the policy allows. */
  lemma PlannerAgreesWithPolicy(
    settings: Settings, planId: Id, actions: seq<Fields>, rootCause: string, service: string, namespace: string)
    ensures var p := PlanRemediation(planId, actions, rootCause, service, namespace);
            p.Planned? && EvaluatePolicy(settings, p.plan).allowed ==>
              && EvaluatePolicy(settings, p.plan).riskLevel == p.plan.riskLevel
              && EvaluatePolicy(settings, p.plan).requiresHumanApproval == p.plan.requiresApproval
  {
  }

  /** For every model output: a plan that passes the policy dispatches to a restart, a scale or a rollback
      within bounds, to the replica count that the policy checked, and a rollback needs approval. */
  lemma ChainTheorem(
    settings: Settings, upper: Capitalisation, output: LlmOutput, component: string, parsing: Parsing, planId: Id,
    rootCause: string, service: string, namespace: string)
    ensures var rca := RunRca(upper, output, component, namespace, parsing);
            rca.Rca? ==>
              var p := PlanRemediation(planId, rca.actions, rootCause, service, namespace);
              p.Planned? ==>
                && p.plan.action in {RESTART_POD, SCALE_DEPLOYMENT, ROLLBACK_DEPLOYMENT}
                && (EvaluatePolicy(settings, p.plan).allowed ==>
                      && Dispatch(p.plan).Some?
                      && Bounded(settings, Dispatch(p.plan).value)
                      && (Dispatch(p.plan).value.ScaleTo? ==>
                            PyInt(Replicas(p.plan)) == Some(Dispatch(p.plan).value.replicas))
                      && (EvaluatePolicy(settings, p.plan).requiresHumanApproval <==> Dispatch(p.plan).value.RollBack?))
  {
    RcaIsPermitted(upper, output, component, namespace, parsing);
    var rca := RunRca(upper, output, component, namespace, parsing);
    if rca.Rca? && rca.actions != [] {
      assert rca.actions[0] in rca.actions;
      PermittedParses(upper, GetOr(rca.actions[0], "action", Str("")).s);
      var p := PlanRemediation(planId, rca.actions, rootCause, service, namespace);
      if p.Planned? {
        PolicyExact(settings, p.plan);
      }
    }
  }
}
