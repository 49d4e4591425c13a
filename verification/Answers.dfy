/** What becomes of each part of a model's answer: its texts, its objects, the fields of its first action, and the
    plan that the policy and the executor see. */
module Answers {
  import opened Schema
  import opened Remediation

  // ---------------------------------------------------------------- texts and objects

  lemma ContainsExact(s: string, word: string)
    ensures Contains(s, word) <==> exists a, b :: s == a + word + b
  {
    if Contains(s, word) {
      var i :| 0 <= i <= |s| - |word| && s[i..][..|word|] == word;
      assert s == s[..i] + word + s[i..][|word|..];
    }
    if a, b :| s == a + word + b {
      assert 0 <= |a| <= |s| - |word| && s[|a|..][..|word|] == word;
    }
  }

  lemma StripOneItem(upper: Capitalisation, item: Json, component: string, namespace: string)
    ensures Strip(upper, [item], component, namespace)
            == var one := StripOne(upper, item, component, namespace); if one.Some? then [one.value] else []
  {
    assert [item][..0] == [];
  }

  /** A text becomes a rollback if it mentions one in any case, else a restart, else a scale, else nothing, on the
      suspected component and with the text as its reason. */
  lemma TextBecomesItsAction(upper: Capitalisation, s: string, component: string, namespace: string)
    ensures var safe := Strip(upper, [Str(s)], component, namespace);
            if exists a, b :: upper(s) == a + "ROLLBACK" + b
            then safe == [Proposal("ROLLBACK_DEPLOYMENT", component, namespace, s)]
            else if exists a, b :: upper(s) == a + "RESTART" + b
            then safe == [Proposal("RESTART_POD", component, namespace, s)]
            else if exists a, b :: upper(s) == a + "SCALE" + b
            then safe == [Proposal("SCALE_DEPLOYMENT", component, namespace, s)]
            else safe == []
  {
    StripOneItem(upper, Str(s), component, namespace);
    ContainsExact(upper(s), "ROLLBACK");
    ContainsExact(upper(s), "RESTART");
    ContainsExact(upper(s), "SCALE");
  }

  /** An object is kept as it is if it names an allowed action in any case; everything else is dropped. */
  lemma ObjectIsKeptOrDropped(upper: Capitalisation, item: Json, component: string, namespace: string)
    requires !item.Str?
    ensures Strip(upper, [item], component, namespace)
            == if item.Obj?
                  && (exists s :: Lookup(item.fields, "action") == Some(Str(s))
                                  && upper(s) in {"RESTART_POD", "SCALE_DEPLOYMENT", "ROLLBACK_DEPLOYMENT"})
               then [item.fields] else []
  {
    StripOneItem(upper, item, component, namespace);
  }

  /** Nothing is lost or moved: stripping works item by item and keeps the order. */
  lemma {:induction false} StripConcat(
    upper: Capitalisation, a: seq<Json>, b: seq<Json>, component: string, namespace: string)
    ensures Strip(upper, a + b, component, namespace)
            == Strip(upper, a, component, namespace) + Strip(upper, b, component, namespace)
  {
    if b == [] {
      assert a + b == a;
    } else {
      StripConcat(upper, a, b[..|b| - 1], component, namespace);
      assert (a + b)[..|a + b| - 1] == a + b[..|b| - 1];
    }
  }

  // ---------------------------------------------------------------- the answer as a whole

  /** Which list is read: the first of three spellings with something in it. */
  lemma FirstSpellingCounts(fields: Fields, items: seq<Json>)
    requires items != []
    ensures Lookup(fields, "recommended_actions") == Some(List(items)) ==> RawActions(fields) == List(items)
    ensures Lookup(fields, "recommended_actions").None? && Lookup(fields, "recommendedActions") == Some(List(items)) ==>
              RawActions(fields) == List(items)
    ensures Lookup(fields, "recommended_actions").None? && Lookup(fields, "recommendedActions").None? ==>
              RawActions(fields) == (match Lookup(fields, "actions")
                                     case Some(j) => if Truthy(j) then j else List([])
                                     case None => List([]))
  {
  }

  /** What counts as nothing: null, false, zero and the empty text, list and object, so that the next spelling is
      read. */
  lemma EmptyValuesAreFalse(j: Json)
    ensures Truthy(j) <==> j !in {Null, Bool(false), Int(0), Float(0.0), Str(""), List([]), Obj([])}
  {
  }

  /** The recommendation, when the rest of the answer parses: the survivors of the list in their order, or a rollback
      of the suspected component if none survives; and none at all for an answer that is not JSON. */
  lemma RecommendsSurvivors(
    upper: Capitalisation, fields: Fields, items: seq<Json>, component: string, namespace: string, parsing: Parsing)
    requires RawActions(fields) == List(items)
    ensures var safe := Strip(upper, items, component, namespace);
            var rollback := [("action", Str("ROLLBACK_DEPLOYMENT")), ("target", Str(component)),
                             ("namespace", Str(namespace)),
                             ("reason", Str("Restore previous stable deployment revision"))];
            RunRca(upper, Response(fields), component, namespace, Fine) == Rca(if safe == [] then [rollback] else safe)
    ensures RunRca(upper, Response(fields), component, namespace, Caught) == Rca([])
    ensures RunRca(upper, Response(fields), component, namespace, Uncaught) == RcaRaised
    ensures RunRca(upper, NotJson, component, namespace, parsing) == Rca([])
    ensures RunRca(upper, NotAnObject, component, namespace, parsing) == RcaRaised
  {
  }

  /** A list that is not a list: a text is read letter by letter, an object key by key, each key once; a number or a
      truth value cannot be read, and then the diagnosis fails. */
  lemma OddLists(upper: Capitalisation, fields: Fields, component: string, namespace: string, parsing: Parsing)
    ensures var raw := RawActions(fields);
            && (raw.Str? ==> Elements(raw).Some? && |Elements(raw).value| == |raw.s|
                             && forall i :: 0 <= i < |raw.s| ==> Elements(raw).value[i] == Str([raw.s[i]]))
            && (raw.Obj? ==> Elements(raw).Some?
                             && (forall j :: j in Elements(raw).value ==> j.Str?)
                             && forall key :: Str(key) in Elements(raw).value <==> Lookup(raw.fields, key).Some?)
            && (raw.Bool? || raw.Int? || raw.Float? || raw.Null? ==>
                  RunRca(upper, Response(fields), component, namespace, parsing) == RcaRaised)
  {
    var raw := RawActions(fields);
    if raw.Obj? {
      var keys, items := Keys(raw.fields), Elements(raw).value;
      forall key ensures Str(key) in items <==> Lookup(raw.fields, key).Some? {
        KeysAreLookedUp(raw.fields, key);
        if key in keys {
          var i :| 0 <= i < |keys| && keys[i] == key;
          assert items[i] == Str(key);
        }
      }
    }
  }

  lemma {:induction false} KeysAreLookedUp(fields: Fields, key: string)
    ensures key in Keys(fields) <==> Lookup(fields, key).Some?
  {
    if fields != [] { KeysAreLookedUp(fields[..|fields| - 1], key); }
  }

  // ---------------------------------------------------------------- the plan

  function ActionName(a: Action): string {
    match a
    case RESTART_POD => "RESTART_POD"
    case SCALE_DEPLOYMENT => "SCALE_DEPLOYMENT"
    case ROLLBACK_DEPLOYMENT => "ROLLBACK_DEPLOYMENT"
    case CHANGE_CONFIG => "CHANGE_CONFIG"
    case DELETE_RESOURCE => "DELETE_RESOURCE"
    case DATABASE_MUTATION => "DATABASE_MUTATION"
  }

  lemma ActionsRoundTrip(text: string, a: Action)
    ensures ParseAction(text) == Some(a) <==> text == ActionName(a)
  {
    assert |"RESTART_POD"| == 11 && |"SCALE_DEPLOYMENT"| == 16 && |"ROLLBACK_DEPLOYMENT"| == 19;
    assert |"CHANGE_CONFIG"| == 13 && |"DELETE_RESOURCE"| == 15 && |"DATABASE_MUTATION"| == 17;
  }

  /** The text under a key, or the default where the key is missing; None for another type. */
  predicate IsText(fields: Fields, key: string, default: string, text: string) {
    match Lookup(fields, key)
    case None => text == default
    case Some(j) => j == Str(text)
  }

  /** The plan is the first action as the model put it: its name, its target and namespace or else the incident's own,
      the replicas it asked for or else 3, low risk for restarts and scales, and approval for anything riskier. */
  lemma PlanFollowsAnswer(planId: Id, actions: seq<Fields>, rootCause: string, service: string, namespace: string)
    ensures var p := PlanRemediation(planId, actions, rootCause, service, namespace);
            p.Planned? ==>
              && actions != [] && p.plan.planId == planId
              && Lookup(actions[0], "action") == Some(Str(ActionName(p.plan.action)))
              && IsText(actions[0], "target", service, p.plan.target)
              && IsText(actions[0], "namespace", namespace, p.plan.namespace)
              && p.plan.replicas == (if p.plan.action != SCALE_DEPLOYMENT then None
                                     else if Lookup(actions[0], "replicas").None? then Some(Int(3))
                                     else Lookup(actions[0], "replicas"))
              && (p.plan.riskLevel == LOW <==> p.plan.action in {RESTART_POD, SCALE_DEPLOYMENT})
              && (p.plan.requiresApproval <==> p.plan.riskLevel != LOW)
  {
    if actions != [] {
      var name := GetOr(actions[0], "action", Str(""));
      if name.Str? && ParseAction(name.s).Some? {
        ActionsRoundTrip(name.s, ParseAction(name.s).value);
        assert |ActionName(ParseAction(name.s).value)| > 0;
      }
    }
  }

  predicate NotText(fields: Fields, key: string) {
    Lookup(fields, key).Some? && !Lookup(fields, key).value.Str?
  }

  /** The action is named exactly so. */
  predicate Names(fields: Fields, a: Action) {
    Lookup(fields, "action") == Some(Str(ActionName(a)))
  }

  lemma NamesExact(fields: Fields, a: Action)
    ensures var name := GetOr(fields, "action", Str(""));
            Names(fields, a) <==> name.Str? && ParseAction(name.s) == Some(a)
  {
    var name := GetOr(fields, "action", Str(""));
    if name.Str? { ActionsRoundTrip(name.s, a); }
    assert |ActionName(a)| > 0;
  }

  /** Exactly when there is no plan, and exactly when planning raises: a field that should be a text is not. */
  lemma PlanMissesExactly(planId: Id, actions: seq<Fields>, rootCause: string, service: string, namespace: string)
    ensures var p := PlanRemediation(planId, actions, rootCause, service, namespace);
            var plannable := actions != []
                             && exists a :: a !in {DELETE_RESOURCE, DATABASE_MUTATION} && Names(actions[0], a);
            && (p.NoPlan? <==> !plannable)
            && (p.PlanRaises? <==>
                  plannable && (NotText(actions[0], "target") || NotText(actions[0], "namespace")
                                || NotText(actions[0], "reason")))
  {
    if actions != [] {
      var name := GetOr(actions[0], "action", Str(""));
      forall a
        ensures Names(actions[0], a) <==> name.Str? && ParseAction(name.s) == Some(a)
      {
        NamesExact(actions[0], a);
      }
    }
  }

  // ---------------------------------------------------------------- policy and dispatch

  /** The reason and the risk of every verdict: checks come in a fixed order, a rejected plan has high risk, or is
      forbidden, and an allowed one the risk of its action. */
  lemma VerdictExact(settings: Settings, plan: Plan)
    ensures var r, n := EvaluatePolicy(settings, plan), PyInt(Replicas(plan));
            var forbidden := plan.action in {DELETE_RESOURCE, DATABASE_MUTATION};
            var here := plan.namespace in settings.allowedNamespaces;
            var known := !forbidden && here && plan.target in settings.allowedDeployments;
            var scales := known && plan.action == SCALE_DEPLOYMENT;
            && (r.rejection == Some(ForbiddenAction) <==> forbidden)
            && (r.rejection == Some(NamespaceNotAllowed) <==> !forbidden && !here)
            && (r.rejection == Some(TargetNotAllowed) <==> !forbidden && here && !known)
            && (r.rejection == Some(InvalidParameter) <==> scales && n.None?)
            && (r.rejection == Some(ReplicaLimitExceeded) <==> scales && n.Some? && n.value > 10)
            && (r.rejection == Some(ReplicaMinimumViolated) <==> scales && n.Some? && n.value < 1)
            && (r.riskLevel == FORBIDDEN <==> forbidden)
            && (r.riskLevel == LOW <==> r.allowed && plan.action in {RESTART_POD, SCALE_DEPLOYMENT})
            && (r.riskLevel == MEDIUM <==> r.allowed && plan.action == ROLLBACK_DEPLOYMENT)
  {
  }

  /** What an action does is what the plan says: the same kind, target and namespace, and the number of replicas,
      where a missing one is 2 and true is 1. */
  lemma DispatchFollowsPlan(plan: Plan)
    ensures var d := Dispatch(plan);
            && (d.Some? ==> d.value.target == plan.target && d.value.namespace == plan.namespace)
            && (d.Some? && d.value.RestartPods? <==> plan.action == RESTART_POD)
            && (d.Some? && d.value.RollBack? <==> plan.action == ROLLBACK_DEPLOYMENT)
            && (d.Some? && d.value.ScaleTo? ==> plan.action == SCALE_DEPLOYMENT)
            && (plan.action == SCALE_DEPLOYMENT && plan.replicas.None? ==> d.Some? && d.value.replicas == 2)
            && (forall n :: plan.action == SCALE_DEPLOYMENT && plan.replicas == Some(Int(n)) ==>
                  d.Some? && d.value.replicas == n)
            && (forall b :: plan.action == SCALE_DEPLOYMENT && plan.replicas == Some(Bool(b)) ==>
                  d.Some? && d.value.replicas == if b then 1 else 0)
  {
  }
}
