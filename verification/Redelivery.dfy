/** Redelivered events change nothing: a serial run with repeats ends with the same tables as the run
    that keeps only first deliveries, at the same times. */
module Redelivery {
  import opened Schema
  import opened Correlator

  /** An earlier step delivered an event with this id that reached the database. */
  ghost predicate Seen(steps: seq<Step>, id: string) {
    exists s :: s in steps && s.Deliver? && Effective(s.event) && EventId(s.event) == id
  }

  /** A delivery whose id an earlier effective delivery already carried. */
  ghost predicate IsRepeat(before: seq<Step>, step: Step) {
    step.Deliver? && Seen(before, EventId(step.event))
  }

  ghost function WithoutRepeats(steps: seq<Step>): seq<Step> {
    if steps == [] then []
    else
      var init, last := steps[..|steps| - 1], steps[|steps| - 1];
      if IsRepeat(init, last) then WithoutRepeats(init) else WithoutRepeats(init) + [last]
  }

  lemma SeenLast(init: seq<Step>, last: Step, id: string)
    ensures Seen(init + [last], id)
            <==> Seen(init, id) || (last.Deliver? && Effective(last.event) && EventId(last.event) == id)
  {
    var steps := init + [last];
    assert last in steps && forall s :: s in init ==> s in steps;
  }

  lemma ApplyMarks(g: Graph, db: Db, step: Step, id: string)
    ensures id in Apply(g, db, step).processed
            <==> id in db.processed || (step.Deliver? && Effective(step.event) && EventId(step.event) == id)
  {
  }

  lemma RunLast(g: Graph, steps: seq<Step>)
    requires steps != []
    ensures Run(g, steps) == Apply(g, Run(g, steps[..|steps| - 1]), steps[|steps| - 1])
  {
  }

  /** The processed table holds exactly the ids of the effective deliveries. */
  lemma {:induction false} ProcessedIsSeen(g: Graph, steps: seq<Step>, id: string)
    ensures id in Run(g, steps).processed <==> Seen(steps, id)
  {
    if steps != [] {
      var init, last := steps[..|steps| - 1], steps[|steps| - 1];
      var marks := last.Deliver? && Effective(last.event) && EventId(last.event) == id;
      ProcessedIsSeen(g, init, id);
      assert Seen(steps, id) <==> Seen(init, id) || marks by {
        SeenLast(init, last, id);
        assert steps == init + [last];
      }
      assert id in Run(g, steps).processed <==> id in Run(g, init).processed || marks by {
        RunLast(g, steps);
        ApplyMarks(g, Run(g, init), last, id);
      }
    }
  }

  /** Repeats are no-ops, whatever they carry: holds for every delivery sequence. */
  lemma {:induction false} RedeliveryTheorem(g: Graph, steps: seq<Step>)
    ensures Run(g, steps) == Run(g, WithoutRepeats(steps))
  {
    if steps != [] {
      var init, last := steps[..|steps| - 1], steps[|steps| - 1];
      RedeliveryTheorem(g, init);
      if IsRepeat(init, last) {
        ProcessedIsSeen(g, init, EventId(last.event));
      } else {
        var kept := WithoutRepeats(init) + [last];
        assert kept[..|kept| - 1] == WithoutRepeats(init);
      }
    }
  }

  /** Exactly when one more delivery changes nothing: the event does not reach the database, or an
      effective delivery of its id came before. */
  lemma NoOpExactlyWhenSeen(g: Graph, before: seq<Step>, e: RawEvent, now: Time, pick: nat)
    ensures Run(g, before + [Deliver(e, now, pick)]) == Run(g, before) <==> !Effective(e) || Seen(before, EventId(e))
  {
    assert (before + [Deliver(e, now, pick)])[..|before|] == before;
    ProcessedIsSeen(g, before, EventId(e));
    var db' := Run(g, before + [Deliver(e, now, pick)]);
    assert Effective(e) ==> EventId(e) in db'.processed;
  }

  ghost predicate Carries(step: Step, id: string) {
    step.Deliver? && EventId(step.event) == id
  }

  /** Step j is the first delivery of its event id. */
  ghost predicate IsFirst(steps: seq<Step>, j: nat) {
    && j < |steps| && steps[j].Deliver?
    && forall i :: 0 <= i < j ==> !Carries(steps[i], EventId(steps[j].event))
  }

  ghost predicate Carried(steps: seq<Step>, id: string) {
    exists s :: s in steps && Carries(s, id)
  }

  /** Keep only the first delivery of each event id, effective or not. */
  ghost function FirstDeliveries(steps: seq<Step>): seq<Step> {
    if steps == [] then []
    else
      var init, last := steps[..|steps| - 1], steps[|steps| - 1];
      if last.Deliver? && Carried(init, EventId(last.event)) then FirstDeliveries(init)
      else FirstDeliveries(init) + [last]
  }

  /** No event id comes first with an event that leaves no mark, a resolved or malformed one, and later with one
      that does. */
  ghost predicate NoneRevived(steps: seq<Step>) {
    forall j: nat, k: nat ::
      IsFirst(steps, j) && !Effective(steps[j].event) && j < k < |steps|
      && Carries(steps[k], EventId(steps[j].event)) ==>
        !Effective(steps[k].event)
  }

  lemma {:induction false} FirstCarrier(steps: seq<Step>, id: string) returns (j: nat)
    requires Carried(steps, id)
    ensures IsFirst(steps, j) && Carries(steps[j], id)
  {
    var init := steps[..|steps| - 1];
    if Carried(init, id) {
      j := FirstCarrier(init, id);
    } else {
      j := |steps| - 1;
      forall i | 0 <= i < j ensures !Carries(steps[i], id) { assert init[i] in init; }
    }
  }

  lemma FirstInLonger(init: seq<Step>, last: Step)
    ensures forall j: nat :: IsFirst(init, j) ==> IsFirst(init + [last], j)
    ensures last.Deliver? && !Carried(init, EventId(last.event)) ==> IsFirst(init + [last], |init|)
  {
    if last.Deliver? && !Carried(init, EventId(last.event)) {
      forall i | 0 <= i < |init| ensures !Carries(init[i], EventId(last.event)) { assert init[i] in init; }
    }
  }

  lemma {:induction false} FirstDeliveriesAreFirst(steps: seq<Step>, s: Step)
    requires s in FirstDeliveries(steps) && s.Deliver?
    ensures exists j: nat :: IsFirst(steps, j) && steps[j] == s
  {
    var init, last := steps[..|steps| - 1], steps[|steps| - 1];
    assert steps == init + [last];
    FirstInLonger(init, last);
    if s in FirstDeliveries(init) {
      FirstDeliveriesAreFirst(init, s);
      var j: nat :| IsFirst(init, j) && init[j] == s;
      assert IsFirst(steps, j);
    } else {
      assert s == last && !Carried(init, EventId(last.event));
      assert IsFirst(steps, |init|);
    }
  }

  lemma PrefixNoneRevived(steps: seq<Step>)
    requires NoneRevived(steps) && steps != []
    ensures NoneRevived(steps[..|steps| - 1])
  {
    var init := steps[..|steps| - 1];
    assert forall j: nat :: IsFirst(init, j) ==> IsFirst(steps, j) && init[j] == steps[j];
  }

  lemma LaterDeliveryIsSeen(steps: seq<Step>, init: seq<Step>, last: Step)
    requires steps == init + [last] && NoneRevived(steps) && last.Deliver? && Effective(last.event)
    requires Carried(init, EventId(last.event))
    ensures Seen(init, EventId(last.event))
  {
    var j := FirstCarrier(init, EventId(last.event));
    assert steps[j] == init[j] && steps[|init|] == last && IsFirst(steps, j);
    assert Effective(steps[j].event);
    assert init[j] in init;
  }

  lemma LaterDeliveryIsNoOp(g: Graph, steps: seq<Step>, init: seq<Step>, last: Step)
    requires steps == init + [last] && NoneRevived(steps) && last.Deliver? && Carried(init, EventId(last.event))
    ensures Run(g, steps) == Run(g, init)
  {
    assert steps == init + [Deliver(last.event, last.now, last.pick)];
    NoOpExactlyWhenSeen(g, init, last.event, last.now, last.pick);
    if Effective(last.event) { LaterDeliveryIsSeen(steps, init, last); }
  }

  lemma OneMoreStep(g: Graph, steps: seq<Step>, init: seq<Step>, last: Step)
    requires steps == init + [last] && Run(g, init) == Run(g, FirstDeliveries(init))
    requires last.Deliver? && Carried(init, EventId(last.event)) ==> Run(g, steps) == Run(g, init)
    ensures Run(g, steps) == Run(g, FirstDeliveries(steps))
  {
    assert steps[..|steps| - 1] == init;
    if !(last.Deliver? && Carried(init, EventId(last.event))) {
      var kept := FirstDeliveries(init) + [last];
      assert kept[..|kept| - 1] == FirstDeliveries(init);
    }
  }

  lemma {:induction false} KeepsTables(g: Graph, steps: seq<Step>)
    requires NoneRevived(steps)
    ensures Run(g, steps) == Run(g, FirstDeliveries(steps))
  {
    if steps != [] {
      var init, last := steps[..|steps| - 1], steps[|steps| - 1];
      assert steps == init + [last];
      assert Run(g, init) == Run(g, FirstDeliveries(init)) by {
        PrefixNoneRevived(steps);
        KeepsTables(g, init);
      }
      assert last.Deliver? && Carried(init, EventId(last.event)) ==> Run(g, steps) == Run(g, init) by {
        if last.Deliver? && Carried(init, EventId(last.event)) { LaterDeliveryIsNoOp(g, steps, init, last); }
      }
      OneMoreStep(g, steps, init, last);
    }
  }

  lemma RevivedIsSeen(steps: seq<Step>, j: nat, k: nat)
    requires IsFirst(steps, j) && !Effective(steps[j].event) && j < k < |steps|
    requires Carries(steps[k], EventId(steps[j].event)) && Effective(steps[k].event)
    ensures Seen(steps, EventId(steps[j].event)) && !Seen(FirstDeliveries(steps), EventId(steps[j].event))
  {
    var id := EventId(steps[j].event);
    assert steps[k] in steps;
    if Seen(FirstDeliveries(steps), id) {
      var s :| s in FirstDeliveries(steps) && s.Deliver? && Effective(s.event) && EventId(s.event) == id;
      FirstDeliveriesAreFirst(steps, s);
      var i: nat :| IsFirst(steps, i) && steps[i] == s;
      assert Carries(steps[i], id) && i != j;
      assert Carries(steps[j], EventId(s.event));
      assert false;
    }
  }

  /** Exactly when the tables after any deliveries equal the tables after only the first delivery of each id: no
      id is revived. */
  lemma FirstDeliveriesSufficeExactlyWhenNoneRevived(g: Graph, steps: seq<Step>)
    ensures Run(g, steps) == Run(g, FirstDeliveries(steps)) <==> NoneRevived(steps)
  {
    if NoneRevived(steps) {
      KeepsTables(g, steps);
    } else {
      var j: nat, k: nat :| IsFirst(steps, j) && !Effective(steps[j].event) && j < k < |steps|
                            && Carries(steps[k], EventId(steps[j].event)) && Effective(steps[k].event);
      RevivedIsSeen(steps, j, k);
      RunsDiffer(g, steps, FirstDeliveries(steps), EventId(steps[j].event));
    }
  }

  lemma RunsDiffer(g: Graph, a: seq<Step>, b: seq<Step>, id: string)
    requires Seen(a, id) && !Seen(b, id)
    ensures Run(g, a) != Run(g, b)
  {
    ProcessedIsSeen(g, a, id);
    ProcessedIsSeen(g, b, id);
  }

  /** An event id determines its event. */
  ghost predicate IdsDetermineEvents(steps: seq<Step>) {
    forall s, t :: s in steps && t in steps && s.Deliver? && t.Deliver? && EventId(s.event) == EventId(t.event) ==>
      s.event == t.event
  }

  /** In particular it does when ids determine events. */
  lemma FirstDeliveriesTheorem(g: Graph, steps: seq<Step>)
    requires IdsDetermineEvents(steps)
    ensures Run(g, steps) == Run(g, FirstDeliveries(steps))
  {
    FirstDeliveriesSufficeExactlyWhenNoneRevived(g, steps);
    forall j: nat, k: nat | IsFirst(steps, j) && j < k < |steps| && Carries(steps[k], EventId(steps[j].event))
      ensures steps[k].event == steps[j].event
    {
      assert steps[j] in steps && steps[k] in steps;
    }
  }

  /** The condition can fail: a resolved alert leaves no processed mark, so a firing alert
      that reuses its id is still handled. */
  lemma IdReuseIsNotARepeat(g: Graph)
    ensures var resolved := RawEvent(Some("x"), None, None, None, None, Some("resolved"));
            var steps := [Deliver(resolved, 0, 0), Deliver(resolved.(status := Some("firing")), 0, 0)];
            Run(g, steps) != Run(g, FirstDeliveries(steps))
  {
    var resolved := RawEvent(Some("x"), None, None, None, None, Some("resolved"));
    var firing := resolved.(status := Some("firing"));
    var steps := [Deliver(resolved, 0, 0), Deliver(firing, 0, 0)];
    assert "firing" != "resolved" by { assert |"firing"| == 6 && |"resolved"| == 8; }
    assert Effective(firing) && !Effective(resolved);
    FirstDeliveriesSufficeExactlyWhenNoneRevived(g, steps);
    assert IsFirst(steps, 0) && Carries(steps[1], EventId(steps[0].event));
  }
}
