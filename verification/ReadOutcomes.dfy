// What a wait on the all-layer read plan comes to, and what stopping and
// failing do to the layers still to come.
module ReadOutcomes {
  import opened ReadPlan

  // ---- one look, one finish ----

  // In every run: a layer whose event is out is handed over, whatever else has
  // happened; otherwise a recorded failure ends the wait; otherwise a stop or
  // the deadline ends it and is recorded; and only otherwise does the waiter
  // sleep.
  lemma LookOutcome(layers: nat, steps: seq<Step>, p: Plan, timedOut: bool, seen: bool)
    requires layers >= 1 && Reaches(layers, steps, p) && Enabled(p, Look(timedOut, seen))
    ensures var c, p' := p.waiter.c, Apply(p, Look(timedOut, seen));
            if c < p.exposed then p' == p.(waiter := Holding(c, c))
            else if p.failure then p' == p.(waiter := Idle)
            else if p.stop || timedOut then p' == p.(waiter := Idle, failure := true, owed := p.owed + 1)
            else p' == p.(waiter := Sleeping(c))
  {
    hide Reaches;
    RunKeeps(layers, steps, p);
  }

  // In every run: the next layer in order is logged as waited for, a layer
  // waited for before changes nothing, and any other is an error.
  lemma FinishOutcome(layers: nat, steps: seq<Step>, p: Plan, seen: bool)
    requires layers >= 1 && Reaches(layers, steps, p) && Enabled(p, FinishWait(seen))
    ensures var c, p' := p.waiter.c, Apply(p, FinishWait(seen));
            if c < |p.firsts| then p' == p.(waiter := Idle)
            else if c == |p.firsts| then
              p' == p.(waiter := Idle, waited := p.waited + {c}, firsts := p.firsts + [c])
            else p'.waiter.Idle? && p'.failure && p'.firsts == p.firsts && p'.waited == p.waited
  {
    hide Reaches;
    RunKeeps(layers, steps, p);
  }

  // ---- whole waits ----

  // Wait for the layers first, first + 1, ... one after the other.
  function WaitSteps(first: nat, deadlines: seq<bool>): seq<Step> {
    if deadlines == [] then []
    else
      var n := |deadlines| - 1;
      WaitSteps(first, deadlines[..n]) +
      [BeginWait(first + n, true, false), Look(deadlines[n], false), FinishWait(false)]
  }

  // One wait for the next layer, when its event is out.
  lemma WaitOne(layers: nat, steps: seq<Step>, p: Plan, timedOut: bool) returns (end: Plan)
    requires layers >= 1 && Reaches(layers, steps, p) && p.waiter.Idle?
    requires |p.firsts| < p.exposed
    ensures var c := |p.firsts|;
            && Reaches(layers, steps + [BeginWait(c, true, false), Look(timedOut, false), FinishWait(false)], end)
            && end == p.(waited := p.waited + {c}, firsts := p.firsts + [c])
  {
    hide Reaches;
    RunKeeps(layers, steps, p);
    var c := |p.firsts|;
    var a, b, d := BeginWait(c, true, false), Look(timedOut, false), FinishWait(false);
    ReachStep(layers, steps, p, a);
    var p1 := Apply(p, a);
    ReachStep(layers, steps + [a], p1, b);
    LookOutcome(layers, steps + [a], p1, timedOut, false);
    var p2 := Apply(p1, b);
    ReachStep(layers, steps + [a] + [b], p2, d);
    FinishOutcome(layers, steps + [a] + [b], p2, false);
    end := Apply(p2, d);
    assert steps + [a] + [b] + [d] == steps + [a, b, d];
  }

  lemma {:induction false} WaitMany(layers: nat, steps: seq<Step>, p: Plan, deadlines: seq<bool>) returns (end: Plan)
    requires layers >= 1 && Reaches(layers, steps, p) && p.waiter.Idle?
    requires |p.firsts| + |deadlines| <= p.exposed
    ensures Reaches(layers, steps + WaitSteps(|p.firsts|, deadlines), end)
    ensures end == p.(waited := end.waited, firsts := Counting(|p.firsts| + |deadlines|))
  {
    hide Reaches, Counting;
    RunKeeps(layers, steps, p);
    if deadlines == [] {
      end := p;
      assert steps + WaitSteps(|p.firsts|, deadlines) == steps;
    } else {
      var n := |deadlines| - 1;
      var front := WaitSteps(|p.firsts|, deadlines[..n]);
      var mid := WaitMany(layers, steps, p, deadlines[..n]);
      end := WaitOne(layers, steps + front, mid, deadlines[n]);
      NextFirst(mid.firsts);
      var last := [BeginWait(|p.firsts| + n, true, false), Look(deadlines[n], false), FinishWait(false)];
      assert steps + front + last == steps + (front + last);
    }
  }

  // EVERY LAYER ARRIVES. Once the feeder has finished without failure or stop,
  // waiting for the remaining layers in order succeeds for every one of them,
  // even past each deadline, and completes the plan.
  lemma EveryWaitSucceeds(layers: nat, steps: seq<Step>, p: Plan, deadlines: seq<bool>) returns (end: Plan)
    requires layers >= 1 && Reaches(layers, steps, p)
    requires p.feeder.Done? && !p.failure && !p.stop && p.waiter.Idle? && |deadlines| == layers - |p.firsts|
    ensures Reaches(layers, steps + WaitSteps(|p.firsts|, deadlines), end)
    ensures end.firsts == Counting(layers) && !end.failure && end.waiter.Idle? && Complete(end)
  {
    RunKeeps(layers, steps, p);
    AllExposed(layers, steps, p);
    end := WaitMany(layers, steps, p, deadlines);
    CompleteMeans(layers, steps + WaitSteps(|p.firsts|, deadlines), end);
  }

  lemma AllExposed(layers: nat, steps: seq<Step>, p: Plan)
    requires layers >= 1 && Reaches(layers, steps, p) && p.feeder.Done? && !p.failure && !p.stop
    ensures p.exposed == layers && p.submitted == Counting(layers)
  {
    hide Reaches, Counting;
    RunKeeps(layers, steps, p);
  }

  // What the end-of-step check of the plan asks.
  predicate Complete(p: Plan) { p.nextRead == p.layers && forall c: nat :: c < p.layers ==> c in p.waited }

  // In every run the check passes exactly when every layer has been waited for
  // successfully, in order; and then each was submitted exactly once.
  lemma CompleteMeans(layers: nat, steps: seq<Step>, p: Plan)
    requires layers >= 1 && Reaches(layers, steps, p)
    ensures Complete(p) <==> p.firsts == Counting(layers)
    ensures Complete(p) ==> p.submitted == Counting(layers)
  {
    hide Reaches;
    RunKeeps(layers, steps, p);
    if Complete(p) {
      assert |p.firsts| in p.waited <==> |p.firsts| < |p.firsts|;
    }
    assert p.firsts == Counting(layers) ==> |p.firsts| == layers;
  }

  // ---- after a stop or a failure ----

  // Any continuation of a run.
  ghost predicate Follows(p: Plan, steps: seq<Step>, end: Plan) {
    if steps == [] then end == p
    else
      var front, last := steps[..|steps| - 1], steps[|steps| - 1];
      exists mid :: Follows(p, front, mid) && Enabled(mid, last) && end == Apply(mid, last)
  }

  // Layers the feeder may still submit once a failure is on record: the one it
  // has already entered.
  function Allowance(p: Plan): nat { if p.feeder.Entered? then 1 else 0 }

  lemma StopStep(p: Plan, step: Step)
    requires Enabled(p, step)
    ensures p.stop ==> Apply(p, step).stop && Apply(p, step).submitted == p.submitted
    ensures p.failure ==> Apply(p, step).failure
    ensures p.failure ==>
              |Apply(p, step).submitted| + Allowance(Apply(p, step)) <= |p.submitted| + Allowance(p)
    ensures |p.submitted| <= |Apply(p, step).submitted|
  {
  }

  // After a stop no layer is submitted any more; after a failure at most the
  // one the feeder had already entered. Neither is ever withdrawn.
  lemma {:induction false} StopAndFailureAreFinal(p: Plan, steps: seq<Step>, end: Plan)
    requires Follows(p, steps, end)
    ensures p.stop ==> end.stop && end.submitted == p.submitted
    ensures p.failure ==> end.failure && |end.submitted| + Allowance(end) <= |p.submitted| + Allowance(p)
  {
    hide Apply, Enabled, Allowance;
    if steps != [] {
      var front, last := steps[..|steps| - 1], steps[|steps| - 1];
      var mid :| Follows(p, front, mid) && Enabled(mid, last) && end == Apply(mid, last);
      StopAndFailureAreFinal(p, front, mid);
      StopStep(mid, last);
    }
  }

  // A submission that fails, a hook that fails, and a failure reported from a
  // completion are on record at once; an abort sets the stop.
  lemma FailuresAreRecorded(p: Plan, step: Step)
    requires Enabled(p, step)
    ensures step.ReportFailure? ==> Apply(p, step).failure
    ensures step.FeederAttach? && step.fails ==> Apply(p, step).failure
    ensures step.FeederLoad? && !step.out.LoadOk? && p.feeder.c !in p.handles && !p.stop ==> Apply(p, step).failure
    ensures step.BeginWait? && (step.c >= p.layers || !step.mapped) ==> Apply(p, step).failure
    ensures step.AbortStop? || step.FeederStop? ==> Apply(p, step).stop
  {
  }
}
