// The all-layer read plan: a feeder thread submits layers in order while the
// compute thread waits for them, completions may report failure, and another
// thread may abort. Threads interleave at every shared access.
module ReadPlan {
  // The feeder between two shared accesses, with the layer it is at. A crash
  // ends the loop, a failed submission only that layer.
  datatype Feeder =
    | Loop(c: nat)                    // top of the loop, layer c next
    | Entered(c: nat)                 // inside the submission of layer c
    | Loaded(c: nat)                  // I/O submitted, handle not yet recorded
    | Registered(c: nat)              // handle recorded, event not yet exposed
    | Exposed(c: nat)                 // event exposed, completion hook not yet attached
    | FailSet(c: nat, crash: bool)    // failure recorded, waiters not yet notified
    | FailTold(c: nat, crash: bool)   // waiters notified, stop not yet set
    | Finishing                       // loop left, last notification outstanding
    | Done

  datatype Waiter =
    | Idle
    | Checking(c: nat)           // holds the condition, about to look
    | Sleeping(c: nat)           // waits for a notification
    | Holding(c: nat, ev: nat)   // found its event

  datatype Aborter = Calm | StopSet | Told

  // `events` maps a layer to the layer its event belongs to. `submitted`,
  // `eventless` (a submission came back without an event) and `firsts` are
  // logs; `exposed` counts the events handed out; `owed` counts the threads
  // that have recorded a failure and not yet notified.
  datatype Plan = Plan(
    layers: nat, submitted: seq<nat>, eventless: bool, handles: set<nat>, nextRead: nat, events: map<nat, nat>,
    exposed: nat, waited: set<nat>, firsts: seq<nat>, failure: bool, stop: bool, owed: nat,
    feeder: Feeder, waiter: Waiter, aborter: Aborter)

  datatype LoadOutcome = LoadOk | LoadFails | LoadedWithoutEvent | FenceFails

  // Recording a failure looks first whether one is there; `seen` is what it
  // saw, possibly long before it writes.
  datatype Step =
    | FeederCheck | FeederLoad(out: LoadOutcome, seen: bool) | FeederRegister | FeederExpose
    | FeederAttach(fails: bool, seen: bool) | FeederTell | FeederStop | FeederFinish
    | BeginWait(c: nat, mapped: bool, seen: bool) | Look(timedOut: bool, seen: bool) | WakeUp | FinishWait(seen: bool)
    | ReportFailure(seen: bool) | Notify
    | AbortStop | AbortTell

  predicate IsFeederStep(step: Step) {
    step.FeederCheck? || step.FeederLoad? || step.FeederRegister? || step.FeederExpose? || step.FeederAttach? ||
    step.FeederTell? || step.FeederStop? || step.FeederFinish?
  }

  function Woken(w: Waiter): Waiter { if w.Sleeping? then Checking(w.c) else w }

  // The constructor has submitted layer 0; a single-layer plan has no feeder.
  function Started(layers: nat): Plan {
    Plan(layers, [0], false, {0}, 1, map[0 := 0], 1, {}, [], false, false, 0,
         if layers == 1 then Done else Loop(1), Idle, Calm)
  }

  predicate Enabled(p: Plan, step: Step) {
    match step
    case FeederCheck => p.feeder.Loop?
    case FeederLoad(_, seen) => p.feeder.Entered? && (seen ==> p.failure)
    case FeederRegister => p.feeder.Loaded?
    case FeederExpose => p.feeder.Registered?
    case FeederAttach(_, seen) => p.feeder.Exposed? && (seen ==> p.failure)
    case FeederTell => p.feeder.FailSet?
    case FeederStop => p.feeder.FailTold?
    case FeederFinish => p.feeder.Finishing?
    case BeginWait(_, _, seen) => p.waiter.Idle? && (seen ==> p.failure)
    case Look(_, seen) => p.waiter.Checking? && (seen ==> p.failure)
    case WakeUp => p.waiter.Sleeping?
    case FinishWait(seen) => p.waiter.Holding? && (seen ==> p.failure)
    case ReportFailure(seen) => seen ==> p.failure
    case Notify => p.owed > 0
    case AbortStop => !p.aborter.StopSet?
    case AbortTell => p.aborter.StopSet?
  }

  function Fail(p: Plan, seen: bool): Plan { if seen then p else p.(failure := true, owed := p.owed + 1) }

  // The feeder's own failures: recorded, then told, then the stop flag.
  function FeederFails(p: Plan, c: nat, crash: bool, seen: bool): Plan {
    if seen then p.(feeder := FailTold(c, crash)) else p.(failure := true, feeder := FailSet(c, crash))
  }

  function Apply(p: Plan, step: Step): Plan
    requires Enabled(p, step)
  {
    match step
    case FeederCheck =>
      p.(feeder := if p.feeder.c >= p.layers || p.stop || p.failure then Finishing else Entered(p.feeder.c))
    case FeederLoad(out, seen) =>
      var c := p.feeder.c;
      if c in p.handles || p.stop then p.(feeder := Loop(c + 1))
      else
        (match out
         case LoadOk => p.(submitted := p.submitted + [c], feeder := Loaded(c))
         case LoadFails => FeederFails(p, c, false, seen)
         case LoadedWithoutEvent => FeederFails(p.(submitted := p.submitted + [c], eventless := true), c, false, seen)
         case FenceFails => FeederFails(p, c, true, seen))
    case FeederRegister =>
      p.(handles := p.handles + {p.feeder.c},
         nextRead := if p.nextRead > p.feeder.c then p.nextRead else p.feeder.c + 1, feeder := Registered(p.feeder.c))
    case FeederExpose =>
      p.(events := p.events[p.feeder.c := p.feeder.c], exposed := p.exposed + 1, waiter := Woken(p.waiter),
         feeder := Exposed(p.feeder.c))
    case FeederAttach(fails, seen) =>
      if fails then FeederFails(p, p.feeder.c + 1, true, seen) else p.(feeder := Loop(p.feeder.c + 1))
    case FeederTell => p.(waiter := Woken(p.waiter), feeder := FailTold(p.feeder.c, p.feeder.crash))
    case FeederStop => p.(stop := true, feeder := if p.feeder.crash then Finishing else Loop(p.feeder.c + 1))
    case FeederFinish => p.(waiter := Woken(p.waiter), feeder := Done)
    case BeginWait(c, mapped, seen) => if c >= p.layers || !mapped then Fail(p, seen) else p.(waiter := Checking(c))
    case Look(timedOut, seen) =>
      var c := p.waiter.c;
      if c in p.events then p.(waiter := Holding(c, p.events[c]))
      else if p.failure then p.(waiter := Idle)
      else if p.stop || timedOut then Fail(p, seen).(waiter := Idle)
      else p.(waiter := Sleeping(c))
    case WakeUp => p.(waiter := Woken(p.waiter))
    case FinishWait(seen) =>
      var c := p.waiter.c;
      if c in p.waited then p.(waiter := Idle)
      else if c != |p.waited| then Fail(p, seen).(waiter := Idle)
      else p.(waited := p.waited + {c}, firsts := p.firsts + [c], waiter := Idle)
    case ReportFailure(seen) => Fail(p, seen)
    case Notify => p.(owed := p.owed - 1, waiter := Woken(p.waiter))
    case AbortStop => p.(stop := true, aborter := StopSet)
    case AbortTell => p.(aborter := Told, waiter := Woken(p.waiter))
  }

  // ---- the invariant ----

  function Counting(n: nat): (r: seq<nat>)
    ensures |r| == n && forall i :: 0 <= i < n ==> r[i] == i
  {
    seq(n, i => i)
  }

  ghost predicate FailedAt(p: Plan, c: nat, crash: bool, m: nat, h: nat, k: nat) {
    c <= p.layers && (!crash ==> c < p.layers) && p.failure && h == k == c && (m == c || (m == c + 1 && !crash))
  }

  // How far submissions (m), handles (h) and events (k) have got.
  ghost predicate FeederOk(p: Plan, m: nat, h: nat, k: nat) {
    match p.feeder
    case Loop(c) =>
      1 <= c <= p.layers && h == k && (p.stop || k == c) && (m == h || (m == h + 1 && p.failure && p.stop))
    case Entered(c) => c < p.layers && m == h == k == c
    case Loaded(c) => c < p.layers && m == c + 1 && h == k == c
    case Registered(c) => c < p.layers && m == h == c + 1 && k == c
    case Exposed(c) => c < p.layers && m == h == k == c + 1
    case FailSet(c, crash) => FailedAt(p, c, crash, m, h, k)
    case FailTold(c, crash) => FailedAt(p, c, crash, m, h, k)
    case Finishing => h == k && (k == p.layers || p.stop || p.failure) && (m == h || (m == h + 1 && p.failure))
    case Done => h == k && (k == p.layers || p.stop || p.failure) && (m == h || (m == h + 1 && p.failure))
  }

  // A sleeping waiter's layer is not there yet, and whoever made failure or
  // stop visible still has a notification to give.
  ghost predicate WaiterOk(p: Plan) {
    match p.waiter
    case Idle => true
    case Checking(c) => c < p.layers
    case Holding(c, ev) => c in p.events && ev == c
    case Sleeping(c) =>
      && c < p.layers && c !in p.events
      && (p.failure ==> p.owed > 0 || !p.feeder.Done?)
      && (p.stop ==> p.aborter.StopSet? || !p.feeder.Done?)
  }

  ghost predicate Prefix(s: set<nat>, n: nat) { |s| == n && forall c: nat :: c in s <==> c < n }

  // What the feeder has done so far.
  ghost predicate Feeding(p: Plan) {
    && p.layers >= 1 && |p.submitted| <= p.layers && p.exposed <= p.layers
    && p.submitted == Counting(|p.submitted|)
    && (forall c: nat :: c in p.handles <==> c < p.nextRead)
    && (forall c: nat :: c in p.events <==> c < p.exposed) && (forall c :: c in p.events ==> p.events[c] == c)
    && FeederOk(p, |p.submitted|, p.nextRead, p.exposed)
    && (p.eventless <==> |p.submitted| > p.nextRead && !p.feeder.Loaded?)
  }

  // What the compute thread has waited for.
  ghost predicate Waiting(p: Plan) {
    p.firsts == Counting(|p.firsts|) && |p.firsts| <= p.exposed && Prefix(p.waited, |p.firsts|)
  }

  ghost predicate Inv(p: Plan) { Feeding(p) && Waiting(p) && WaiterOk(p) }

  lemma FeederKeeps(p: Plan, step: Step)
    requires Inv(p) && Enabled(p, step)
    requires step.FeederCheck? || step.FeederAttach? || step.FeederTell? || step.FeederStop? || step.FeederFinish?
    ensures Inv(Apply(p, step))
  {
    FeederMoves(p, step);
    hide Feeding, FeederOk, Counting, Prefix;
  }

  lemma FeederMoves(p: Plan, step: Step)
    requires Feeding(p) && Enabled(p, step)
    requires step.FeederCheck? || step.FeederAttach? || step.FeederTell? || step.FeederStop? || step.FeederFinish?
    ensures Feeding(Apply(p, step))
  {
    hide Counting;
  }

  lemma LoadKeeps(p: Plan, out: LoadOutcome, seen: bool)
    requires Inv(p) && Enabled(p, FeederLoad(out, seen))
    ensures Inv(Apply(p, FeederLoad(out, seen)))
  {
    hide Counting, Prefix;
    NextFirst(p.submitted);
  }

  lemma ExposeKeeps(p: Plan, step: Step)
    requires Inv(p) && Enabled(p, step) && (step.FeederExpose? || step.FeederRegister?)
    ensures Inv(Apply(p, step))
  {
    hide Counting, Prefix;
  }

  lemma WaiterKeeps(p: Plan, step: Step)
    requires Inv(p) && Enabled(p, step)
    requires step.BeginWait? || step.Look? || step.WakeUp?
    ensures Inv(Apply(p, step))
  {
    FeedingFrame(p, Apply(p, step));
    hide Feeding, Counting, Prefix;
  }

  lemma FinishKeeps(p: Plan, seen: bool)
    requires Inv(p) && Enabled(p, FinishWait(seen))
    ensures Inv(Apply(p, FinishWait(seen)))
  {
    FeedingFrame(p, Apply(p, FinishWait(seen)));
    NextFirst(p.firsts);
    NextPrefix(p.waited, |p.firsts|);
    HeldIsExposed(p);
    hide Feeding, Counting, Prefix;
  }

  // A layer whose event is held has been exposed.
  lemma HeldIsExposed(p: Plan)
    requires Feeding(p) && WaiterOk(p) && p.waiter.Holding?
    ensures p.waiter.c < p.exposed
  {
    hide Counting, FeederOk;
  }

  lemma NextPrefix(s: set<nat>, n: nat)
    requires Prefix(s, n)
    ensures Prefix(s + {n}, n + 1) && |s| == n
  {
  }

  lemma NextFirst(log: seq<nat>)
    requires log == Counting(|log|)
    ensures log + [|log|] == Counting(|log| + 1)
  {
  }

  // The other threads do not disturb the feeder.
  lemma FeedingFrame(p: Plan, p': Plan)
    requires Feeding(p) && (p.stop ==> p'.stop) && (p.failure ==> p'.failure)
    requires p' == p.(waited := p'.waited, firsts := p'.firsts, failure := p'.failure, stop := p'.stop, owed := p'.owed,
                      waiter := p'.waiter, aborter := p'.aborter)
    ensures Feeding(p')
  {
    hide Counting;
  }

  lemma OthersKeep(p: Plan, step: Step)
    requires Inv(p) && Enabled(p, step)
    requires step.ReportFailure? || step.Notify? || step.AbortStop? || step.AbortTell?
    ensures Inv(Apply(p, step))
  {
    FeedingFrame(p, Apply(p, step));
    hide Feeding, Counting, Prefix;
  }

  lemma StepKeeps(p: Plan, step: Step)
    requires Inv(p) && Enabled(p, step)
    ensures Inv(Apply(p, step))
  {
    hide Inv, Apply, Enabled;
    match step {
      case FeederRegister => ExposeKeeps(p, step);
      case FeederExpose => ExposeKeeps(p, step);
      case FeederCheck => FeederKeeps(p, step);
      case FeederLoad(out, seen) => LoadKeeps(p, out, seen);
      case FeederAttach(_, _) => FeederKeeps(p, step);
      case FeederTell => FeederKeeps(p, step);
      case FeederStop => FeederKeeps(p, step);
      case FeederFinish => FeederKeeps(p, step);
      case BeginWait(_, _, _) => WaiterKeeps(p, step);
      case Look(_, _) => WaiterKeeps(p, step);
      case WakeUp => WaiterKeeps(p, step);
      case FinishWait(seen) => FinishKeeps(p, seen);
      case ReportFailure(_) => OthersKeep(p, step);
      case Notify => OthersKeep(p, step);
      case AbortStop => OthersKeep(p, step);
      case AbortTell => OthersKeep(p, step);
    }
  }

  // ---- every run ----

  ghost predicate Reaches(layers: nat, steps: seq<Step>, end: Plan) {
    if steps == [] then end == Started(layers)
    else
      var front, last := steps[..|steps| - 1], steps[|steps| - 1];
      exists mid :: Reaches(layers, front, mid) && Enabled(mid, last) && end == Apply(mid, last)
  }

  lemma StartedInv(layers: nat)
    requires layers >= 1
    ensures Inv(Started(layers))
  {
    assert [0] == Counting(1) && [] == Counting(0) && Prefix({}, 0);
  }

  lemma {:induction false} RunKeeps(layers: nat, steps: seq<Step>, end: Plan)
    requires layers >= 1 && Reaches(layers, steps, end)
    ensures Inv(end) && end.layers == layers
  {
    hide Inv, Enabled, Apply;
    if steps == [] {
      StartedInv(layers);
    } else {
      var front, last := steps[..|steps| - 1], steps[|steps| - 1];
      var mid :| Reaches(layers, front, mid) && Enabled(mid, last) && end == Apply(mid, last);
      RunKeeps(layers, front, mid);
      StepKeeps(mid, last);
      SameLayers(mid, last);
    }
  }

  lemma SameLayers(p: Plan, step: Step)
    requires Enabled(p, step)
    ensures Apply(p, step).layers == p.layers
  {
  }

  // ORDER. In every interleaving the layers are submitted once each, in
  // ascending order without gaps; the successful first waits are 0, 1, 2, ...;
  // each got its own layer's event, after that layer was submitted.
  lemma LayersInOrder(layers: nat, steps: seq<Step>, end: Plan)
    requires layers >= 1 && Reaches(layers, steps, end)
    ensures end.submitted == Counting(|end.submitted|) && |end.submitted| <= layers
    ensures end.firsts == Counting(|end.firsts|) && |end.firsts| <= |end.submitted|
    ensures forall c :: c in end.events ==> end.events[c] == c && c in end.submitted
    ensures end.waiter.Holding? ==> end.waiter.ev == end.waiter.c && end.waiter.c in end.submitted
  {
    hide Reaches;
    RunKeeps(layers, steps, end);
    forall c | c in end.events
      ensures c in end.submitted
    {
      assert c < end.exposed <= |end.submitted| && end.submitted[c] == c;
    }
  }

  // NO STRANDED WAITER. Once the feeder is done and every notification owed
  // has been given, nobody sleeps; and a waiter that looks then gets its event
  // or an error, never a further wait.
  lemma NoStrandedWaiter(layers: nat, steps: seq<Step>, end: Plan)
    requires layers >= 1 && Reaches(layers, steps, end)
    requires end.feeder.Done?
    ensures (forall c: nat :: c < layers ==> c in end.events) || end.failure || end.stop
    ensures end.owed == 0 && !end.aborter.StopSet? ==> !end.waiter.Sleeping?
    ensures end.waiter.Checking? ==> !Apply(end, Look(false, false)).waiter.Sleeping?
  {
    hide Reaches;
    RunKeeps(layers, steps, end);
  }

  // ---- the feeder always gets there ----

  // How much the feeder still has to do.
  function Rank(p: Plan): int {
    match p.feeder
    case Loop(c) => 12 * (p.layers - c) + 10
    case Entered(c) => 12 * (p.layers - c) + 9
    case Loaded(c) => 12 * (p.layers - c) + 8
    case Registered(c) => 12 * (p.layers - c) + 7
    case Exposed(c) => 12 * (p.layers - c) + 6
    case FailSet(c, _) => 12 * (p.layers - c) + 5
    case FailTold(c, _) => 12 * (p.layers - c) + 4
    case Finishing => 1
    case Done => 0
  }

  // The step the feeder can take now, whatever the other threads do.
  function FeederMove(p: Plan): Step {
    match p.feeder
    case Loop(_) => FeederCheck
    case Entered(_) => FeederLoad(LoadOk, false)
    case Loaded(_) => FeederRegister
    case Registered(_) => FeederExpose
    case Exposed(_) => FeederAttach(false, false)
    case FailSet(_, _) => FeederTell
    case FailTold(_, _) => FeederStop
    case Finishing => FeederFinish
    case Done => FeederFinish
  }

  lemma FeederAdvances(p: Plan, step: Step)
    requires Inv(p) && Enabled(p, step)
    ensures IsFeederStep(step) ==> Rank(Apply(p, step)) < Rank(p)
    ensures !IsFeederStep(step) ==> Rank(Apply(p, step)) == Rank(p)
  {
    hide Inv, Rank, Apply;
    if step.FeederLoad? {
      LoadAdvances(p, step.out, step.seen);
    } else if IsFeederStep(step) {
      MoveAdvances(p, step);
    } else {
      OthersWait(p, step);
    }
  }

  lemma LoadAdvances(p: Plan, out: LoadOutcome, seen: bool)
    requires Inv(p) && Enabled(p, FeederLoad(out, seen))
    ensures Rank(Apply(p, FeederLoad(out, seen))) < Rank(p)
  {
    FeederPlace(p);
    hide Inv;
  }

  lemma MoveAdvances(p: Plan, step: Step)
    requires Inv(p) && Enabled(p, step) && IsFeederStep(step) && !step.FeederLoad?
    ensures Rank(Apply(p, step)) < Rank(p)
  {
    FeederPlace(p);
    hide Inv;
  }

  lemma OthersWait(p: Plan, step: Step)
    requires Enabled(p, step) && !IsFeederStep(step)
    ensures Rank(Apply(p, step)) == Rank(p)
  {
    hide Rank;
    assert Apply(p, step).feeder == p.feeder && Apply(p, step).layers == p.layers;
    SameRank(p, Apply(p, step));
  }

  lemma SameRank(p: Plan, p': Plan)
    requires p'.feeder == p.feeder && p'.layers == p.layers
    ensures Rank(p') == Rank(p)
  {
  }

  lemma FeederPlace(p: Plan)
    requires Inv(p)
    ensures p.feeder.Entered? || p.feeder.Exposed? ==> p.feeder.c < p.layers
    ensures p.feeder.Loop? || p.feeder.FailSet? || p.feeder.FailTold? ==> p.feeder.c <= p.layers
    ensures (p.feeder.FailSet? || p.feeder.FailTold?) && !p.feeder.crash ==> p.feeder.c < p.layers
  {
    hide Counting, Prefix, WaiterOk;
  }

  function FeederSteps(steps: seq<Step>): nat {
    if steps == [] then 0
    else FeederSteps(steps[..|steps| - 1]) + (if IsFeederStep(steps[|steps| - 1]) then 1 else 0)
  }

  // PROGRESS. In every interleaving the feeder takes at most twelve steps per
  // layer, and until it is done it can always take one: no other thread can
  // block it, and it never loops.
  lemma {:induction false} FeederFinishes(layers: nat, steps: seq<Step>, end: Plan)
    requires layers >= 1 && Reaches(layers, steps, end)
    ensures FeederSteps(steps) + Rank(end) <= 12 * layers && Rank(end) >= 0
    ensures !end.feeder.Done? ==> IsFeederStep(FeederMove(end)) && Enabled(end, FeederMove(end))
  {
    hide Inv, Apply, Rank;
    if steps == [] {
      StartedRank(layers);
    } else {
      var front, last := steps[..|steps| - 1], steps[|steps| - 1];
      var mid :| Reaches(layers, front, mid) && Enabled(mid, last) && end == Apply(mid, last);
      FeederFinishes(layers, front, mid);
      RunKeeps(layers, front, mid);
      RunKeeps(layers, steps, end);
      FeederAdvances(mid, last);
      RankAtLeastZero(end);
    }
  }

  lemma StartedRank(layers: nat)
    requires layers >= 1
    ensures 0 <= Rank(Started(layers)) <= 12 * layers
  {
  }

  lemma RankAtLeastZero(p: Plan)
    requires Inv(p)
    ensures Rank(p) >= 0
  {
    hide Counting, Prefix, WaiterOk;
  }

  // ABORT joins the feeder and walks the recorded handles. They are all the
  // submitted layers, except that a layer that came back without an event is
  // missed; it is the last one submitted, and the failure is on record.
  lemma AbortCoversSubmitted(layers: nat, steps: seq<Step>, end: Plan)
    requires layers >= 1 && Reaches(layers, steps, end) && end.feeder.Done?
    ensures (forall c :: c in end.submitted ==> c in end.handles) <==> !end.eventless
    ensures end.eventless ==>
              end.failure && forall c :: c in end.submitted && c !in end.handles <==> c == |end.submitted| - 1
  {
    hide Reaches;
    RunKeeps(layers, steps, end);
    assert end.eventless ==> end.submitted[|end.submitted| - 1] in end.submitted;
  }

  lemma NoSteps(layers: nat)
    ensures Reaches(layers, [], Started(layers))
  {
  }

  lemma ReachStep(layers: nat, steps: seq<Step>, mid: Plan, step: Step)
    requires Reaches(layers, steps, mid) && Enabled(mid, step)
    ensures Reaches(layers, steps + [step], Apply(mid, step))
  {
    hide Enabled, Apply;
    assert (steps + [step])[..|steps|] == steps;
  }

  // It does happen: in every plan of two layers or more, the second can be
  // submitted and then not be aborted.
  lemma LayerWithoutEventIsMissed(layers: nat) returns (steps: seq<Step>, end: Plan)
    requires layers >= 2
    ensures Reaches(layers, steps, end) && end.feeder.Done? && 1 in end.submitted && 1 !in end.handles
  {
    hide Reaches;
    steps, end := [], Started(layers);
    NoSteps(layers);
    var submit := FeederLoad(LoadedWithoutEvent, false);
    var moves := [FeederCheck, submit, FeederTell, FeederStop, FeederCheck, FeederFinish];
    ReachStep(layers, steps, end, moves[0]);
    steps, end := steps + [moves[0]], Apply(end, moves[0]);
    ReachStep(layers, steps, end, moves[1]);
    steps, end := steps + [moves[1]], Apply(end, moves[1]);
    ReachStep(layers, steps, end, moves[2]);
    steps, end := steps + [moves[2]], Apply(end, moves[2]);
    ReachStep(layers, steps, end, moves[3]);
    steps, end := steps + [moves[3]], Apply(end, moves[3]);
    ReachStep(layers, steps, end, moves[4]);
    steps, end := steps + [moves[4]], Apply(end, moves[4]);
    ReachStep(layers, steps, end, moves[5]);
    steps, end := steps + [moves[5]], Apply(end, moves[5]);
  }
}
