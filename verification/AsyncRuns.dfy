// Whole runs of asynchronous completion: what holds in every interleaving, and
// the one environment failure that breaks it.
module AsyncRuns {
  import opened Common
  import opened AsyncCompletion
  import opened AsyncSafety

  // ---- every run ----

  // The one thing asked of the environment: after a launch, the submit event
  // is recorded or the fallback synchronisation succeeds.
  ghost predicate Detectable(step: Step) {
    step.SubmitOp? ==> !step.event.NeitherWorked?
  }

  lemma StepKeeps(s: System, step: Step)
    requires Inv(s) && Enabled(s, step) && Detectable(step)
    ensures Inv(Apply(s, step))
  {
    hide Inv, Apply;
    match step {
      case Retire(_) => StreamKeeps(s, step);
      case Finish(b) => FinishKeeps(s, b);
      case ForeignWork(_) => StreamKeeps(s, step);
      case SubmitOp(_, _, _, _, _) => SubmitKeeps(s, step);
      case EnqueueWaits(_, _, _) => EnqueueKeeps(s, step);
      case PollSubmit(_, _) => PollKeeps(s, step);
      case SeeDeadline => PollKeeps(s, step);
      case PollFinished => PollKeeps(s, step);
      case PollFence(error) => FenceKeeps(s, error);
      case Conclude(leak) =>
        if s.phase.releasing {
          ReleaseKeeps(s, leak);
        } else {
          TerminalKeeps(s, leak);
        }
      case BeginRelease(_) => PollKeeps(s, step);
      case BeginShutdown => PollKeeps(s, step);
      case FinishShutdown => ShutdownKeeps(s);
    }
  }

  ghost predicate Reaches(start: System, steps: seq<Step>, end: System) {
    if steps == [] then end == start
    else
      var front, last := steps[..|steps| - 1], steps[|steps| - 1];
      exists mid :: Reaches(start, front, mid) && Enabled(mid, last) && end == Apply(mid, last)
  }

  ghost predicate AllDetectable(steps: seq<Step>) {
    forall i :: 0 <= i < |steps| ==> Detectable(steps[i])
  }

  lemma {:induction false} RunKeeps(start: System, steps: seq<Step>, end: System)
    requires Inv(start) && Reaches(start, steps, end) && AllDetectable(steps)
    ensures Inv(end)
  {
    hide Inv, Enabled, Apply, Detectable;
    if steps != [] {
      var front, last := steps[..|steps| - 1], steps[|steps| - 1];
      var mid :| Reaches(start, front, mid) && Enabled(mid, last) && end == Apply(mid, last);
      RunKeeps(start, front, mid);
      StepKeeps(mid, last);
    }
  }

  // Freshly created tables: nothing issued, every slot free.
  function Initial(slots: nat, streams: nat): System {
    System(Host(1, [], seq(slots, _ => 0), seq(slots, _ => None), Elements(seq(slots, i => i)),
                map[], [], map[], 0, false, false, true),
           Device(seq(streams, _ => Stream(0, 0)), map[], {}, seq(slots, _ => 0)), Idle)
  }

  lemma InitialInv(slots: nat, streams: nat)
    ensures Inv(Initial(slots, streams))
  {
  }

  lemma FromStart(slots: nat, streams: nat, steps: seq<Step>, end: System)
    requires Reaches(Initial(slots, streams), steps, end) && AllDetectable(steps)
    ensures Inv(end)
  {
    hide Inv, Reaches, Initial;
    InitialInv(slots, streams);
    RunKeeps(Initial(slots, streams), steps, end);
  }

  // RETIREMENT. In every interleaving, an operation is terminal only after its
  // submit kernel has exited, its own batch was reported finished, and every
  // wait kernel ever launched for it has retired.
  lemma TerminalIsRetired(slots: nat, streams: nat, steps: seq<Step>, end: System, t: nat)
    requires Reaches(Initial(slots, streams), steps, end) && AllDetectable(steps)
    requires t in end.h.ops && !end.h.ops[t].inFlight
    ensures Exited(end.d, end.h.ops[t].stream, end.h.ops[t].kernel) && end.h.ops[t].batch in end.d.finished
    ensures forall f :: 0 <= f < |end.h.fences| && t in end.h.fences[f].tokens ==> FenceGone(end.h, end.d, f)
  {
    hide Reaches, Initial;
    FromStart(slots, streams, steps, end);
    RetiredNow(end, t);
  }

  lemma RetiredNow(s: System, t: nat)
    requires Inv(s) && t in s.h.ops && !s.h.ops[t].inFlight
    ensures Quiet(s.h, s.d, s.h.ops[t])
    ensures forall f :: 0 <= f < |s.h.fences| && t in s.h.fences[f].tokens ==> FenceGone(s.h, s.d, f)
  {
    hide JobOk, PhaseOk, IdsOk, Stale;
    assert OpOk(s.h, s.d, t, s.h.ops[t]);
    forall f | 0 <= f < |s.h.fences| && t in s.h.fences[f].tokens
      ensures FenceGone(s.h, s.d, f)
    {
      assert FenceOk(s.h, s.d, f, s.h.fences[f]);
      assert !FenceGone(s.h, s.d, f) ==> Watched(s.h, f, t);
    }
  }

  // FENCES. Whatever is enqueued and retried, an operation has at most one
  // fence per stream.
  lemma FencesAreUnique(slots: nat, streams: nat, steps: seq<Step>, end: System, t: nat)
    requires Reaches(Initial(slots, streams), steps, end) && AllDetectable(steps) && t in end.h.ops
    ensures end.h.ops[t].slot in end.h.waits && OneFencePerStream(end.h, end.h.waits[end.h.ops[t].slot].waits)
  {
    hide Reaches, Initial;
    FromStart(slots, streams, steps, end);
    assert OpOk(end.h, end.d, t, end.h.ops[t]);
  }

  // BATCH IDS are never zero, never taken twice, and stop when 32 bits are
  // used up.
  lemma BatchIdsAreUnique(slots: nat, streams: nat, steps: seq<Step>, end: System)
    requires Reaches(Initial(slots, streams), steps, end) && AllDetectable(steps)
    ensures Distinct(end.h.issued) && 0 !in end.h.issued && |end.h.issued| < U32
    ensures end.h.nextBatch == 0 <==> |end.h.issued| == U32 - 1
    ensures end.h.nextBatch !in end.h.issued
  {
    hide Reaches, Initial, OpOk, JobOk, FenceOk, PhaseOk, Stale;
    FromStart(slots, streams, steps, end);
  }

  // SLOT REUSE. A slot back in the arena is not one the device will still
  // write to.
  lemma FreeSlotsAreQuiet(slots: nat, streams: nat, steps: seq<Step>, end: System, b: nat)
    requires Reaches(Initial(slots, streams), steps, end) && AllDetectable(steps) && b in end.d.running
    ensures end.d.running[b].slot !in end.h.free && end.d.running[b].slot < |end.h.slotBatch|
    ensures end.h.slotBatch[end.d.running[b].slot] == b
  {
    hide Reaches, Initial, FenceOk, PhaseOk, Stale, IdsOk;
    FromStart(slots, streams, steps, end);
    assert JobOk(end.h, end.d, b, end.d.running[b]);
    assert OpOk(end.h, end.d, end.d.running[b].token, end.h.ops[end.d.running[b].token]);
  }

  // SHUTDOWN frees the tables only when nothing on the device can touch them.
  lemma ShutdownIsSafe(slots: nat, streams: nat, steps: seq<Step>, end: System)
    requires Reaches(Initial(slots, streams), steps, end) && AllDetectable(steps) && !end.h.tables
    ensures DeviceIsDone(end)
  {
    hide Reaches, Initial, Inv, DeviceIsDone;
    FromStart(slots, streams, steps, end);
    SafeNow(end);
  }

  // No batch runs, every wait kernel is gone, every operation has ended.
  ghost predicate DeviceIsDone(s: System) {
    && s.d.running == map[]
    && (forall f :: 0 <= f < |s.h.fences| ==> FenceGone(s.h, s.d, f))
    && (forall t :: t in s.h.ops ==> Quiet(s.h, s.d, s.h.ops[t]))
  }

  lemma SafeNow(s: System)
    requires Inv(s) && !s.h.tables
    ensures DeviceIsDone(s)
  {
    hide PhaseOk, Stale, IdsOk, Quiet, OpOk;
    var h, d := s.h, s.d;
    forall b | b in d.running
      ensures !JobOk(h, d, b, d.running[b])
    {
    }
    forall f | 0 <= f < |h.fences|
      ensures FenceGone(h, d, f)
    {
      assert FenceOk(h, d, f, h.fences[f]);
      var t := h.fences[f].tokens[0];
      assert t in h.fences[f].tokens;
      assert !FenceGone(h, d, f) ==> Watched(h, f, t);
      if t in h.ops {
        RetiredNow(s, t);
      }
    }
    forall t | t in h.ops
      ensures Quiet(h, d, h.ops[t])
    {
      RetiredNow(s, t);
    }
  }

  // ---- what a successful enqueue_wait leaves ----

  lemma FlushFences(e: Enqueue, stream: nat, calls: Calls, slot: nat)
    requires stream < |e.d.streams| && Enqueuing(e, stream) && AsyncCompletion.Flush(e, stream, calls).ok &&
             slot in e.h.waits
    ensures var r := AsyncCompletion.Flush(e, stream, calls);
            r.h.ops == e.h.ops && r.h.slotBatch == e.h.slotBatch && r.h.waits.Keys == e.h.waits.Keys && r.list == []
            && (Fenced(e.h, slot, stream) || Listed(e.h, e.list, slot) ==> Fenced(r.h, slot, stream))
  {
    hide Inv, Listed, AsyncCompletion.Flush, Pending;
    FlushShape(e, stream, calls);
    var h, r := e.h, AsyncCompletion.Flush(e, stream, calls);
    if r == e.(ok := r.ok) {
      NothingListed(h, slot);
    } else if Listed(h, e.list, slot) {
      assert r.h.waits[slot].waits[|h.waits[slot].waits|] == |h.fences|;
    } else if Fenced(h, slot, stream) {
      var i :| 0 <= i < |h.waits[slot].waits| && h.waits[slot].waits[i] < |h.fences| &&
               h.fences[h.waits[slot].waits[i]].stream == stream;
      assert r.h.waits[slot].waits[i] == h.waits[slot].waits[i];
    }
  }

  lemma NothingListed(h: Host, slot: nat)
    ensures !Listed(h, [], slot)
  {
  }

  ghost predicate Covered(e: Enqueue, t: nat, stream: nat) {
    t in e.h.ops && e.h.ops[t].inFlight && e.h.ops[t].slot < |e.h.slotBatch| ==>
      Fenced(e.h, e.h.ops[t].slot, stream) || Listed(e.h, e.list, e.h.ops[t].slot)
  }

  lemma CoveredStays(e: Enqueue, t: nat, n: nat, u: nat, stream: nat, calls: Calls)
    requires stream < |e.d.streams| && Enqueuing(e, stream) && EnqueueOne(e, u, n, stream, calls).ok
    requires Covered(e, t, stream) || t == u
    ensures Covered(EnqueueOne(e, u, n, stream, calls), t, stream)
    ensures EnqueueOne(e, u, n, stream, calls).h.ops == e.h.ops
  {
    hide Inv, Fenced, AsyncCompletion.Flush;
    if Wanted(e, u, stream) {
      var e' := e.(list := e.list + [u]);
      HasWaits(System(e.h, e.d, Idle), u);
      if t in e.h.ops {
        HasWaits(System(e.h, e.d, Idle), t);
        ListedLast(e.h, e'.list, e.h.ops[t].slot);
        assert e'.list[..|e'.list| - 1] == e.list;
      }
      assert Enqueuing(e', stream);
      if |e'.list| == BATCHES_PER_KERNEL && t in e.h.ops {
        FlushFences(e', stream, calls, e.h.ops[t].slot);
      } else if |e'.list| == BATCHES_PER_KERNEL {
        FlushFences(e', stream, calls, e.h.ops[u].slot);
      }
    }
  }

  lemma {:induction false} AllCovered(h: Host, d: Device, tokens: seq<nat>, stream: nat, calls: Calls, i: nat)
    requires stream < |d.streams| && Inv(System(h, d, Idle)) && h.tables && EnqueueAll(h, d, tokens, stream, calls).ok
    ensures EnqueueAll(h, d, tokens, stream, calls).h.ops == h.ops
    ensures i < |tokens| ==> Covered(EnqueueAll(h, d, tokens, stream, calls), tokens[i], stream)
  {
    hide Inv, EnqueueOne, Covered, Pending;
    if tokens != [] {
      var n := |tokens| - 1;
      var e := EnqueueAll(h, d, tokens[..n], stream, calls);
      StaysFailed(e, tokens[n], n, stream, calls);
      AllCovered(h, d, tokens[..n], stream, calls, i);
      EnqueueAllKeeps(h, d, tokens[..n], stream, calls);
      CoveredStays(e, if i < n then tokens[i] else tokens[n], n, tokens[n], stream, calls);
    }
  }

  lemma StaysFailed(e: Enqueue, t: nat, n: nat, stream: nat, calls: Calls)
    requires stream < |e.d.streams|
    ensures EnqueueOne(e, t, n, stream, calls).ok ==> e.ok
  {
  }

  // WAITING. A call that succeeds leaves every operation it was asked about,
  // and that is still in flight, with a fence on the given stream.
  lemma EnqueueWaitCovers(h: Host, d: Device, tokens: seq<nat>, stream: nat, calls: Calls, t: nat)
    requires stream < |d.streams| && Inv(System(h, d, Idle)) && h.tables && t in tokens
    requires EnqueueWait(h, d, tokens, stream, calls).ok
    ensures t in h.ops
    ensures h.ops[t].inFlight ==> Fenced(EnqueueWait(h, d, tokens, stream, calls).h, h.ops[t].slot, stream)
  {
    hide Inv, EnqueueAll, AsyncCompletion.Flush, Fenced, Listed, Pending;
    var i :| 0 <= i < |tokens| && tokens[i] == t;
    var e := EnqueueAll(h, d, tokens, stream, calls);
    FailedFlush(e, stream, calls);
    AllCovered(h, d, tokens, stream, calls, i);
    EnqueueAllKeeps(h, d, tokens, stream, calls);
    HasWaits(System(e.h, e.d, Idle), t);
    InRange(System(e.h, e.d, Idle), t);
    FlushFences(e, stream, calls, h.ops[t].slot);
  }

  lemma InRange(s: System, t: nat)
    requires Inv(s) && t in s.h.ops
    ensures s.h.ops[t].slot < |s.h.slotBatch|
  {
    assert OpOk(s.h, s.d, t, s.h.ops[t]);
  }

  lemma FailedFlush(e: Enqueue, stream: nat, calls: Calls)
    requires stream < |e.d.streams| && AsyncCompletion.Flush(e, stream, calls).ok
    ensures e.ok
  {
  }

  // ---- why the submit event must be recorded or waited out ----

  lemma ReachStep(start: System, steps: seq<Step>, mid: System, step: Step)
    requires Reaches(start, steps, mid) && Enabled(mid, step)
    ensures Reaches(start, steps + [step], Apply(mid, step))
  {
    hide Enabled, Apply;
    assert (steps + [step])[..|steps|] == steps;
  }

  function EarlyEnd(batch: nat, t: nat): seq<Step> {
    [Finish(batch)] + [PollSubmit(t, false)] + [PollFinished] + [Conclude(false)]
  }

  // An operation whose submit kernel runs and whose slot holds a stale event.
  ghost predicate Undetected(s: System, t: nat, b: nat) {
    && s.h.tables && s.phase.Idle? && t in s.h.ops && s.h.ops[t].inFlight && s.h.ops[t].batch == b
    && b in s.d.running && s.d.running[b] == Job(s.h.ops[t].slot, t)
    && s.h.ops[t].slot < |s.h.slotBatch| == |s.d.mirror| == |s.h.events| && s.h.slotBatch[s.h.ops[t].slot] == b
    && s.h.ops[t].slot in s.h.waits && s.h.waits[s.h.ops[t].slot] == WaitState([], false)
    && Stale(s.h, s.d, s.h.ops[t].slot) && !Exited(s.d, s.h.ops[t].stream, s.h.ops[t].kernel)
  }

  lemma SubmitUndetected(s: System, slot: nat, st: nat, entries: nat)
    requires Inv(s) && Enabled(s, SubmitOp(slot, st, entries, Launched, NeitherWorked)) && entries > 0
    requires !s.h.stopping && !s.h.failed && s.h.nextBatch != 0
    ensures Undetected(Apply(s, SubmitOp(slot, st, entries, Launched, NeitherWorked)), s.h.nextToken, s.h.nextBatch)
  {
    hide OpOk, JobOk, FenceOk, PhaseOk, IdsOk;
    assert Stale(s.h, s.d, slot);
    StreamSane(s, st);
  }

  // If neither worked, the stale event answers for the submit kernel, and the
  // operation can be published while that kernel is still running.
  lemma EarlyEndReached(s1: System, t: nat, b: nat) returns (end: System)
    requires Undetected(s1, t, b)
    ensures Reaches(s1, EarlyEnd(b, t), end)
    ensures t in end.h.ops && !end.h.ops[t].inFlight && !Exited(end.d, end.h.ops[t].stream, end.h.ops[t].kernel)
  {
    hide Reaches;
    NoSteps(s1);
    ReachStep(s1, [], s1, Finish(b));
    var s2 := Apply(s1, Finish(b));
    assert [] + [Finish(b)] == [Finish(b)];
    ReachStep(s1, [Finish(b)], s2, PollSubmit(t, false));
    var s3 := Apply(s2, PollSubmit(t, false));
    ReachStep(s1, [Finish(b)] + [PollSubmit(t, false)], s3, PollFinished);
    var s4 := Apply(s3, PollFinished);
    ReachStep(s1, [Finish(b)] + [PollSubmit(t, false)] + [PollFinished], s4, Conclude(false));
    end := Apply(s4, Conclude(false));
  }

  lemma NoSteps(s: System)
    ensures Reaches(s, [], s)
  {
  }

  lemma StreamSane(s: System, st: nat)
    requires Inv(s) && st < |s.d.streams|
    ensures s.d.streams[st].retired <= s.d.streams[st].enqueued
  {
    hide OpOk, JobOk, FenceOk, PhaseOk, IdsOk;
  }

  ghost predicate NeverEarly(s: System, t: nat) {
    forall steps, end :: Reaches(s, steps, end) && AllDetectable(steps) && t in end.h.ops && !end.h.ops[t].inFlight ==>
                           Exited(end.d, end.h.ops[t].stream, end.h.ops[t].kernel)
  }

  // EXACTLY WHEN. From any reachable state, a launched operation can never be
  // published before its submit kernel exits if and only if its event was
  // recorded or the stream synchronised.
  lemma NeverEarlyIff(s: System, slot: nat, st: nat, entries: nat, event: EventOutcome)
    requires Inv(s) && Enabled(s, SubmitOp(slot, st, entries, Launched, event)) && entries > 0
    requires !s.h.stopping && !s.h.failed && s.h.nextBatch != 0
    ensures NeverEarly(Apply(s, SubmitOp(slot, st, entries, Launched, event)), s.h.nextToken) <==> !event.NeitherWorked?
  {
    hide Inv, Apply, Enabled, Reaches, EarlyEnd, Undetected;
    var step, t := SubmitOp(slot, st, entries, Launched, event), s.h.nextToken;
    var s1 := Apply(s, step);
    if event.NeitherWorked? {
      SubmitUndetected(s, slot, st, entries);
      var end := EarlyEndReached(s1, t, s.h.nextBatch);
      EarlyEndDetectable(s.h.nextBatch, t);
    } else {
      SubmitKeeps(s, step);
      forall steps, end | Reaches(s1, steps, end) && AllDetectable(steps) && t in end.h.ops && !end.h.ops[t].inFlight
        ensures Exited(end.d, end.h.ops[t].stream, end.h.ops[t].kernel)
      {
        RunKeeps(s1, steps, end);
        RetiredNow(end, t);
      }
    }
  }

  lemma EarlyEndDetectable(batch: nat, t: nat)
    ensures AllDetectable(EarlyEnd(batch, t))
  {
  }

  // ---- what fits a wait kernel ----

  // Every wait kernel was given at least one operation, and no more than fit.
  ghost predicate FencesFit(h: Host) {
    forall f :: 0 <= f < |h.fences| ==> 0 < |h.fences[f].tokens| <= BATCHES_PER_KERNEL
  }

  lemma FlushFits(e: Enqueue, stream: nat, calls: Calls)
    requires stream < |e.d.streams| && FencesFit(e.h) && (e.ok ==> |e.list| <= BATCHES_PER_KERNEL)
    ensures var r := AsyncCompletion.Flush(e, stream, calls); FencesFit(r.h) && (r.ok ==> r.list == [])
  {
    hide Attach;
  }

  lemma {:induction false} EnqueueFits(h: Host, d: Device, tokens: seq<nat>, stream: nat, calls: Calls)
    requires stream < |d.streams| && FencesFit(h)
    ensures var e := EnqueueAll(h, d, tokens, stream, calls);
            FencesFit(e.h) && (e.ok ==> |e.list| < BATCHES_PER_KERNEL)
  {
    hide AsyncCompletion.Flush, Wanted, FencesFit;
    if tokens != [] {
      var n := |tokens| - 1;
      EnqueueFits(h, d, tokens[..n], stream, calls);
      var e := EnqueueAll(h, d, tokens[..n], stream, calls);
      if e.ok {
        FlushFits(e.(list := e.list + [tokens[n]]), stream, calls);
      }
    }
  }

  lemma StepFits(s: System, step: Step)
    requires Enabled(s, step) && FencesFit(s.h)
    ensures FencesFit(Apply(s, step).h)
  {
    hide EnqueueAll, AsyncCompletion.Flush, SubmitDone, FenceDone;
    if step.EnqueueWaits? {
      EnqueueFits(s.h, s.d, step.tokens, step.stream, step.calls);
      FlushFits(EnqueueAll(s.h, s.d, step.tokens, step.stream, step.calls), step.stream, step.calls);
    }
  }

  // CAPACITY OF A WAIT KERNEL. In every interleaving, failed calls included, no
  // wait kernel is launched empty or with more than sixteen operations.
  lemma {:induction false} WaitKernelsFit(slots: nat, streams: nat, steps: seq<Step>, end: System)
    requires Reaches(Initial(slots, streams), steps, end)
    ensures FencesFit(end.h)
  {
    hide Enabled, Apply;
    if steps != [] {
      hide FencesFit;
      var front, last := steps[..|steps| - 1], steps[|steps| - 1];
      var mid :| Reaches(Initial(slots, streams), front, mid) && Enabled(mid, last) && end == Apply(mid, last);
      WaitKernelsFit(slots, streams, front, mid);
      StepFits(mid, last);
    }
  }
}
