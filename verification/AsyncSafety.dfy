// Safety of asynchronous completion in every interleaving of host and device.
module AsyncSafety {
  import opened Common
  import opened AsyncCompletion

  // ---- the invariant ----

  ghost predicate FenceGone(h: Host, d: Device, f: nat) {
    f < |h.fences| && Exited(d, h.fences[f].stream, h.fences[f].kernel)
  }

  // Nothing on the device refers to the operation any more.
  ghost predicate Quiet(h: Host, d: Device, op: OpEntry) {
    && Exited(d, op.stream, op.kernel) && op.batch in d.finished && op.slot in h.waits
    && forall f :: f in h.waits[op.slot].waits ==> FenceGone(h, d, f)
  }

  // What the host asks about the submit kernel is really about this one.
  ghost predicate Armed(h: Host, d: Device, op: OpEntry) {
    && op.slot in h.waits && op.slot < |h.events|
    && if h.waits[op.slot].submitRetired then Exited(d, op.stream, op.kernel)
       else
         && h.events[op.slot].Some? && h.events[op.slot].value.stream == op.stream
         && op.kernel < h.events[op.slot].value.position
  }

  // At most one fence per stream.
  ghost predicate OneFencePerStream(h: Host, waits: seq<nat>) {
    && (forall i :: 0 <= i < |waits| ==> waits[i] < |h.fences|)
    && (forall i, j :: 0 <= i < j < |waits| ==> h.fences[waits[i]].stream != h.fences[waits[j]].stream)
  }

  // A slot's event is this operation's, or one that completed long ago.
  ghost predicate EventFits(h: Host, d: Device, op: OpEntry) {
    op.slot < |h.events| &&
    (|| h.events[op.slot].None? || Complete(d, h.events[op.slot].value)
     || h.events[op.slot].value == Mark(op.stream, op.kernel + 1))
  }

  ghost predicate Stale(h: Host, d: Device, slot: nat) {
    slot < |h.events| ==> h.events[slot].None? || Complete(d, h.events[slot].value)
  }

  ghost predicate OpPlaced(h: Host, d: Device, t: nat, op: OpEntry) {
    && t < h.nextToken && op.slot < |h.slotBatch| && op.slot !in h.free && h.slotBatch[op.slot] == op.batch
    && op.stream < |d.streams| && op.kernel < d.streams[op.stream].enqueued && 0 < op.batch <= |h.issued|
  }

  ghost predicate OpTracked(h: Host, d: Device, t: nat, op: OpEntry) {
    && op.slot < |d.mirror| && (d.mirror[op.slot] == op.batch ==> op.batch in d.finished)
    && (op.batch in d.finished || (op.batch in d.running && d.running[op.batch] == Job(op.slot, t)))
  }

  ghost predicate OpOk(h: Host, d: Device, t: nat, op: OpEntry) {
    && OpPlaced(h, d, t, op) && OpTracked(h, d, t, op) && Armed(h, d, op) && EventFits(h, d, op)
    && OneFencePerStream(h, h.waits[op.slot].waits)
    && (!op.inFlight ==> Quiet(h, d, op))
  }

  // A batch on the device belongs to an operation in flight on its slot.
  ghost predicate JobOk(h: Host, d: Device, b: nat, job: Job) {
    && job.token in h.ops && h.ops[job.token].slot == job.slot && h.ops[job.token].batch == b
    && h.ops[job.token].inFlight
    && b !in d.finished
  }

  // A wait kernel still on the device is fenced at every operation it reads.
  ghost predicate Watched(h: Host, f: nat, t: nat) {
    t in h.ops && h.ops[t].slot in h.waits && f in h.waits[h.ops[t].slot].waits
  }

  ghost predicate FenceOk(h: Host, d: Device, f: nat, fence: Fence) {
    && fence.stream < |d.streams| && fence.kernel < d.streams[fence.stream].enqueued
    && fence.tokens != [] && (fence.event.Some? ==> fence.event.value > fence.kernel)
    && (!Exited(d, fence.stream, fence.kernel) ==> forall t :: t in fence.tokens ==> Watched(h, f, t))
  }

  // Batch ids are 1, 2, 3, ... and then exhausted.
  ghost predicate IdsOk(h: Host, d: Device) {
    && |h.issued| < U32 && h.nextBatch == (|h.issued| + 1) % U32
    && (forall i :: 0 <= i < |h.issued| ==> h.issued[i] == i + 1)
    && (forall b :: b in d.finished ==> 0 < b <= |h.issued|)
  }

  ghost predicate PhaseOk(s: System) {
    match s.phase
    case Idle => true
    case SubmitSeen(t) =>
      s.h.tables && t in s.h.ops && s.h.ops[t].inFlight && Exited(s.d, s.h.ops[t].stream, s.h.ops[t].kernel)
    case Fences(t, n, releasing) =>
      && s.h.tables && t in s.h.ops && s.h.ops[t].inFlight == !releasing && s.h.ops[t].slot in s.h.waits
      && Exited(s.d, s.h.ops[t].stream, s.h.ops[t].kernel) && s.h.ops[t].batch in s.d.finished
      && n <= |s.h.waits[s.h.ops[t].slot].waits|
      && forall i :: 0 <= i < n ==> FenceGone(s.h, s.d, s.h.waits[s.h.ops[t].slot].waits[i])
  }

  ghost predicate StreamsOk(d: Device) {
    forall i :: 0 <= i < |d.streams| ==> d.streams[i].retired <= d.streams[i].enqueued
  }

  ghost predicate Inv(s: System) {
    var h, d := s.h, s.d;
    && |h.slotBatch| == |h.events| == |d.mirror| && IdsOk(h, d) && StreamsOk(d)
    && (forall t :: t in h.ops ==> OpOk(h, d, t, h.ops[t]))
    && (forall t, u :: t in h.ops && u in h.ops && h.ops[t].slot == h.ops[u].slot ==> t == u)
    && (forall b :: b in d.running ==> JobOk(h, d, b, d.running[b]))
    && (forall f :: 0 <= f < |h.fences| ==> FenceOk(h, d, f, h.fences[f]))
    && (!h.tables ==> forall t :: t in h.ops ==> !h.ops[t].inFlight)
    && (forall slot :: slot in h.free ==> Stale(h, d, slot))
    && PhaseOk(s)
  }

  // ---- the device moves ----

  // Streams only grow and retire.
  ghost predicate Later(d: Device, d': Device) {
    && |d'.streams| == |d.streams| && d.finished <= d'.finished
    && forall i :: 0 <= i < |d.streams| ==>
         d.streams[i].enqueued <= d'.streams[i].enqueued && d.streams[i].retired <= d'.streams[i].retired
  }

  lemma LaterQuiet(h: Host, d: Device, d': Device, op: OpEntry)
    requires Later(d, d')
    ensures Quiet(h, d, op) ==> Quiet(h, d', op)
    ensures Armed(h, d, op) ==> Armed(h, d', op)
    ensures EventFits(h, d, op) ==> EventFits(h, d', op)
    ensures Exited(d, op.stream, op.kernel) ==> Exited(d', op.stream, op.kernel)
  {
  }

  lemma LaterOp(h: Host, d: Device, d': Device, t: nat, op: OpEntry)
    requires Later(d, d') && OpOk(h, d, t, op) && OpTracked(h, d', t, op)
    ensures OpOk(h, d', t, op)
  {
    hide Quiet, Armed, OpTracked, OneFencePerStream, EventFits;
    LaterQuiet(h, d, d', op);
  }

  lemma LaterFence(h: Host, d: Device, d': Device, f: nat, fence: Fence)
    requires Later(d, d') && FenceOk(h, d, f, fence)
    ensures FenceOk(h, d', f, fence)
  {
  }

  lemma LaterPhase(s: System, d': Device)
    requires Later(s.d, d') && PhaseOk(s)
    ensures PhaseOk(s.(d := d'))
  {
    if s.phase.Fences? {
      forall i | 0 <= i < s.phase.fence
        ensures FenceGone(s.h, d', s.h.waits[s.h.ops[s.phase.token].slot].waits[i])
      {
        assert FenceGone(s.h, s.d, s.h.waits[s.h.ops[s.phase.token].slot].waits[i]);
      }
    }
  }

  lemma LaterStale(h: Host, d: Device, d': Device, slot: nat)
    requires Later(d, d') && Stale(h, d, slot)
    ensures Stale(h, d', slot)
  {
  }

  lemma SameStale(h: Host, h': Host, d: Device, slot: nat)
    requires h'.events == h.events && Stale(h, d, slot)
    ensures Stale(h', d, slot)
  {
  }

  // Retiring, finishing and foreign work.
  lemma DeviceKeeps(s: System, d': Device)
    requires Inv(s) && Later(s.d, d') && |d'.mirror| == |s.d.mirror| && StreamsOk(d')
    requires forall t :: t in s.h.ops ==> OpTracked(s.h, d', t, s.h.ops[t])
    requires forall b :: b in d'.running ==> b in s.d.running && d'.running[b] == s.d.running[b] && b !in d'.finished
    requires forall b :: b in d'.finished ==> b in s.d.finished || b in s.d.running
    ensures Inv(s.(d := d'))
  {
    hide OpOk, OpTracked, FenceOk, PhaseOk, Later, Stale;
    forall slot | slot in s.h.free
      ensures Stale(s.h, d', slot)
    {
      LaterStale(s.h, s.d, d', slot);
    }
    forall t | t in s.h.ops
      ensures OpOk(s.h, d', t, s.h.ops[t])
    {
      LaterOp(s.h, s.d, d', t, s.h.ops[t]);
    }
    forall f | 0 <= f < |s.h.fences|
      ensures FenceOk(s.h, d', f, s.h.fences[f])
    {
      LaterFence(s.h, s.d, d', f, s.h.fences[f]);
    }
    forall b | b in d'.finished
      ensures 0 < b <= |s.h.issued|
    {
      if b in s.d.running {
        RunningId(s, b);
      }
    }
    LaterPhase(s, d');
  }

  lemma RunningId(s: System, b: nat)
    requires Inv(s) && b in s.d.running
    ensures 0 < b <= |s.h.issued|
  {
    hide OpTracked, Armed, Quiet, OneFencePerStream, FenceOk, PhaseOk, IdsOk, EventFits, Stale;
    assert JobOk(s.h, s.d, b, s.d.running[b]);
    assert OpOk(s.h, s.d, s.d.running[b].token, s.h.ops[s.d.running[b].token]);
  }

  lemma FinishKeeps(s: System, b: nat)
    requires Inv(s) && Enabled(s, Finish(b))
    ensures Inv(Apply(s, Finish(b)))
  {
    hide FenceOk, PhaseOk, IdsOk, Armed, Quiet, OneFencePerStream, EventFits, Stale;
    var h, d, d' := s.h, s.d, Apply(s, Finish(b)).d;
    var job := d.running[b];
    assert JobOk(h, d, b, job);
    forall t | t in h.ops
      ensures OpTracked(h, d', t, h.ops[t])
    {
      assert OpOk(h, d, t, h.ops[t]) && OpOk(h, d, job.token, h.ops[job.token]);
      assert h.ops[t].slot == job.slot ==> t == job.token;
      if h.ops[t].batch in d.running && h.ops[t].batch != b {
        assert JobOk(h, d, h.ops[t].batch, d.running[h.ops[t].batch]);
      }
    }
    forall b' | b' in d'.running
      ensures b' !in d'.finished
    {
      assert JobOk(h, d, b', d.running[b']);
    }
    DeviceKeeps(s, d');
  }

  lemma StreamKeeps(s: System, step: Step)
    requires Inv(s) && Enabled(s, step) && (step.Retire? || step.ForeignWork?)
    ensures Inv(Apply(s, step))
  {
    hide FenceOk, PhaseOk, IdsOk, Armed, Quiet, OneFencePerStream, EventFits, Stale;
    var d' := Apply(s, step).d;
    forall t | t in s.h.ops
      ensures OpTracked(s.h, d', t, s.h.ops[t])
    {
      assert OpOk(s.h, s.d, t, s.h.ops[t]);
    }
    forall b | b in d'.running
      ensures b !in d'.finished
    {
      assert JobOk(s.h, s.d, b, s.d.running[b]);
    }
    DeviceKeeps(s, d');
  }

  // ---- submitting ----

  // Everything but one free slot, and fresh batch ids, is as before.
  ghost predicate OnlySlot(h: Host, d: Device, h': Host, d': Device, slot: nat) {
    && |h'.slotBatch| == |h.slotBatch| && |h'.events| == |h.events| && |d'.mirror| == |d.mirror| && Later(d, d')
    && (forall i :: 0 <= i < |h.slotBatch| && i != slot ==> h'.slotBatch[i] == h.slotBatch[i])
    && (forall i :: 0 <= i < |h.events| && i != slot ==> h'.events[i] == h.events[i])
    && (forall i :: 0 <= i < |d.mirror| && i != slot ==> d'.mirror[i] == d.mirror[i])
    && (forall i :: i != slot ==> (i in h'.waits <==> i in h.waits) && (i in h.waits ==> h'.waits[i] == h.waits[i]))
    && h'.fences == h.fences && h'.free <= h.free && h'.nextToken >= h.nextToken && |h'.issued| >= |h.issued|
    && (forall b :: b in d.running ==> b in d'.running && d'.running[b] == d.running[b])
  }

  lemma OtherOp(h: Host, d: Device, h': Host, d': Device, slot: nat, t: nat, op: OpEntry)
    requires OnlySlot(h, d, h', d', slot) && op.slot != slot && OpOk(h, d, t, op)
    ensures OpOk(h', d', t, op)
  {
    hide Later, OneFencePerStream;
    assert OpPlaced(h', d', t, op) by {
      PlacedLater(h, d, h', d', slot, t, op);
    }
    assert Armed(h', d', op) && EventFits(h', d', op) && (Quiet(h, d, op) ==> Quiet(h', d', op)) by {
      LaterQuiet(h, d, d', op);
    }
    assert d.finished <= d'.finished by {
      LaterFinished(d, d');
    }
    SameFences(h, h', h.waits[op.slot].waits);
  }

  lemma LaterFinished(d: Device, d': Device)
    requires Later(d, d')
    ensures d.finished <= d'.finished
  {
  }

  lemma SameFences(h: Host, h': Host, waits: seq<nat>)
    requires h'.fences == h.fences && OneFencePerStream(h, waits)
    ensures OneFencePerStream(h', waits)
  {
  }

  lemma PlacedLater(h: Host, d: Device, h': Host, d': Device, slot: nat, t: nat, op: OpEntry)
    requires OnlySlot(h, d, h', d', slot) && op.slot != slot && OpPlaced(h, d, t, op)
    ensures OpPlaced(h', d', t, op)
  {
  }

  lemma OtherFence(h: Host, d: Device, h': Host, d': Device, slot: nat, f: nat, fence: Fence)
    requires OnlySlot(h, d, h', d', slot) && FenceOk(h, d, f, fence)
    requires forall t :: t in h.ops ==> h.ops[t].slot != slot && t in h'.ops && h'.ops[t].slot == h.ops[t].slot
    ensures FenceOk(h', d', f, fence)
  {
    LaterFence(h, d, d', f, fence);
    forall t | t in fence.tokens && Watched(h, f, t)
      ensures Watched(h', f, t)
    {
    }
  }

  lemma OtherStale(h: Host, d: Device, h': Host, d': Device, slot: nat, other: nat)
    requires OnlySlot(h, d, h', d', slot) && Stale(h, d, other) && (other == slot ==> h'.events == h.events)
    ensures Stale(h', d', other)
  {
    LaterStale(h, d, d', other);
  }

  lemma SubmitShape(s: System, slot: nat, st: nat, entries: nat, out: LaunchOutcome, event: EventOutcome)
    requires Inv(s) && Enabled(s, SubmitOp(slot, st, entries, out, event))
    requires !s.h.stopping && !s.h.failed && s.h.nextBatch != 0
    ensures var s' := Apply(s, SubmitOp(slot, st, entries, out, event));
            var batch := s.h.nextBatch;
            && OnlySlot(s.h, s.d, s'.h, s'.d, slot)
            && s'.h.issued == s.h.issued + [batch] && s'.h.nextBatch == (batch + 1) % U32
            && s'.d.finished == (if entries == 0 then s.d.finished + {batch} else s.d.finished)
            && s'.h.ops == (if out.Launched?
                            then s.h.ops[s.h.nextToken := OpEntry(slot, st, s.d.streams[st].enqueued, batch, true)]
                            else s.h.ops)
            && s'.d.running == (if out.Launched? && entries > 0
                                then s.d.running[batch := Job(slot, s.h.nextToken)] else s.d.running)
            && s'.h.tables && s'.phase == Idle && StreamsOk(s'.d)
            && (if out.Launched? then slot !in s'.h.free else s'.h.events == s.h.events)
  {
    hide OpOk, JobOk, FenceOk, PhaseOk, Stale;
    assert |s.h.issued| + 1 < U32 && s.h.nextBatch == |s.h.issued| + 1;
    forall b | b in s.d.running
      ensures b != s.h.nextBatch
    {
      RunningId(s, b);
    }
  }

  lemma NewOp(s: System, slot: nat, st: nat, entries: nat, event: EventOutcome)
    requires Inv(s) && Enabled(s, SubmitOp(slot, st, entries, Launched, event)) && !event.NeitherWorked?
    requires !s.h.stopping && !s.h.failed && s.h.nextBatch != 0
    ensures var s' := Apply(s, SubmitOp(slot, st, entries, Launched, event));
            OpOk(s'.h, s'.d, s.h.nextToken, s'.h.ops[s.h.nextToken])
  {
    hide OpOk, JobOk, FenceOk, Quiet, PhaseOk;
    var s' := Apply(s, SubmitOp(slot, st, entries, Launched, event));
    var h', d', t := s'.h, s'.d, s.h.nextToken;
    var op := h'.ops[t];
    assert |s.h.issued| + 1 < U32 && s.h.nextBatch == |s.h.issued| + 1;
    assert OpPlaced(h', d', t, op) && OpTracked(h', d', t, op) && Armed(h', d', op);
    assert Stale(s.h, s.d, slot);
    assert EventFits(h', d', op);
    assert h'.waits[op.slot].waits == [];
    OpParts(h', d', t, op);
  }

  lemma OpParts(h: Host, d: Device, t: nat, op: OpEntry)
    requires OpPlaced(h, d, t, op) && OpTracked(h, d, t, op) && Armed(h, d, op) && EventFits(h, d, op)
    requires op.inFlight && h.waits[op.slot].waits == []
    ensures OpOk(h, d, t, op)
  {
  }

  lemma SubmitKeeps(s: System, step: Step)
    requires Inv(s) && step.SubmitOp? && Enabled(s, step)
    requires !step.event.NeitherWorked?
    ensures Inv(Apply(s, step))
  {
    hide OpOk, FenceOk, OnlySlot, Submit, StreamsOk, PhaseOk, Stale;
    var h, d := s.h, s.d;
    var s' := Apply(s, step);
    if h.stopping || h.failed || h.nextBatch == 0 {
      SubmitRefused(s, step);
    } else {
      SubmitShape(s, step.slot, step.stream, step.entries, step.launch, step.event);
      SlotSizes(h, d, s'.h, s'.d, step.slot);
      forall t | t in h.ops
        ensures h.ops[t].slot != step.slot && t < h.nextToken
      {
        NotFree(s, t);
      }
      forall t | t in s'.h.ops
        ensures OpOk(s'.h, s'.d, t, s'.h.ops[t])
      {
        if t in h.ops {
          OtherOp(h, d, s'.h, s'.d, step.slot, t, h.ops[t]);
        } else {
          NewOp(s, step.slot, step.stream, step.entries, step.event);
        }
      }
      forall f | 0 <= f < |s'.h.fences|
        ensures FenceOk(s'.h, s'.d, f, s'.h.fences[f])
      {
        OtherFence(h, d, s'.h, s'.d, step.slot, f, h.fences[f]);
      }
      SlotSizes(h, d, s'.h, s'.d, step.slot);
      forall slot | slot in s'.h.free
        ensures Stale(s'.h, s'.d, slot)
      {
        OtherStale(h, d, s'.h, s'.d, step.slot, slot);
      }
      SubmitIds(s, s', step);
      SubmitPhase(s');
    }
  }

  lemma SubmitRefused(s: System, step: Step)
    requires step.SubmitOp? && Enabled(s, step) && (s.h.stopping || s.h.failed || s.h.nextBatch == 0)
    ensures Apply(s, step) == s
  {
  }

  lemma SubmitPhase(s: System)
    requires s.phase.Idle?
    ensures PhaseOk(s)
  {
  }

  // The new batch id is fresh.
  lemma SubmitIds(s: System, s': System, step: Step)
    requires Inv(s) && s.h.nextBatch != 0 && step.SubmitOp? && step.stream < |s.d.streams|
    requires s'.h.issued == s.h.issued + [s.h.nextBatch] && s'.h.nextBatch == (s.h.nextBatch + 1) % U32
    requires s'.d.finished == if step.entries == 0 then s.d.finished + {s.h.nextBatch} else s.d.finished
    requires s.h.nextToken !in s.h.ops
    requires var op := OpEntry(step.slot, step.stream, s.d.streams[step.stream].enqueued, s.h.nextBatch, true);
             s'.h.ops == if step.launch.Launched? then s.h.ops[s.h.nextToken := op] else s.h.ops
    requires s'.d.running == if step.launch.Launched? && step.entries > 0
                             then s.d.running[s.h.nextBatch := Job(step.slot, s.h.nextToken)] else s.d.running
    ensures IdsOk(s'.h, s'.d)
    ensures forall b :: b in s'.d.running ==> JobOk(s'.h, s'.d, b, s'.d.running[b])
  {
    hide OpOk, FenceOk, PhaseOk, StreamsOk;
    assert |s.h.issued| + 1 < U32 && s.h.nextBatch == |s.h.issued| + 1;
    forall b | b in s'.d.running
      ensures JobOk(s'.h, s'.d, b, s'.d.running[b])
    {
      if b in s.d.running {
        RunningId(s, b);
        assert JobOk(s.h, s.d, b, s.d.running[b]);
      }
    }
  }

  lemma SlotSizes(h: Host, d: Device, h': Host, d': Device, slot: nat)
    requires OnlySlot(h, d, h', d', slot)
    ensures |h'.slotBatch| == |h.slotBatch| && |h'.events| == |h.events| && |d'.mirror| == |d.mirror| &&
            h'.fences == h.fences
    ensures h'.free <= h.free
  {
  }

  lemma NotFree(s: System, t: nat)
    requires Inv(s) && t in s.h.ops
    ensures s.h.ops[t].slot !in s.h.free && t < s.h.nextToken && s.h.ops[t].batch <= |s.h.issued|
  {
    assert OpOk(s.h, s.d, t, s.h.ops[t]);
  }

  // ---- enqueueing waits ----

  // The list being collected: distinct slots in flight, none fenced on the
  // stream yet.
  ghost predicate Pending(h: Host, list: seq<nat>, stream: nat) {
    && (forall i :: 0 <= i < |list| ==> list[i] in h.ops && h.ops[list[i]].inFlight && h.ops[list[i]].slot in h.waits &&
                                        !Fenced(h, h.ops[list[i]].slot, stream))
    && (forall i, j :: 0 <= i < j < |list| ==> h.ops[list[i]].slot != h.ops[list[j]].slot)
  }

  ghost predicate Enqueuing(e: Enqueue, stream: nat) {
    Inv(System(e.h, e.d, Idle)) && e.h.tables && Pending(e.h, e.list, stream)
  }

  lemma {:induction false} AttachAt(h: Host, list: seq<nat>, f: nat, slot: nat)
    requires slot in h.waits
    requires forall i :: 0 <= i < |list| ==> list[i] in h.ops && h.ops[list[i]].slot in h.waits
    requires forall i, j :: 0 <= i < j < |list| ==> h.ops[list[i]].slot != h.ops[list[j]].slot
    ensures Attach(h, list, f)[slot] ==
            if Listed(h, list, slot) then h.waits[slot].(waits := h.waits[slot].waits + [f]) else h.waits[slot]
  {
    if list != [] {
      var n := |list| - 1;
      AttachAt(h, list[..n], f, slot);
      assert Listed(h, list, slot) <==> Listed(h, list[..n], slot) || h.ops[list[n]].slot == slot by {
        ListedLast(h, list, slot);
      }
    }
  }

  lemma ListedLast(h: Host, list: seq<nat>, slot: nat)
    requires list != []
    ensures Listed(h, list, slot) <==>
              Listed(h, list[..|list| - 1], slot) || (list[|list| - 1] in h.ops && h.ops[list[|list| - 1]].slot == slot)
  {
    var n := |list| - 1;
    if Listed(h, list[..n], slot) {
      var i :| 0 <= i < n && list[..n][i] in h.ops && h.ops[list[..n][i]].slot == slot;
      assert list[i] in h.ops;
    }
    if i :| 0 <= i < |list| && list[i] in h.ops && h.ops[list[i]].slot == slot {
      assert i < n ==> list[..n][i] == list[i];
    }
  }

  lemma ListedToken(h: Host, list: seq<nat>, t: nat)
    requires t in list && t in h.ops
    ensures Listed(h, list, h.ops[t].slot)
  {
    var i :| 0 <= i < |list| && list[i] == t;
  }

  // One more fence, attached to the listed slots.
  ghost predicate FenceAdded(h: Host, d: Device, h': Host, d': Device, list: seq<nat>, stream: nat,
                             event: Option<nat>) {
    && stream < |d.streams| && d' == Push(d, stream) && (event.Some? ==> event.value > d.streams[stream].enqueued)
    && h' == h.(fences := h'.fences, waits := h'.waits, failed := h'.failed)
    && h'.fences == h.fences + [Fence(stream, d.streams[stream].enqueued, list, event)]
    && h'.waits.Keys == h.waits.Keys
    && forall slot :: slot in h.waits ==>
         h'.waits[slot] == if Listed(h, list, slot)
                           then h.waits[slot].(waits := h.waits[slot].waits + [|h.fences|]) else h.waits[slot]
  }

  lemma FlushShape(e: Enqueue, stream: nat, calls: Calls)
    requires stream < |e.d.streams| && Pending(e.h, e.list, stream)
    ensures var r := Flush(e, stream, calls);
            || (r == e.(ok := r.ok) && (r.ok ==> e.ok && e.list == []))
            || (e.list != [] && r.list == [] &&
                FenceAdded(e.h, e.d, r.h, r.d, e.list, stream,
                           if calls.record(|e.h.fences|) then Some(e.d.streams[stream].enqueued + 1) else None))
  {
    hide Fenced, Listed, Attach;
    var r := Flush(e, stream, calls);
    forall slot | slot in e.h.waits
      ensures Attach(e.h, e.list, |e.h.fences|)[slot] ==
              if Listed(e.h, e.list, slot)
              then e.h.waits[slot].(waits := e.h.waits[slot].waits + [|e.h.fences|]) else e.h.waits[slot]
    {
      AttachAt(e.h, e.list, |e.h.fences|, slot);
    }
  }

  lemma FencedOp(h: Host, d: Device, h': Host, d': Device, list: seq<nat>, stream: nat, event: Option<nat>, t: nat)
    requires FenceAdded(h, d, h', d', list, stream, event) && Pending(h, list, stream)
    requires t in h.ops && OpOk(h, d, t, h.ops[t])
    requires forall u :: u in h.ops && h.ops[u].slot == h.ops[t].slot ==> u == t
    ensures OpOk(h', d', t, h.ops[t])
  {
    hide OpTracked, Fenced, Listed;
    var op, f := h.ops[t], |h.fences|;
    var waits := h.waits[op.slot].waits;
    assert Later(d, d');
    LaterQuiet(h, d, d', op);
    if Listed(h, list, op.slot) {
      ListedOp(h, list, stream, t);
      NotFencedStreams(h, op.slot, stream);
      assert forall i :: 0 <= i < |waits| ==> h'.fences[waits[i]] == h.fences[waits[i]];
    } else {
      assert h'.waits[op.slot] == h.waits[op.slot];
      assert forall i :: 0 <= i < |waits| ==> h'.fences[waits[i]] == h.fences[waits[i]];
    }
    assert OpTracked(h', d', t, op) by {
      SameTracking(h, d, h', d', t, op);
    }
  }

  lemma SameTracking(h: Host, d: Device, h': Host, d': Device, t: nat, op: OpEntry)
    requires OpTracked(h, d, t, op) && d' == d.(streams := d'.streams)
    ensures OpTracked(h', d', t, op)
  {
  }

  lemma ListedOp(h: Host, list: seq<nat>, stream: nat, t: nat)
    requires Pending(h, list, stream) && t in h.ops && Listed(h, list, h.ops[t].slot)
    requires forall u :: u in h.ops && h.ops[u].slot == h.ops[t].slot ==> u == t
    ensures h.ops[t].inFlight && !Fenced(h, h.ops[t].slot, stream)
  {
    var i :| 0 <= i < |list| && list[i] in h.ops && h.ops[list[i]].slot == h.ops[t].slot;
    assert list[i] == t;
  }

  lemma NotFencedStreams(h: Host, slot: nat, stream: nat)
    requires slot in h.waits && !Fenced(h, slot, stream)
    ensures forall i :: 0 <= i < |h.waits[slot].waits| && h.waits[slot].waits[i] < |h.fences| ==>
              h.fences[h.waits[slot].waits[i]].stream != stream
  {
  }

  lemma FencedFence(h: Host, d: Device, h': Host, d': Device, list: seq<nat>, stream: nat, event: Option<nat>, f: nat)
    requires FenceAdded(h, d, h', d', list, stream, event) && Pending(h, list, stream) && list != []
    requires 0 <= f <= |h.fences| && (f < |h.fences| ==> FenceOk(h, d, f, h.fences[f]))
    ensures FenceOk(h', d', f, h'.fences[f])
  {
    hide Fenced, Listed;
    assert Later(d, d');
    if f < |h.fences| {
      LaterFence(h, d, d', f, h.fences[f]);
      forall t | Watched(h, f, t)
        ensures Watched(h', f, t)
      {
      }
    } else {
      forall t | t in list
        ensures Watched(h', f, t)
      {
        ListedToken(h, list, t);
        var slot := h.ops[t].slot;
        assert h'.waits[slot].waits[|h.waits[slot].waits|] == f;
      }
    }
  }

  lemma FlushKeeps(e: Enqueue, stream: nat, calls: Calls)
    requires stream < |e.d.streams| && Enqueuing(e, stream)
    ensures Enqueuing(Flush(e, stream, calls), stream)
  {
    hide OpOk, FenceOk, Pending, Flush, Stale;
    FlushShape(e, stream, calls);
    var h, d, r := e.h, e.d, Flush(e, stream, calls);
    if r != e.(ok := r.ok) {
      var event := if calls.record(|h.fences|) then Some(d.streams[stream].enqueued + 1) else None;
      forall t | t in r.h.ops
        ensures OpOk(r.h, r.d, t, r.h.ops[t])
      {
        FencedOp(h, d, r.h, r.d, e.list, stream, event, t);
      }
      forall f | 0 <= f < |r.h.fences|
        ensures FenceOk(r.h, r.d, f, r.h.fences[f])
      {
        FencedFence(h, d, r.h, r.d, e.list, stream, event, f);
      }
      forall slot | slot in r.h.free
        ensures Stale(r.h, r.d, slot)
      {
        assert Later(d, r.d);
        LaterStale(h, d, r.d, slot);
        SameStale(h, r.h, r.d, slot);
      }
      EmptyPending(r.h, stream);
    }
  }

  lemma EmptyPending(h: Host, stream: nat)
    ensures Pending(h, [], stream)
  {
  }

  lemma EnqueueOneKeeps(e: Enqueue, t: nat, n: nat, stream: nat, calls: Calls)
    requires stream < |e.d.streams| && Enqueuing(e, stream)
    ensures Enqueuing(EnqueueOne(e, t, n, stream, calls), stream)
  {
    hide Inv, Flush, Fenced;
    if e.ok && Wanted(e, t, stream) {
      var e' := e.(list := e.list + [t]);
      HasWaits(System(e.h, e.d, Idle), t);
      assert Enqueuing(e', stream);
      FlushKeeps(e', stream, calls);
    }
  }

  lemma HasWaits(s: System, t: nat)
    requires Inv(s) && t in s.h.ops
    ensures s.h.ops[t].slot in s.h.waits
  {
    assert OpOk(s.h, s.d, t, s.h.ops[t]);
  }

  lemma {:induction false} EnqueueAllKeeps(h: Host, d: Device, tokens: seq<nat>, stream: nat, calls: Calls)
    requires stream < |d.streams| && Inv(System(h, d, Idle)) && h.tables
    ensures Enqueuing(EnqueueAll(h, d, tokens, stream, calls), stream)
  {
    hide Inv, EnqueueOne, Pending;
    if tokens == [] {
      EmptyPending(h, stream);
    } else {
      var n := |tokens| - 1;
      EnqueueAllKeeps(h, d, tokens[..n], stream, calls);
      EnqueueOneKeeps(EnqueueAll(h, d, tokens[..n], stream, calls), tokens[n], n, stream, calls);
    }
  }

  lemma EnqueueKeeps(s: System, step: Step)
    requires Inv(s) && step.EnqueueWaits? && Enabled(s, step)
    ensures Inv(Apply(s, step))
  {
    hide Inv, EnqueueAll, Flush, Pending;
    assert s == System(s.h, s.d, Idle);
    EnqueueAllKeeps(s.h, s.d, step.tokens, step.stream, step.calls);
    FlushKeeps(EnqueueAll(s.h, s.d, step.tokens, step.stream, step.calls), step.stream, step.calls);
  }

  // ---- polling ----

  // An answer about the submit event is an answer about the submit kernel.
  lemma SubmitAnswerIsTrue(h: Host, d: Device, op: OpEntry)
    requires Armed(h, d, op) && op.stream < |d.streams| && SubmitDone(h, d, op.slot)
    ensures Exited(d, op.stream, op.kernel)
  {
  }

  lemma FenceAnswerIsTrue(h: Host, d: Device, f: nat)
    requires f < |h.fences| && FenceOk(h, d, f, h.fences[f]) && FenceDone(h, d, f)
    ensures FenceGone(h, d, f)
  {
  }

  lemma FlagsKeep(s: System, s': System)
    requires Inv(s) && s'.d == s.d && PhaseOk(s')
    requires s'.h == s.h.(failed := s'.h.failed, stopping := s'.h.stopping, tables := s'.h.tables)
    requires !s'.h.tables ==> forall t :: t in s.h.ops ==> !s.h.ops[t].inFlight
    ensures Inv(s')
  {
    hide PhaseOk;
    forall t | t in s'.h.ops
      ensures OpOk(s'.h, s'.d, t, s'.h.ops[t])
    {
      assert OpOk(s.h, s.d, t, s.h.ops[t]);
    }
    forall f | 0 <= f < |s'.h.fences|
      ensures FenceOk(s'.h, s'.d, f, s'.h.fences[f])
    {
      assert FenceOk(s.h, s.d, f, s.h.fences[f]);
    }
    forall b | b in s'.d.running
      ensures JobOk(s'.h, s'.d, b, s'.d.running[b])
    {
      assert JobOk(s.h, s.d, b, s.d.running[b]);
    }
    forall slot | slot in s'.h.free
      ensures Stale(s'.h, s'.d, slot)
    {
      assert Stale(s.h, s.d, slot);
    }
  }

  lemma PollKeeps(s: System, step: Step)
    requires Inv(s) && Enabled(s, step)
    requires step.PollSubmit? || step.SeeDeadline? || step.PollFinished? || step.BeginRelease? || step.BeginShutdown?
    ensures Inv(Apply(s, step))
  {
    var s' := Apply(s, step);
    if step.PollSubmit? || step.BeginRelease? {
      assert OpOk(s.h, s.d, step.token, s.h.ops[step.token]);
      if step.PollSubmit? && SubmitDone(s.h, s.d, s.h.ops[step.token].slot) {
        SubmitAnswerIsTrue(s.h, s.d, s.h.ops[step.token]);
      }
    } else if step.PollFinished? {
      assert OpOk(s.h, s.d, s.phase.token, s.h.ops[s.phase.token]);
    }
    assert PhaseOk(s');
    hide Inv, PhaseOk;
    FlagsKeep(s, s');
  }

  lemma FenceKeeps(s: System, error: bool)
    requires Inv(s) && Enabled(s, PollFence(error))
    ensures Inv(Apply(s, PollFence(error)))
  {
    var h, d, s' := s.h, s.d, Apply(s, PollFence(error));
    var f := h.waits[h.ops[s.phase.token].slot].waits[s.phase.fence];
    assert FenceOk(h, d, f, h.fences[f]);
    if !error && h.fences[f].event.None? {
      RetryKeeps(s, s', f);
    } else {
      if FenceDone(h, d, f) {
        FenceAnswerIsTrue(h, d, f);
      }
      assert PhaseOk(s');
      hide Inv, PhaseOk;
      FlagsKeep(s, s');
    }
  }

  // Recording a missing event again, later on the same stream.
  lemma RetryKeeps(s: System, s': System, f: nat)
    requires Inv(s) && f < |s.h.fences| && s.h.fences[f].stream < |s.d.streams|
    requires s' == s.(h := s.h.(fences :=
                      s.h.fences[f := s.h.fences[f].(event := Some(s.d.streams[s.h.fences[f].stream].enqueued))]))
    ensures Inv(s')
  {
    hide OpTracked, Armed, EventFits, OpPlaced;
    var h, d, h' := s.h, s.d, s'.h;
    assert forall i :: 0 <= i < |h.fences| ==>
                         h'.fences[i].stream == h.fences[i].stream && h'.fences[i].kernel == h.fences[i].kernel;
    forall t | t in h.ops
      ensures OpOk(h', d, t, h.ops[t])
    {
      assert OpOk(h, d, t, h.ops[t]);
      RetryOp(h, h', d, t, h.ops[t]);
    }
    forall i | 0 <= i < |h'.fences|
      ensures FenceOk(h', d, i, h'.fences[i])
    {
      assert FenceOk(h, d, i, h.fences[i]);
      assert forall t :: Watched(h, i, t) ==> Watched(h', i, t);
    }
    forall b | b in d.running
      ensures JobOk(h', d, b, d.running[b])
    {
      assert JobOk(h, d, b, d.running[b]);
    }
    forall slot | slot in h'.free
      ensures Stale(h', d, slot)
    {
      assert Stale(h, d, slot);
    }
    assert PhaseOk(s') by {
      if s.phase.Fences? {
        forall i | 0 <= i < s.phase.fence
          ensures FenceGone(h', d, h'.waits[h'.ops[s.phase.token].slot].waits[i])
        {
          assert FenceGone(h, d, h.waits[h.ops[s.phase.token].slot].waits[i]);
        }
      }
    }
  }

  lemma RetryOp(h: Host, h': Host, d: Device, t: nat, op: OpEntry)
    requires OpOk(h, d, t, op) && h' == h.(fences := h'.fences) && |h'.fences| == |h.fences|
    requires forall i :: 0 <= i < |h.fences| ==>
               h'.fences[i].stream == h.fences[i].stream && h'.fences[i].kernel == h.fences[i].kernel
    ensures OpOk(h', d, t, op)
  {
  }

  // ---- terminal, released, shut down ----

  lemma AllFencesGone(s: System)
    requires Inv(s) && InFences(s) && s.phase.fence == |s.h.waits[s.h.ops[s.phase.token].slot].waits|
    ensures Quiet(s.h, s.d, s.h.ops[s.phase.token])
  {
    var waits := s.h.waits[s.h.ops[s.phase.token].slot].waits;
    forall f | f in waits
      ensures FenceGone(s.h, s.d, f)
    {
      var i :| 0 <= i < |waits| && waits[i] == f;
    }
  }

  lemma QuietJobs(s: System, t: nat, b: nat)
    requires Inv(s) && t in s.h.ops && Quiet(s.h, s.d, s.h.ops[t]) && b in s.d.running
    ensures JobOk(s.h, s.d, b, s.d.running[b]) && s.d.running[b].token != t
  {
    hide OpOk, FenceOk, PhaseOk;
    assert JobOk(s.h, s.d, b, s.d.running[b]);
  }

  lemma TerminalKeeps(s: System, leak: bool)
    requires Inv(s) && Enabled(s, Conclude(leak)) && !s.phase.releasing
    ensures Inv(Apply(s, Conclude(leak)))
  {
    hide Inv, Quiet;
    AllFencesGone(s);
    EndKeeps(s, s.phase.token);
  }

  lemma EndKeeps(s: System, t: nat)
    requires Inv(s) && t in s.h.ops && Quiet(s.h, s.d, s.h.ops[t])
    ensures Inv(System(s.h.(ops := s.h.ops[t := s.h.ops[t].(inFlight := false)]), s.d, Idle))
  {
    hide Quiet, OpOk, FenceOk, Stale, IdsOk, StreamsOk, JobOk;
    var h, d, h' := s.h, s.d, s.h.(ops := s.h.ops[t := s.h.ops[t].(inFlight := false)]);
    forall u | u in h'.ops
      ensures OpOk(h', d, u, h'.ops[u])
    {
      TerminalOp(h, h', d, u, h.ops[u], h'.ops[u]);
    }
    forall f | 0 <= f < |h'.fences|
      ensures FenceOk(h', d, f, h'.fences[f])
    {
      TerminalFence(h, h', d, t, f);
    }
    forall b | b in d.running
      ensures JobOk(h', d, b, d.running[b])
    {
      QuietJobs(s, t, b);
      TerminalJob(h, h', d, t, b);
    }
    forall slot | slot in h'.free
      ensures Stale(h', d, slot)
    {
      SameStale(h, h', d, slot);
    }
    SameIds(h, h', d);
  }

  lemma TerminalFence(h: Host, h': Host, d: Device, t: nat, f: nat)
    requires t in h.ops && h' == h.(ops := h.ops[t := h.ops[t].(inFlight := false)])
    requires f < |h.fences| && FenceOk(h, d, f, h.fences[f])
    ensures FenceOk(h', d, f, h'.fences[f])
  {
    assert forall u :: Watched(h, f, u) ==> Watched(h', f, u);
  }

  lemma TerminalJob(h: Host, h': Host, d: Device, t: nat, b: nat)
    requires t in h.ops && h' == h.(ops := h.ops[t := h.ops[t].(inFlight := false)])
    requires b in d.running && JobOk(h, d, b, d.running[b]) && d.running[b].token != t
    ensures JobOk(h', d, b, d.running[b])
  {
  }

  lemma SameIds(h: Host, h': Host, d: Device)
    requires IdsOk(h, d) && h'.issued == h.issued && h'.nextBatch == h.nextBatch
    ensures IdsOk(h', d)
  {
  }

  lemma TerminalOp(h: Host, h': Host, d: Device, u: nat, op: OpEntry, op': OpEntry)
    requires OpOk(h, d, u, op) && h' == h.(ops := h'.ops) &&
             (op' == op || (op' == op.(inFlight := false) && Quiet(h, d, op)))
    ensures OpOk(h', d, u, op')
  {
  }

  lemma ReleaseKeeps(s: System, leak: bool)
    requires Inv(s) && Enabled(s, Conclude(leak)) && s.phase.releasing
    ensures Inv(Apply(s, Conclude(leak)))
  {
    hide Inv, Quiet;
    AllFencesGone(s);
    EndedOp(s);
    GiveBackKeeps(s, s.phase.token, leak);
  }

  lemma EndedOp(s: System)
    requires Inv(s) && s.phase.Fences? && s.phase.releasing
    ensures s.phase.token in s.h.ops && !s.h.ops[s.phase.token].inFlight
  {
    hide OpOk, FenceOk, JobOk;
  }

  lemma GiveBackKeeps(s: System, t: nat, leak: bool)
    requires Inv(s) && t in s.h.ops && !s.h.ops[t].inFlight && Quiet(s.h, s.d, s.h.ops[t])
    ensures var slot := s.h.ops[t].slot;
            Inv(System(s.h.(ops := s.h.ops - {t}, waits := s.h.waits - {slot},
                            free := if leak then s.h.free else s.h.free + {slot}), s.d, Idle))
  {
    hide Quiet, OpOk, FenceOk, Stale, IdsOk, StreamsOk, JobOk;
    var h, d, slot := s.h, s.d, s.h.ops[t].slot;
    var h' := h.(ops := h.ops - {t}, waits := h.waits - {slot}, free := if leak then h.free else h.free + {slot});
    forall u | u in h'.ops
      ensures OpOk(h', d, u, h'.ops[u])
    {
      ReleasedOp(h, h', d, slot, u, h.ops[u]);
    }
    forall f | 0 <= f < |h'.fences|
      ensures FenceOk(h', d, f, h'.fences[f])
    {
      ReleasedFence(s, t, h', f);
    }
    forall b | b in d.running
      ensures JobOk(h', d, b, d.running[b])
    {
      QuietJobs(s, t, b);
      ReleasedJob(h, h', d, t, b);
    }
    forall other | other in h'.free
      ensures Stale(h', d, other)
    {
      if other == slot {
        ReleasedStale(s, t);
      }
      SameStale(h, h', d, other);
    }
    SameIds(h, h', d);
  }

  lemma ReleasedStale(s: System, t: nat)
    requires Inv(s) && t in s.h.ops && Quiet(s.h, s.d, s.h.ops[t])
    ensures Stale(s.h, s.d, s.h.ops[t].slot)
  {
    assert OpOk(s.h, s.d, t, s.h.ops[t]);
  }

  lemma ReleasedJob(h: Host, h': Host, d: Device, t: nat, b: nat)
    requires b in d.running && JobOk(h, d, b, d.running[b]) && d.running[b].token != t && h'.ops == h.ops - {t}
    ensures JobOk(h', d, b, d.running[b])
  {
  }

  lemma ReleasedOp(h: Host, h': Host, d: Device, slot: nat, u: nat, op: OpEntry)
    requires OpOk(h, d, u, op) && op.slot != slot && h'.free <= h.free + {slot} && h'.waits == h.waits - {slot}
    requires h' == h.(ops := h'.ops, waits := h'.waits, free := h'.free)
    ensures OpOk(h', d, u, op)
  {
  }

  lemma ReleasedFence(s: System, t: nat, h': Host, f: nat)
    requires Inv(s) && t in s.h.ops && Quiet(s.h, s.d, s.h.ops[t]) && 0 <= f < |s.h.fences|
    requires h'.fences == s.h.fences && h'.ops == s.h.ops - {t} && h'.waits == s.h.waits - {s.h.ops[t].slot}
    ensures FenceOk(h', s.d, f, h'.fences[f])
  {
    hide OpOk, JobOk;
    var h := s.h;
    assert FenceOk(h, s.d, f, h.fences[f]);
    if !Exited(s.d, h.fences[f].stream, h.fences[f].kernel) {
      forall u | u in h.fences[f].tokens
        ensures Watched(h', f, u)
      {
        assert Watched(h, f, u);
        assert u != t;
      }
    }
  }

  lemma ShutdownKeeps(s: System)
    requires Inv(s) && Enabled(s, FinishShutdown)
    ensures Inv(Apply(s, FinishShutdown))
  {
    FlagsKeep(s, Apply(s, FinishShutdown));
  }
}
