// Asynchronous completion: the host hands batches to the device and learns of
// their end by polling events and a mirrored batch id, while the device runs.
// Host and device steps interleave freely; a poll is several steps.
module AsyncCompletion {
  import opened Common

  const U32: nat := 0x1_0000_0000
  const BATCHES_PER_KERNEL: nat := 16

  // Work on a stream leaves it in order: items below `retired` have exited.
  datatype Stream = Stream(enqueued: nat, retired: nat)

  // A recorded event completes once its stream has retired `position` items.
  datatype Mark = Mark(stream: nat, position: nat)

  // A batch on the device, and the operation it belongs to.
  datatype Job = Job(slot: nat, token: nat)

  // What the device owns. `finished` are the batch ids ever reported finished;
  // `mirror` is the host-mapped word each slot's finished batch id appears in.
  datatype Device = Device(streams: seq<Stream>, running: map<nat, Job>, finished: set<nat>, mirror: seq<nat>)

  // A wait kernel on a stream, the operations it waits for, and the event
  // behind it (None: recording failed after the launch).
  datatype Fence = Fence(stream: nat, kernel: nat, tokens: seq<nat>, event: Option<nat>)

  datatype WaitState = WaitState(waits: seq<nat>, submitRetired: bool)

  datatype OpEntry = OpEntry(slot: nat, stream: nat, kernel: nat, batch: nat, inFlight: bool)

  // `issued` lists every batch id ever taken; `events` holds each slot's
  // submit event, which is reused by the slot's next operation.
  datatype Host = Host(
    nextBatch: nat, issued: seq<nat>, slotBatch: seq<nat>, events: seq<Option<Mark>>, free: set<nat>,
    waits: map<nat, WaitState>, fences: seq<Fence>, ops: map<nat, OpEntry>, nextToken: nat,
    stopping: bool, failed: bool, tables: bool)

  // Where the host is inside progress or release: the submit kernel was seen
  // gone, or the batch was seen finished and `fence` fences were seen retired.
  datatype Phase = Idle | SubmitSeen(token: nat) | Fences(token: nat, fence: nat, releasing: bool)

  datatype System = System(h: Host, d: Device, phase: Phase)

  predicate Exited(d: Device, stream: nat, kernel: nat) {
    stream < |d.streams| && kernel < d.streams[stream].retired
  }

  predicate Complete(d: Device, m: Mark) {
    m.stream < |d.streams| ==> m.position <= d.streams[m.stream].retired
  }

  // An event never recorded reports completion.
  predicate SubmitDone(h: Host, d: Device, slot: nat) {
    || (slot in h.waits && h.waits[slot].submitRetired)
    || (slot < |h.events| && (h.events[slot].None? || Complete(d, h.events[slot].value)))
  }

  predicate FenceDone(h: Host, d: Device, f: nat) {
    f < |h.fences| && h.fences[f].event.Some? && Complete(d, Mark(h.fences[f].stream, h.fences[f].event.value))
  }

  // ---- submitting ----

  datatype LaunchOutcome = Launched | LaunchFailed

  // What happened to the event behind the submit kernel.
  datatype EventOutcome = Recorded | SyncedInstead | NeitherWorked

  function Push(d: Device, stream: nat): (r: Device)
    requires stream < |d.streams|
  {
    d.(streams := d.streams[stream := d.streams[stream].(enqueued := d.streams[stream].enqueued + 1)])
  }

  // A batch id is taken and the slot's records are reset before anything can
  // fail; an empty batch is finished at once.
  function LaunchIo(h: Host, d: Device, slot: nat, stream: nat, entries: nat, out: LaunchOutcome): (Host, Device)
    requires slot < |h.slotBatch| == |d.mirror| && stream < |d.streams| && h.nextBatch != 0
  {
    var batch := h.nextBatch;
    var h' := h.(nextBatch := (batch + 1) % U32, issued := h.issued + [batch], slotBatch := h.slotBatch[slot := batch],
                 waits := h.waits[slot := WaitState([], false)]);
    var d' := d.(mirror := d.mirror[slot := if entries == 0 then batch else 0],
                 finished := if entries == 0 then d.finished + {batch} else d.finished);
    if out.LaunchFailed? then (h', d')
    else
      (h', Push(d', stream).(running := if entries == 0 then d.running else d.running[batch := Job(slot, h.nextToken)]))
  }

  function SubmitEvent(h: Host, d: Device, slot: nat, stream: nat, kernel: nat, event: EventOutcome): (Host, Device)
    requires slot < |h.events| && stream < |d.streams|
  {
    match event
    case Recorded => (h.(events := h.events[slot := Some(Mark(stream, kernel + 1))]), d)
    case SyncedInstead =>
      (h.(waits := h.waits[slot := WaitState([], true)]),
       d.(streams := d.streams[stream := d.streams[stream].(retired := d.streams[stream].enqueued)]))
    case NeitherWorked => (h.(failed := true), d)
  }

  function Submit(h: Host, d: Device, slot: nat, stream: nat, entries: nat, out: LaunchOutcome,
                  event: EventOutcome): (Host, Device)
    requires slot < |h.slotBatch| == |d.mirror| == |h.events| && stream < |d.streams|
  {
    if h.stopping || h.failed || h.nextBatch == 0 then (h, d)
    else
      var (h', d') := LaunchIo(h, d, slot, stream, entries, out);
      if out.LaunchFailed? then (h', d')
      else
        var kernel := d.streams[stream].enqueued;
        var op := OpEntry(slot, stream, kernel, h.nextBatch, true);
        SubmitEvent(h'.(ops := h'.ops[h.nextToken := op], nextToken := h.nextToken + 1, free := h.free - {slot}),
                    d', slot, stream, kernel, event)
  }

  // ---- enqueueing waits ----

  // Which of the calls into the device runtime succeed: making a stream wait
  // for the n-th operation's submit event; and, for the fence with a given
  // number, creating its event, launching its kernel, recording the event.
  datatype Calls = Calls(waitSubmit: nat -> bool, create: nat -> bool, launch: nat -> bool, record: nat -> bool)

  datatype Enqueue = Enqueue(h: Host, d: Device, list: seq<nat>, ok: bool)

  predicate Fenced(h: Host, slot: nat, stream: nat) {
    slot in h.waits && exists i :: 0 <= i < |h.waits[slot].waits| && h.waits[slot].waits[i] < |h.fences| &&
                                   h.fences[h.waits[slot].waits[i]].stream == stream
  }

  predicate Listed(h: Host, list: seq<nat>, slot: nat) {
    exists i :: 0 <= i < |list| && list[i] in h.ops && h.ops[list[i]].slot == slot
  }

  // The fence is attached to every listed operation's slot.
  function Attach(h: Host, list: seq<nat>, f: nat): (r: map<nat, WaitState>)
    ensures r.Keys == h.waits.Keys
  {
    if list == [] then h.waits
    else
      var w, t := Attach(h, list[..|list| - 1], f), list[|list| - 1];
      if t in h.ops && h.ops[t].slot in w
      then w[h.ops[t].slot := w[h.ops[t].slot].(waits := w[h.ops[t].slot].waits + [f])] else w
  }

  // A launched kernel keeps its fence even when recording the event failed.
  function Flush(e: Enqueue, stream: nat, calls: Calls): (r: Enqueue)
    requires stream < |e.d.streams|
    ensures |r.d.streams| == |e.d.streams|
  {
    var f := |e.h.fences|;
    if !e.ok || e.list == [] then e
    else if !calls.create(f) || !calls.launch(f) then e.(ok := false)
    else
      var kernel := e.d.streams[stream].enqueued;
      var fence := Fence(stream, kernel, e.list, if calls.record(f) then Some(kernel + 1) else None);
      Enqueue(e.h.(fences := e.h.fences + [fence], waits := Attach(e.h, e.list, f),
                   failed := e.h.failed || !calls.record(f)),
              Push(e.d, stream), [], calls.record(f))
  }

  predicate Wanted(e: Enqueue, t: nat, stream: nat) {
    && t in e.h.ops && e.h.ops[t].inFlight && e.h.ops[t].slot < |e.h.slotBatch|
    && !Fenced(e.h, e.h.ops[t].slot, stream) && !Listed(e.h, e.list, e.h.ops[t].slot)
  }

  function EnqueueOne(e: Enqueue, t: nat, n: nat, stream: nat, calls: Calls): (r: Enqueue)
    requires stream < |e.d.streams|
    ensures |r.d.streams| == |e.d.streams|
  {
    if !e.ok || !Wanted(e, t, stream) then e
    else if !(e.h.ops[t].slot in e.h.waits && e.h.waits[e.h.ops[t].slot].submitRetired) && !calls.waitSubmit(n)
    then e.(ok := false)
    else
      var e' := e.(list := e.list + [t]);
      if |e'.list| == BATCHES_PER_KERNEL then Flush(e', stream, calls) else e'
  }

  function EnqueueAll(h: Host, d: Device, tokens: seq<nat>, stream: nat, calls: Calls): (r: Enqueue)
    requires stream < |d.streams|
    ensures |r.d.streams| == |d.streams|
  {
    if tokens == [] then Enqueue(h, d, [], true)
    else
      var n := |tokens| - 1;
      EnqueueOne(EnqueueAll(h, d, tokens[..n], stream, calls), tokens[n], n, stream, calls)
  }

  // Unknown operations are refused before anything is enqueued.
  function EnqueueWait(h: Host, d: Device, tokens: seq<nat>, stream: nat, calls: Calls): Enqueue
    requires stream < |d.streams|
  {
    if exists i :: 0 <= i < |tokens| && tokens[i] !in h.ops then Enqueue(h, d, [], false)
    else Flush(EnqueueAll(h, d, tokens, stream, calls), stream, calls)
  }

  // ---- the steps ----

  datatype Step =
    // device
    | Retire(stream: nat)
    | Finish(batch: nat)
    | ForeignWork(stream: nat)
    // host
    | SubmitOp(slot: nat, stream: nat, entries: nat, launch: LaunchOutcome, event: EventOutcome)
    | EnqueueWaits(tokens: seq<nat>, stream: nat, calls: Calls)
    | PollSubmit(token: nat, error: bool)
    | SeeDeadline
    | PollFinished
    | PollFence(error: bool)
    | Conclude(leak: bool)
    | BeginRelease(token: nat)
    | BeginShutdown
    | FinishShutdown

  ghost predicate Enabled(s: System, step: Step) {
    var h, d := s.h, s.d;
    match step
    case Retire(st) => st < |d.streams| && d.streams[st].retired < d.streams[st].enqueued
    case Finish(b) => b in d.running && d.running[b].slot < |d.mirror|
    case ForeignWork(st) => st < |d.streams|
    case SubmitOp(slot, st, _, _, _) =>
      && h.tables && s.phase.Idle? && slot in h.free && st < |d.streams|
      && slot < |h.slotBatch| == |d.mirror| == |h.events|
    case EnqueueWaits(_, st, _) => h.tables && s.phase.Idle? && st < |d.streams|
    case PollSubmit(t, error) =>
      && h.tables && s.phase.Idle? && t in h.ops && h.ops[t].inFlight
      && (error ==> !(h.ops[t].slot in h.waits && h.waits[h.ops[t].slot].submitRetired))
    case SeeDeadline => s.phase.SubmitSeen?
    case PollFinished =>
      && s.phase.SubmitSeen? && s.phase.token in h.ops && h.ops[s.phase.token].slot < |d.mirror| == |h.slotBatch|
    case PollFence(_) => InFences(s) && s.phase.fence < |h.waits[h.ops[s.phase.token].slot].waits| &&
                         h.waits[h.ops[s.phase.token].slot].waits[s.phase.fence] < |h.fences| &&
                         h.fences[h.waits[h.ops[s.phase.token].slot].waits[s.phase.fence]].stream < |d.streams|
    case Conclude(_) => InFences(s) && s.phase.fence == |h.waits[h.ops[s.phase.token].slot].waits|
    case BeginRelease(t) => h.tables && s.phase.Idle? && t in h.ops
    case BeginShutdown => h.tables && s.phase.Idle?
    case FinishShutdown => h.tables && s.phase.Idle? && h.stopping && forall t :: t in h.ops ==> !h.ops[t].inFlight
  }

  ghost predicate InFences(s: System) {
    s.phase.Fences? && s.phase.token in s.h.ops && s.h.ops[s.phase.token].slot in s.h.waits
  }

  // One fence: a missing event is recorded again on the same stream; a
  // present one is queried.
  ghost function CheckFence(s: System, error: bool): System
    requires Enabled(s, PollFence(error))
  {
    var h, d := s.h, s.d;
    var f := h.waits[h.ops[s.phase.token].slot].waits[s.phase.fence];
    if error then System(h.(failed := h.failed || !s.phase.releasing), d, Idle)
    else if h.fences[f].event.None? then
      s.(h := h.(fences := h.fences[f := h.fences[f].(event := Some(d.streams[h.fences[f].stream].enqueued))]))
    else if FenceDone(h, d, f) then s.(phase := Fences(s.phase.token, s.phase.fence + 1, s.phase.releasing))
    else s.(phase := Idle)
  }

  ghost function Apply(s: System, step: Step): System
    requires Enabled(s, step)
  {
    var h, d := s.h, s.d;
    match step
    case Retire(st) => s.(d := d.(streams := d.streams[st := d.streams[st].(retired := d.streams[st].retired + 1)]))
    case Finish(b) =>
      s.(d := d.(running := d.running - {b}, finished := d.finished + {b}, mirror := d.mirror[d.running[b].slot := b]))
    case ForeignWork(st) => s.(d := Push(d, st))
    case SubmitOp(slot, st, entries, launch, event) =>
      var (h', d') := Submit(h, d, slot, st, entries, launch, event);
      System(h', d', Idle)
    case EnqueueWaits(tokens, st, calls) =>
      var e := EnqueueWait(h, d, tokens, st, calls);
      System(e.h, e.d, Idle)
    case PollSubmit(t, error) =>
      if error then s.(h := h.(failed := true))
      else if SubmitDone(h, d, h.ops[t].slot) then s.(phase := SubmitSeen(t))
      else s
    case SeeDeadline => s.(h := h.(failed := true))
    case PollFinished =>
      var slot := h.ops[s.phase.token].slot;
      s.(phase := if d.mirror[slot] == h.slotBatch[slot] then Fences(s.phase.token, 0, false) else Idle)
    case PollFence(error) => CheckFence(s, error)
    case Conclude(leak) =>
      var t := s.phase.token;
      var op := h.ops[t];
      if s.phase.releasing then
        System(h.(ops := h.ops - {t}, waits := h.waits - {op.slot},
                  free := if leak then h.free else h.free + {op.slot}), d, Idle)
      else System(h.(ops := h.ops[t := op.(inFlight := false)]), d, Idle)
    case BeginRelease(t) => if h.ops[t].inFlight then s else s.(phase := Fences(t, 0, true))
    case BeginShutdown => s.(h := h.(stopping := true))
    case FinishShutdown => s.(h := h.(tables := false))
  }
}
