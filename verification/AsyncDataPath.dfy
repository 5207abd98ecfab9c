// The host object of asynchronous completion: loops that update its fields.
// Between any two reads of device state the device may take any number of
// steps; every call is a run of the step machine.
module AsyncDataPath {
  import opened Common
  import opened AsyncCompletion
  import opened AsyncLiveness
  import opened AsyncSafety
  import opened AsyncRuns

  // What the device does before the n-th read, which reads report an error
  // instead of an answer, and which find the deadline flag set.
  datatype Surroundings = Surroundings(moves: nat -> seq<Step>, error: nat -> bool, pastDeadline: nat -> bool)

  ghost predicate NoErrors(env: Surroundings) { forall n: nat :: !env.error(n) }

  datatype FenceResult = Retired | StillRunning | DeviceError

  datatype Outcome = Terminal | Running | Unwaited | Faulted

  datatype ReleaseStatus = Released | NotFound | InFlight | NotRetired | ReleaseFault

  datatype ShutdownStatus = Drained | WaitFailed | PollFailed | TimedOut | BaseFailed

  // Nanoseconds each polling pass of a shutdown may take.
  const PASS_TIMEOUT: nat := 1000000

  class StripedAsyncDataPath {
    var nextBatch: nat
    var slotBatch: seq<nat>
    var events: seq<Option<Mark>>
    var waits: map<nat, WaitState>
    var fences: seq<Fence>
    var ops: map<nat, OpEntry>
    var free: set<nat>
    var nextToken: nat
    var stopping: bool
    var failed: bool
    var tables: bool
    var device: Device
    // The batch ids taken so far, and the run that led here.
    ghost var issued: seq<nat>
    ghost var origin: System
    ghost var history: seq<Step>
    ghost var phase: Phase

    ghost function View(): Host
      reads this
    {
      Host(nextBatch, issued, slotBatch, events, free, waits, fences, ops, nextToken, stopping, failed, tables)
    }

    // Fresh tables; the run recorded in `history` starts here.
    constructor (slots: nat, streams: nat)
      ensures Follows() && phase.Idle? && tables && origin == Initial(slots, streams) && history == []
    {
      var s := Initial(slots, streams);
      nextBatch, issued, slotBatch, events, free := s.h.nextBatch, s.h.issued, s.h.slotBatch, s.h.events, s.h.free;
      waits, fences, ops, nextToken := s.h.waits, s.h.fences, s.h.ops, s.h.nextToken;
      stopping, failed, tables, device := s.h.stopping, s.h.failed, s.h.tables, s.d;
      origin, history, phase := s, [], s.phase;
      new;
      hide Inv;
      InitialInv(slots, streams);
      NoSteps(s);
    }

    // ---- enqueueing waits ----

    method AttachFence(list: seq<nat>, f: nat)
      modifies this`waits
      ensures waits == Attach(old(View()), list, f)
    {
      for i := 0 to |list|
        invariant waits == Attach(old(View()), list[..i], f)
      {
        assert list[..i + 1][..i] == list[..i];
        if list[i] in ops && ops[list[i]].slot in waits {
          var slot := ops[list[i]].slot;
          waits := waits[slot := waits[slot].(waits := waits[slot].waits + [f])];
        }
      }
      assert list[..|list|] == list;
    }

    method Flush(list: seq<nat>, stream: nat, calls: Calls) returns (ok: bool)
      requires stream < |device.streams|
      modifies this`waits, this`fences, this`failed, this`device
      ensures |device.streams| == |old(device).streams|
      ensures var r := AsyncCompletion.Flush(Enqueue(old(View()), old(device), list, true), stream, calls);
              View() == r.h && device == r.d && ok == r.ok
    {
      if list == [] {
        return true;
      }
      var f := |fences|;
      if !calls.create(f) {
        return false;
      }
      if !calls.launch(f) {
        return false;
      }
      var kernel := device.streams[stream].enqueued;
      device := Push(device, stream);
      var event: Option<nat> := Some(kernel + 1);
      if !calls.record(f) {
        event := None;
        failed := true;
      }
      AttachIgnoresFlags(old(View()), View(), list, f);
      AttachFence(list, f);
      fences := fences + [Fence(stream, kernel, list, event)];
      return calls.record(f);
    }

    method HasFence(slot: nat, stream: nat) returns (found: bool)
      ensures found == Fenced(View(), slot, stream)
    {
      if slot !in waits {
        return false;
      }
      var ids := waits[slot].waits;
      for i := 0 to |ids|
        invariant forall j :: 0 <= j < i && ids[j] < |fences| ==> fences[ids[j]].stream != stream
      {
        if ids[i] < |fences| && fences[ids[i]].stream == stream {
          return true;
        }
      }
      return false;
    }

    method AlreadyListed(list: seq<nat>, slot: nat) returns (found: bool)
      ensures found == Listed(View(), list, slot)
    {
      for i := 0 to |list|
        invariant forall j :: 0 <= j < i ==> !(list[j] in ops && ops[list[j]].slot == slot)
      {
        if list[i] in ops && ops[list[i]].slot == slot {
          return true;
        }
      }
      return false;
    }

    // Up to sixteen operations per wait kernel; one fence per kernel, shared.
    method EnqueueWaitLocked(tokens: seq<nat>, stream: nat, calls: Calls) returns (ok: bool)
      requires stream < |device.streams|
      modifies this`waits, this`fences, this`failed, this`device
      ensures |device.streams| == |old(device).streams|
      ensures var e := EnqueueAll(old(View()), old(device), tokens, stream, calls);
              var r := AsyncCompletion.Flush(e, stream, calls);
              View() == r.h && device == r.d && ok == r.ok
    {
      hide Fenced, Listed, AsyncCompletion.Flush, EnqueueOne;
      var list: seq<nat> := [];
      for i := 0 to |tokens|
        invariant stream < |device.streams| == |old(device).streams|
        invariant Enqueue(View(), device, list, true) ==
                  EnqueueAll(old(View()), old(device), tokens[..i], stream, calls)
      {
        ghost var e := Enqueue(View(), device, list, true);
        var t := tokens[i];
        EnqueueNext(old(View()), old(device), tokens, i, stream, calls);
        EnqueueOneCases(e, t, i, stream, calls);
        if t !in ops || !ops[t].inFlight {
          continue;
        }
        var slot := ops[t].slot;
        if slot >= |slotBatch| {
          continue;
        }
        var fenced := HasFence(slot, stream);
        if fenced {
          continue;
        }
        var listed := AlreadyListed(list, slot);
        if listed {
          continue;
        }
        if !(slot in waits && waits[slot].submitRetired) {
          if !calls.waitSubmit(i) {
            EnqueueStops(old(View()), old(device), tokens, i + 1, stream, calls);
            return false;
          }
        }
        list := list + [t];
        if |list| == BATCHES_PER_KERNEL {
          FlushClears(e.(list := list), stream, calls);
          ok := Flush(list, stream, calls);
          if !ok {
            EnqueueStops(old(View()), old(device), tokens, i + 1, stream, calls);
            return false;
          }
          list := [];
        }
      }
      assert tokens[..|tokens|] == tokens;
      ok := Flush(list, stream, calls);
    }

    // ---- polling ----

    ghost function Here(): System
      reads this
    {
      System(View(), device, phase)
    }

    // The object is where the run recorded in `history` has got to.
    ghost predicate Follows()
      reads this
    {
      Inv(Here()) && Reaches(origin, history, Here()) && AllDetectable(history)
    }

    // Record that the fields have just taken one step.
    ghost method Took(before: System, step: Step)
      requires Inv(before) && Reaches(origin, history, before) && AllDetectable(history)
      requires Enabled(before, step) && Detectable(step) && Apply(before, step) == Here()
      modifies this`history
      ensures Follows() && history == old(history) + [step]
    {
      hide Inv, Enabled, Apply, Reaches;
      ReachStep(origin, history, before, step);
      StepKeeps(before, step);
      history := history + [step];
    }

    // The device runs for a while.
    method DeviceRuns(moves: seq<Step>)
      requires Follows()
      modifies this`device, this`history
      ensures Follows() && old(history) <= history && Onward(slotBatch, old(device), device)
    {
      hide Inv, Reaches, Onward;
      OnwardAlready(slotBatch, device);
      for i := 0 to |moves|
        invariant Follows() && old(history) <= history && Onward(slotBatch, old(device), device)
      {
        var d := device;
        ghost var before := Here();
        match moves[i] {
          case Retire(st) =>
            if st < |d.streams| && d.streams[st].retired < d.streams[st].enqueued {
              device := d.(streams := d.streams[st := d.streams[st].(retired := d.streams[st].retired + 1)]);
              WentOn(before, moves[i], old(device));
              Took(before, moves[i]);
            }
          case Finish(b) =>
            if b in d.running && d.running[b].slot < |d.mirror| {
              device := d.(running := d.running - {b}, finished := d.finished + {b},
                           mirror := d.mirror[d.running[b].slot := b]);
              WentOn(before, moves[i], old(device));
              Took(before, moves[i]);
            }
          case ForeignWork(st) =>
            if st < |d.streams| {
              device := Push(d, st);
              WentOn(before, moves[i], old(device));
              Took(before, moves[i]);
            }
          case _ =>
        }
      }
    }

    lemma WentOn(before: System, step: Step, first: Device)
      requires Inv(before) && Enabled(before, step) && (step.Retire? || step.Finish? || step.ForeignWork?)
      requires Onward(before.h.slotBatch, first, before.d)
      ensures Onward(before.h.slotBatch, first, Apply(before, step).d)
    {
      hide Inv, Enabled, Apply, Onward;
      DeviceGoesOnward(before, step);
      OnwardTwice(before.h.slotBatch, first, before.d, Apply(before, step).d);
    }

    // Has the submit kernel exited? None: the query failed.
    method AskSubmit(t: nat, error: bool) returns (gone: Option<bool>)
      requires Follows() && phase.Idle? && tables && t in ops && ops[t].inFlight
      modifies this`failed, this`phase, this`history
      ensures Follows() && old(history) <= history
      ensures phase == if gone == Some(true) then SubmitSeen(t) else Idle
      ensures ops[t].slot in waits
      ensures gone == if error && !waits[ops[t].slot].submitRetired then None
                      else Some(SubmitDone(old(View()), device, ops[t].slot))
    {
      hide Inv, Reaches;
      ghost var before := Here();
      OpInRange(before, t);
      var slot := ops[t].slot;
      if !waits[slot].submitRetired && error {
        failed := true;
        Took(before, PollSubmit(t, true));
        return None;
      }
      if !(waits[slot].submitRetired || events[slot].None? || Complete(device, events[slot].value)) {
        return Some(false);
      }
      phase := SubmitSeen(t);
      Took(before, PollSubmit(t, false));
      return Some(true);
    }

    // A missed deadline stops new work; it does not end the operation.
    method NoteDeadline(t: nat, past: bool)
      requires Follows() && phase == SubmitSeen(t)
      modifies this`failed, this`history
      ensures Follows() && old(history) <= history && failed == (old(failed) || past)
    {
      hide Inv, Reaches;
      if past {
        ghost var before := Here();
        failed := true;
        Took(before, SeeDeadline);
      }
    }

    // Has the batch been reported finished?
    method AskFinished(t: nat) returns (finished: bool)
      requires Follows() && phase == SubmitSeen(t)
      modifies this`phase, this`history
      ensures Follows() && old(history) <= history && t in ops && ops[t].slot in waits
      ensures phase == if finished then Fences(t, 0, false) else Idle
      ensures ops[t].slot < |device.mirror| == |slotBatch|
      ensures finished == (device.mirror[ops[t].slot] == slotBatch[ops[t].slot])
    {
      hide Reaches;
      ghost var before := Here();
      OpInRange(before, t);
      var slot := ops[t].slot;
      hide Inv;
      finished := device.mirror[slot] == slotBatch[slot];
      phase := if finished then Fences(t, 0, false) else Idle;
      Took(before, PollFinished);
    }

    // A fence whose event is missing gets a new one on the same stream, and is
    // never taken for finished.
    method RecordAgain(t: nat, i: nat, error: bool) returns (ok: bool)
      requires Follows() && phase.Fences? && phase.token == t && phase.fence == i && t in ops && ops[t].slot in waits
      requires i < |waits[ops[t].slot].waits|
      requires waits[ops[t].slot].waits[i] < |fences| && fences[waits[ops[t].slot].waits[i]].event.None?
      modifies this`fences, this`failed, this`phase, this`history
      ensures Follows() && old(history) <= history
      ensures phase == if ok then old(phase) else Idle
      ensures ok ==> |fences| == |old(fences)| && fences[waits[ops[t].slot].waits[i]].event.Some?
      ensures ok == !error && SameTables(old(View()), View())
    {
      hide Inv, Reaches;
      ghost var before := Here();
      FenceInRange(before, t, i);
      var f := waits[ops[t].slot].waits[i];
      if error {
        failed := failed || ops[t].inFlight;
        phase := Idle;
        Took(before, PollFence(true));
        return false;
      }
      fences := fences[f := fences[f].(event := Some(device.streams[fences[f].stream].enqueued))];
      Took(before, PollFence(false));
      return true;
    }

    method QueryFence(t: nat, i: nat, error: bool) returns (result: FenceResult)
      requires Follows() && phase.Fences? && phase.token == t && phase.fence == i && t in ops && ops[t].slot in waits
      requires i < |waits[ops[t].slot].waits|
      requires waits[ops[t].slot].waits[i] < |fences| && fences[waits[ops[t].slot].waits[i]].event.Some?
      modifies this`failed, this`phase, this`history
      ensures Follows() && old(history) <= history
      ensures phase == if result.Retired? then Fences(t, i + 1, old(phase).releasing) else Idle
      ensures result.DeviceError? <==> error
      ensures !error ==> (result.Retired? <==> FenceDone(old(View()), device, waits[ops[t].slot].waits[i]))
    {
      hide Inv, Reaches;
      ghost var before := Here();
      FenceInRange(before, t, i);
      var f := waits[ops[t].slot].waits[i];
      if error {
        failed := failed || ops[t].inFlight;
        phase := Idle;
        Took(before, PollFence(true));
        return DeviceError;
      }
      if device.streams[fences[f].stream].retired < fences[f].event.value {
        phase := Idle;
        Took(before, PollFence(false));
        return StillRunning;
      }
      phase := Fences(t, i + 1, phase.releasing);
      Took(before, PollFence(false));
      return Retired;
    }

    // Query every fence of the operation's slot. Without an error the answer is
    // that they are gone whenever all of them were gone at the start.
    method WaitFencesFinished(t: nat, env: Surroundings, first: nat) returns (result: FenceResult, asked: nat)
      requires Follows() && phase.Fences? && phase.token == t && phase.fence == 0 && t in ops && ops[t].slot in waits
      modifies this`device, this`fences, this`failed, this`phase, this`history
      ensures Follows() && old(history) <= history
      ensures phase == if result.Retired? then Fences(t, |waits[ops[t].slot].waits|, old(phase).releasing) else Idle
      ensures SameTables(old(View()), View()) && Onward(slotBatch, old(device), device)
      ensures NoErrors(env) ==> !result.DeviceError?
      ensures NoErrors(env) && FencesDone(old(View()), old(device), ops[t].slot) ==> result.Retired?
    {
      hide Follows, Complete, Onward, SameTables, FencesDone, FenceDone;
      asked := first;
      var ids := waits[ops[t].slot].waits;
      OnwardAlready(slotBatch, device);
      TablesKeptBut(View(), View());
      for i := 0 to |ids|
        invariant Follows() && old(history) <= history
        invariant phase == Fences(t, i, old(phase).releasing)
        invariant SameTables(old(View()), View()) && Onward(slotBatch, old(device), device)
      {
        ghost var h, d := View(), device;
        result, asked := AskFence(t, i, env, asked);
        TablesTwice(old(View()), h, View());
        OnwardTwice(slotBatch, old(device), d, device);
        FenceWasDone(old(View()), h, old(device), d, ops[t].slot, i);
        if !result.Retired? {
          return;
        }
      }
      return Retired, asked;
    }

    // One fence: record a missing event again, then query it.
    method AskFence(t: nat, i: nat, env: Surroundings, first: nat) returns (result: FenceResult, asked: nat)
      requires Follows() && phase.Fences? && phase.token == t && phase.fence == i && t in ops && ops[t].slot in waits
      requires i < |waits[ops[t].slot].waits|
      modifies this`device, this`fences, this`failed, this`phase, this`history
      ensures Follows() && old(history) <= history
      ensures phase == if result.Retired? then Fences(t, i + 1, old(phase).releasing) else Idle
      ensures SameTables(old(View()), View()) && Onward(slotBatch, old(device), device)
      ensures NoErrors(env) ==> !result.DeviceError?
      ensures NoErrors(env) && FenceDone(old(View()), old(device), waits[ops[t].slot].waits[i]) ==> result.Retired?
    {
      hide Follows, Onward, SameTables, FenceDone;
      asked := first;
      FenceKnown(t, i);
      var f := waits[ops[t].slot].waits[i];
      OnwardAlready(slotBatch, device);
      TablesKeptBut(View(), View());
      if fences[f].event.None? {
        Runs(env.moves(asked), old(device));
        asked := asked + 1;
        var recorded := RecordAgain(t, i, env.error(asked - 1));
        if !recorded {
          return DeviceError, asked;
        }
      }
      ghost var h := View();
      Runs(env.moves(asked), old(device));
      asked := asked + 1;
      OneFenceStays(old(View()), View(), old(device), device, f);
      result := QueryFence(t, i, env.error(asked - 1));
      TablesKeptBut(h, View());
      TablesTwice(old(View()), h, View());
    }

    // The device runs on, as seen since some earlier time.
    method Runs(moves: seq<Step>, ghost first: Device)
      requires Follows() && Onward(slotBatch, first, device)
      modifies this`device, this`history
      ensures Follows() && old(history) <= history && Onward(slotBatch, first, device)
    {
      hide Follows, Onward;
      ghost var mid := device;
      DeviceRuns(moves);
      OnwardTwice(slotBatch, first, mid, device);
    }

    lemma FenceKnown(t: nat, i: nat)
      requires Follows() && phase.Fences? && phase.token == t && t in ops && ops[t].slot in waits
      requires i < |waits[ops[t].slot].waits|
      ensures waits[ops[t].slot].waits[i] < |fences|
    {
      hide Inv, Reaches;
      FenceInRange(Here(), t, i);
    }

    method Publish(t: nat)
      requires Follows() && t in ops && ops[t].slot in waits && phase == Fences(t, |waits[ops[t].slot].waits|, false)
      modifies this`ops, this`phase, this`history
      ensures Follows() && phase.Idle? && old(history) <= history
      ensures ops == old(ops)[t := old(ops)[t].(inFlight := false)]
    {
      hide Inv, Reaches;
      ghost var before := Here();
      ops := ops[t := ops[t].(inFlight := false)];
      phase := Idle;
      Took(before, Conclude(false));
    }

    // Everything listed that is still in flight gets a wait on the stream.
    method DrainUnwaited(unwaited: seq<nat>, fallback: nat, calls: Calls) returns (ok: bool)
      requires Follows() && phase.Idle? && tables && fallback < |device.streams|
      requires forall i :: 0 <= i < |unwaited| ==> unwaited[i] in ops
      modifies this`device, this`fences, this`failed, this`waits, this`history
      ensures Follows() && old(history) <= history && |device.streams| == |old(device).streams|
      ensures ok ==> forall t :: t in unwaited && ops[t].inFlight ==> Fenced(View(), ops[t].slot, fallback)
    {
      hide Inv, Reaches, EnqueueAll, AsyncCompletion.Flush, Fenced;
      ghost var before := Here();
      ok := EnqueueWaitLocked(unwaited, fallback, calls);
      Took(before, EnqueueWaits(unwaited, fallback, calls));
      if ok {
        forall t | t in unwaited && ops[t].inFlight
          ensures Fenced(View(), ops[t].slot, fallback)
        {
          EnqueueWaitCovers(before.h, before.d, unwaited, fallback, calls, t);
        }
      }
    }

    // The first half of a poll: is the submit kernel gone, and is the batch
    // reported finished? None: both.
    method SeeFinished(t: nat, env: Surroundings, first: nat) returns (early: Option<Outcome>)
      requires Follows() && phase.Idle? && tables && t in ops && ops[t].inFlight
      modifies this`device, this`failed, this`phase, this`history
      ensures Follows() && old(history) <= history && ops[t].slot in waits
      ensures phase == if early.None? then Fences(t, 0, false) else Idle
      ensures Onward(slotBatch, old(device), device)
      ensures early in {None, Some(Running), Some(Unwaited), Some(Faulted)}
      ensures early == Some(Unwaited) ==> waits[ops[t].slot].waits == []
      ensures NoErrors(env) ==> early != Some(Faulted)
      ensures NoErrors(env) && Ripe(old(View()), old(device), t) ==> early.None?
      ensures NoErrors(env) && Unattended(old(View()), old(device), t) ==> early in {None, Some(Unwaited)}
    {
      hide Follows, Onward, SubmitDone, FencesDone, Ripe, Unattended;
      TablesKeptBut(View(), View());
      DeviceRuns(env.moves(first));
      RipeStays(old(View()), View(), old(device), device, t);
      RipeParts(View(), device, t);
      var gone := AskSubmit(t, env.error(first));
      if gone != Some(true) {
        return Some(if gone == None then Faulted else Running);
      }
      Runs(env.moves(first + 1), old(device));
      NoteDeadline(t, env.pastDeadline(first + 1));
      TablesKeptBut(old(View()), View());
      RipeStays(old(View()), View(), old(device), device, t);
      RipeParts(View(), device, t);
      var finished := AskFinished(t);
      if !finished {
        return Some(if waits[ops[t].slot].waits == [] then Unwaited else Running);
      }
      return None;
    }

    // One operation of the polling pass. Without an error from the device, one
    // that is ripe ends, and one that nobody waits for ends or is found so.
    method PollOne(t: nat, env: Surroundings, first: nat) returns (outcome: Outcome, asked: nat)
      requires Follows() && phase.Idle? && tables && t in ops && ops[t].inFlight
      modifies this`device, this`fences, this`failed, this`ops, this`phase, this`history
      ensures Follows() && phase.Idle? && old(history) <= history
      ensures SameTables(old(View()), View()) && Onward(slotBatch, old(device), device)
      ensures ops == if outcome.Terminal? then old(ops)[t := old(ops)[t].(inFlight := false)] else old(ops)
      ensures outcome.Unwaited? ==> old(ops)[t].slot in waits && waits[old(ops)[t].slot].waits == []
      ensures NoErrors(env) ==> !outcome.Faulted?
      ensures NoErrors(env) && Ripe(old(View()), old(device), t) ==> outcome.Terminal?
      ensures NoErrors(env) && Unattended(old(View()), old(device), t) ==> outcome.Terminal? || outcome.Unwaited?
    {
      hide Follows, Onward, SameTables, SubmitDone, FencesDone, Ripe, Unattended;
      asked := first + 2;
      var early := SeeFinished(t, env, first);
      TablesKeptBut(old(View()), View());
      if early.Some? {
        return early.value, asked;
      }
      RipeStays(old(View()), View(), old(device), device, t);
      RipeParts(View(), device, t);
      ghost var h, d := View(), device;
      var fenced: FenceResult;
      fenced, asked := WaitFencesFinished(t, env, asked);
      TablesTwice(old(View()), h, View());
      OnwardTwice(slotBatch, old(device), d, device);
      if !fenced.Retired? {
        return if fenced.DeviceError? then Faulted else Running, asked;
      }
      h := View();
      TablesKept(old(View()), h);
      Publish(t);
      TablesKeptBut(h, View());
      TablesTwice(old(View()), h, View());
      return Terminal, asked;
    }

    // One polling pass over the operations, in whatever order the map yields
    // them; `late` tells when the time budget is used up, `overdue` which
    // unwaited operations have outlived the grace period and get a wait on the
    // fallback stream. The pass is a run of the step machine, so all that is
    // proved of runs holds of it. `terminal` counts the operations that ended.
    // When time lasts and the device reports no error, every operation that was
    // ripe when the pass began, and that the work budget reaches, has ended;
    // and every unattended overdue one has ended or is waited for.
    method Progress(order: seq<nat>, budget: nat, timeout: nat, late: nat -> bool, overdue: nat -> bool, fallback: nat,
                    calls: Calls, env: Surroundings)
      returns (ok: bool, terminal: nat, more: bool)
      requires Follows() && phase.Idle? && tables && fallback < |device.streams|
      modifies this`device, this`fences, this`failed, this`ops, this`waits, this`phase, this`history
      ensures Follows() && phase.Idle? && old(history) <= history && |device.streams| == |old(device).streams|
      ensures SameButEnded(old(ops), ops) && terminal == |Ended(old(ops), ops)|
      ensures ok && !more ==> forall t :: t in ops ==> !ops[t].inFlight
      ensures !ok ==> Busy(old(ops))
      ensures budget == 0 || timeout == 0 ==> ok && terminal == 0 && ops == old(ops) && more == (ops != map[])
      ensures Calm(env, late) && timeout > 0 ==>
                var due := Due(old(View()), old(device), order, budget);
                due <= Ended(old(ops), ops) && |due| <= terminal
      ensures Calm(env, late) && timeout > 0 && ok ==>
                forall i :: 0 <= i < |order| && InTime(old(ops), order, budget, i) && overdue(order[i]) &&
                            Unattended(old(View()), old(device), order[i]) ==>
                  Attended(View(), order[i], fallback)
    {
      hide Follows, SameTables, Ripe, Unattended, SameButEnded, Ended, Fenced, Backlog;
      if budget == 0 || timeout == 0 {
        NothingEnded(ops);
        NothingDue(View(), device, order);
        return true, 0, ops != map[];
      }
      var unwaited: seq<nat>;
      ok, terminal, more, unwaited := PollPass(order, budget, late, overdue, env);
      if !ok {
        return;
      }
      DueEnded(old(View()), old(device), ops, unwaited, overdue, order, budget);
      if unwaited != [] && !late(|order|) {
        ok := DrainUnwaited(unwaited, fallback, calls);
      }
      more := more || exists t :: t in ops && ops[t].inFlight;
    }

    // A poll inside a pass, compared with the state the pass began in.
    method PollSince(t: nat, env: Surroundings, first: nat, ghost h: Host, ghost d: Device)
      returns (outcome: Outcome, asked: nat)
      requires Follows() && phase.Idle? && tables && t in ops && ops[t].inFlight
      requires SameTables(h, View()) && Onward(slotBatch, d, device) && SameButEnded(h.ops, ops)
      modifies this`device, this`fences, this`failed, this`ops, this`phase, this`history
      ensures Follows() && phase.Idle? && old(history) <= history
      ensures SameTables(h, View()) && Onward(slotBatch, d, device)
      ensures SameButEnded(h.ops, ops) && SameButEnded(old(ops), ops)
      ensures ops == if outcome.Terminal? then old(ops)[t := old(ops)[t].(inFlight := false)] else old(ops)
      ensures |Ended(h.ops, ops)| == |Ended(h.ops, old(ops))| + (if outcome.Terminal? then 1 else 0)
      ensures NoErrors(env) ==> !outcome.Faulted?
      ensures NoErrors(env) && Ripe(h, d, t) ==> outcome.Terminal?
      ensures NoErrors(env) && Unattended(h, d, t) ==> outcome.Terminal? || outcome.Unwaited?
    {
      hide Follows, Onward, SameTables, Ripe, Unattended, SameButEnded, Ended;
      outcome, asked := PollOne(t, env, first);
      TablesKept(h, old(View()));
      TablesTwice(h, old(View()), View());
      OnwardTwice(slotBatch, d, old(device), device);
      StillIn(h.ops, old(ops), t);
      RipeStays(h, old(View()), d, old(device), t);
      OneEnded(old(ops), ops, t);
      EndedSince(h.ops, old(ops), ops);
      if outcome.Terminal? {
        OneMoreEnded(h.ops, old(ops), t);
      }
    }

    // The loop of a polling pass.
    method PollPass(order: seq<nat>, budget: nat, late: nat -> bool, overdue: nat -> bool, env: Surroundings)
      returns (ok: bool, terminal: nat, more: bool, unwaited: seq<nat>)
      requires Follows() && phase.Idle? && tables
      modifies this`device, this`fences, this`failed, this`ops, this`phase, this`history
      ensures Follows() && phase.Idle? && old(history) <= history && |device.streams| == |old(device).streams|
      ensures SameButEnded(old(ops), ops) && terminal == |Ended(old(ops), ops)|
      ensures forall t :: t in unwaited ==> t in ops
      ensures !ok || unwaited != [] ==> Busy(old(ops))
      ensures Calm(env, late) ==>
                ok && AllServed(old(View()), old(device), ops, unwaited, overdue, order, budget)
    {
      hide Follows, Onward, SameTables, Ripe, Unattended, SameButEnded, Ended, Served, Backlog, Busy, Calm, AllServed;
      ok, terminal, more, unwaited := true, 0, false, [];
      NothingEnded(ops);
      OnwardAlready(slotBatch, device);
      TablesKeptBut(View(), View());
      var work, asked := 0, 0;
      BacklogEmpty(ops, order);
      for i := 0 to |order|
        invariant Follows() && phase.Idle? && old(history) <= history
        invariant SameTables(old(View()), View()) && Onward(slotBatch, old(device), device)
        invariant SameButEnded(old(ops), ops) && terminal == |Ended(old(ops), ops)|
        invariant forall t :: t in unwaited ==> t in ops
        invariant unwaited != [] ==> Busy(old(ops))
        invariant work <= Backlog(old(ops), order[..i])
        invariant Calm(env, late) ==>
                    forall j :: 0 <= j < i ==> Served(old(View()), old(device), ops, unwaited, overdue, order[j])
      {
        var t := order[i];
        BacklogNext(old(ops), order, i);
        StillIn(old(ops), ops, t);
        if t !in ops || !ops[t].inFlight {
          SkippedIsServed(old(View()), old(device), ops, unwaited, overdue, t);
          continue;
        }
        if work >= budget || late(i) {
          more := true;
          EnoughServed(old(View()), old(device), ops, unwaited, overdue, order, budget, i, env, late);
          SameStreams(slotBatch, old(device), device);
          return;
        }
        BusyWith(old(ops), t);
        CalmMeans(env, late, i);
        work := work + 1;
        var outcome: Outcome;
        ghost var before, waiting := ops, unwaited;
        outcome, asked := PollSince(t, env, asked, old(View()), old(device));
        match outcome {
          case Faulted =>
            SameStreams(slotBatch, old(device), device);
            return false, terminal, more, unwaited;
          case Terminal => terminal := terminal + 1;
          case Unwaited =>
            if overdue(t) {
              unwaited := unwaited + [t];
            }
          case Running =>
        }
        if Calm(env, late) {
          PolledIsServed(old(View()), old(device), before, ops, unwaited, overdue, t, outcome);
          ServedStays(old(View()), old(device), before, ops, waiting, unwaited, overdue, order[..i]);
        }
      }
      EnoughServed(old(View()), old(device), ops, unwaited, overdue, order, budget, |order|, env, late);
      SameStreams(slotBatch, old(device), device);
    }

    // ---- submitting ----

    // A batch id is taken and the slot reset before the launch can fail.
    method LaunchIoKernel(slot: nat, stream: nat, entries: nat, launch: LaunchOutcome)
      requires nextBatch != 0 && stream < |device.streams| && slot < |slotBatch| == |device.mirror|
      modifies this`nextBatch, this`issued, this`slotBatch, this`waits, this`device
      ensures (View(), device) == LaunchIo(old(View()), old(device), slot, stream, entries, launch)
    {
      var batch := nextBatch;
      nextBatch := (nextBatch + 1) % U32;
      issued := issued + [batch];
      slotBatch := slotBatch[slot := batch];
      waits := waits[slot := WaitState([], false)];
      device := device.(mirror := device.mirror[slot := if entries == 0 then batch else 0]);
      if entries == 0 {
        device := device.(finished := device.finished + {batch});
      }
      if launch.Launched? {
        device := Push(device, stream);
        if entries > 0 {
          device := device.(running := device.running[batch := Job(slot, nextToken)]);
        }
      }
    }

    // The event behind the kernel, or the fallback when recording it failed.
    method RecordSubmit(slot: nat, stream: nat, kernel: nat, event: EventOutcome)
      requires slot < |events| && stream < |device.streams|
      modifies this`waits, this`device, this`events, this`failed
      ensures (View(), device) == SubmitEvent(old(View()), old(device), slot, stream, kernel, event)
    {
      match event {
        case Recorded => events := events[slot := Some(Mark(stream, kernel + 1))];
        case SyncedInstead =>
          waits := waits[slot := WaitState([], true)];
          var drained := device.streams[stream].(retired := device.streams[stream].enqueued);
          device := device.(streams := device.streams[stream := drained]);
        case NeitherWorked => failed := true;
      }
    }

    method LaunchAndRecord(slot: nat, stream: nat, entries: nat, launch: LaunchOutcome, event: EventOutcome)
      returns (token: Option<nat>)
      requires !stopping && !failed && nextBatch != 0 && stream < |device.streams|
      requires slot < |slotBatch| == |events| == |device.mirror|
      modifies this`nextBatch, this`issued, this`slotBatch, this`waits, this`device, this`ops, this`nextToken,
               this`free, this`events, this`failed
      ensures (View(), device) == AsyncCompletion.Submit(old(View()), old(device), slot, stream, entries, launch, event)
      ensures token == if launch.Launched? then Some(old(nextToken)) else None
    {
      hide LaunchIo, SubmitEvent;
      var batch, kernel := nextBatch, device.streams[stream].enqueued;
      LaunchIoShape(View(), device, slot, stream, entries, launch);
      LaunchIoKernel(slot, stream, entries, launch);
      if launch.LaunchFailed? {
        return None;
      }
      token := Some(nextToken);
      ops := ops[nextToken := OpEntry(slot, stream, kernel, batch, true)];
      nextToken, free := nextToken + 1, free - {slot};
      RecordSubmit(slot, stream, kernel, event);
    }

    // An operation is accepted only with a slot of the arena, a batch id left,
    // and no failure or shutdown; an accepted one is new and in flight. When
    // neither the event nor the fallback worked the device is marked failed,
    // and the object no longer follows a run with detectable submissions.
    method Submit(slot: nat, stream: nat, entries: nat, launch: LaunchOutcome, event: EventOutcome)
      returns (token: Option<nat>)
      requires Follows() && phase.Idle? && tables && stream < |device.streams|
      modifies this`nextBatch, this`issued, this`slotBatch, this`waits, this`device, this`ops, this`nextToken,
               this`free, this`events, this`failed, this`history
      ensures token.Some? && event.NeitherWorked? ==> failed
      ensures token.None? || !event.NeitherWorked? ==> Follows()
      ensures old(history) <= history && |device.streams| == |old(device).streams|
      ensures token.Some? <==>
                && !old(stopping) && !old(failed) && slot in old(free) && slot < |old(slotBatch)|
                && old(nextBatch) != 0 && launch.Launched?
      ensures token.None? ==> ops == old(ops) && free == old(free)
      ensures token.Some? ==> token.value !in old(ops) && free == old(free) - {slot}
      ensures token.Some? ==>
                var op := OpEntry(slot, stream, old(device.streams[stream].enqueued), old(nextBatch), true);
                ops == old(ops)[token.value := op]
    {
      hide Inv, Reaches, AsyncCompletion.Submit;
      ghost var before := Here();
      if stopping || failed || slot !in free || slot >= |slotBatch| || nextBatch == 0 {
        return None;
      }
      FreeInRange(before);
      SubmitEffect(View(), device, slot, stream, entries, launch, event);
      token := LaunchAndRecord(slot, stream, entries, launch, event);
      if launch.LaunchFailed? {
        NoEventNeeded(before.h, before.d, slot, stream, entries, event);
        Took(before, SubmitOp(slot, stream, entries, launch, Recorded));
      } else if !event.NeitherWorked? {
        Took(before, SubmitOp(slot, stream, entries, launch, event));
      }
    }

    // ---- releasing ----

    method BeginAsking(t: nat)
      requires Follows() && phase.Idle? && tables && t in ops && !ops[t].inFlight
      modifies this`phase, this`history
      ensures Follows() && old(history) <= history && phase == Fences(t, 0, true) && ops[t].slot in waits
    {
      hide Inv, Reaches;
      ghost var before := Here();
      OpInRange(before, t);
      phase := Fences(t, 0, true);
      Took(before, BeginRelease(t));
    }

    method GiveBack(t: nat, leak: bool)
      requires Follows() && t in ops && ops[t].slot in waits && phase == Fences(t, |waits[ops[t].slot].waits|, true)
      modifies this`ops, this`waits, this`free, this`phase, this`history
      ensures Follows() && phase.Idle? && old(history) <= history
      ensures ops == old(ops) - {t} && waits == old(waits) - {old(ops)[t].slot}
      ensures free == old(free) + if leak then {} else {old(ops)[t].slot}
    {
      hide Inv, Reaches;
      ghost var before := Here();
      var slot := ops[t].slot;
      ops, waits := ops - {t}, waits - {slot};
      if !leak {
        free := free + {slot};
      }
      phase := Idle;
      Took(before, Conclude(leak));
    }

    // The slot goes back to the arena only after the operation has ended and
    // its fences were asked once more; after a timeout it is leaked instead.
    // Without an error it does go back once every fence is seen retired.
    method ReleaseRetired(t: nat, leak: bool, env: Surroundings) returns (status: ReleaseStatus)
      requires Follows() && phase.Idle? && tables
      modifies this`device, this`fences, this`failed, this`ops, this`waits, this`free, this`phase, this`history
      ensures Follows() && phase.Idle? && old(history) <= history
      ensures status.NotFound? <==> t !in old(ops)
      ensures status.InFlight? <==> t in old(ops) && old(ops)[t].inFlight
      ensures !status.Released? ==> ops == old(ops) && free == old(free) && waits == old(waits)
      ensures status.Released? ==> ops == old(ops) - {t} && waits == old(waits) - {old(ops)[t].slot}
      ensures status.Released? ==> free == old(free) + if leak then {} else {old(ops)[t].slot}
      ensures status.ReleaseFault? ==> !NoErrors(env)
      ensures t in old(ops) && !old(ops)[t].inFlight && NoErrors(env) ==>
                FencesDone(old(View()), old(device), old(ops)[t].slot) ==> status.Released?
    {
      hide Follows, SameTables, Onward, FencesDone;
      if t !in ops {
        return NotFound;
      }
      if ops[t].inFlight {
        return InFlight;
      }
      BeginAsking(t);
      SameWaits(old(View()), View(), device, ops[t].slot);
      var fenced, asked := WaitFencesFinished(t, env, 0);
      if !fenced.Retired? {
        return if fenced.DeviceError? then ReleaseFault else NotRetired;
      }
      TablesKept(old(View()), View());
      GiveBack(t, leak);
      return Released;
    }

    // ---- shutting down ----

    method InFlightOps(order: seq<nat>) returns (pending: seq<nat>)
      ensures forall t :: t in pending <==> t in order && t in ops && ops[t].inFlight
    {
      pending := [];
      for i := 0 to |order|
        invariant forall t :: t in pending <==> t in order[..i] && t in ops && ops[t].inFlight
      {
        if order[i] in ops && ops[order[i]].inFlight {
          pending := pending + [order[i]];
        }
      }
      assert order[..|order|] == order;
    }

    method RefuseNew()
      requires Follows() && phase.Idle? && tables
      modifies this`stopping, this`history
      ensures Follows() && old(history) <= history && stopping
    {
      hide Inv, Reaches;
      ghost var before := Here();
      stopping := true;
      Took(before, BeginShutdown);
    }

    method StopAndWait(order: seq<nat>, fallback: nat, calls: Calls) returns (ok: bool)
      requires Follows() && phase.Idle? && tables && fallback < |device.streams|
      modifies this`stopping, this`device, this`fences, this`failed, this`waits, this`history
      ensures Follows() && old(history) <= history && |device.streams| == |old(device).streams| && stopping
      ensures !ok ==> Busy(ops)
    {
      hide Follows;
      RefuseNew();
      var pending := InFlightOps(order);
      ok := true;
      if pending != [] {
        assert pending[0] in pending;
        ok := DrainUnwaited(pending, fallback, calls);
      }
    }

    lemma Already()
      requires Follows() && !tables
      ensures DeviceIsDone(Here()) && !Busy(ops)
    {
      NoneInFlight(Here());
      hide Inv, Reaches, DeviceIsDone;
      SafeNow(Here());
    }

    // Waits are enqueued for everything in flight, then the operations are
    // polled until none is left or the time is up. The tables are freed only
    // then, and by then the device is done with them; any other end keeps them
    // and may be tried again.
    method Shutdown(order: seq<nat>, rounds: nat, budget: nat, late: nat -> bool, overdue: nat -> bool, fallback: nat,
                    calls: Calls, env: nat -> Surroundings, baseOk: bool) returns (status: ShutdownStatus)
      requires Follows() && phase.Idle? && fallback < |device.streams| && forall t :: t in ops <==> t in order
      modifies this`stopping, this`tables, this`device, this`fences, this`failed, this`ops, this`waits, this`phase,
               this`history
      ensures Follows() && phase.Idle? && old(history) <= history && SameButEnded(old(ops), ops)
      ensures status.Drained? <==> !tables
      ensures status.Drained? ==> DeviceIsDone(Here())
      ensures old(tables) ==> stopping
      ensures status.TimedOut? ==> Busy(ops)
      ensures status.Drained? || status.BaseFailed? ==> !Busy(ops)
      ensures !Busy(old(ops)) ==> status == if old(tables) && !baseOk then BaseFailed else Drained
    {
      hide Follows, DeviceIsDone;
      if !tables {
        Already();
        return Drained;
      }
      var waiting := StopAndWait(order, fallback, calls);
      NothingEnded(ops);
      if !waiting {
        return WaitFailed;
      }
      hide SameButEnded;
      for round := 0 to rounds + 1
        invariant Follows() && phase.Idle? && tables && stopping && old(history) <= history &&
                  SameButEnded(old(ops), ops)
        invariant round > 0 ==> Busy(ops)
        invariant |device.streams| == |old(device).streams|
      {
        ghost var earlier := ops;
        var polled, ended, more := Progress(order, budget, PASS_TIMEOUT, late, overdue, fallback, calls, env(round));
        EndedSince(old(ops), earlier, ops);
        StillBusy(old(ops), earlier);
        if !polled {
          return PollFailed;
        }
        if forall t :: t in ops ==> !ops[t].inFlight {
          if !baseOk {
            return BaseFailed;
          }
          FreeTables();
          return Drained;
        }
      }
      return TimedOut;
    }

    method FreeTables()
      requires Follows() && phase.Idle? && tables && stopping && forall t :: t in ops ==> !ops[t].inFlight
      modifies this`tables, this`history
      ensures Follows() && old(history) <= history && !tables && DeviceIsDone(Here())
    {
      hide Inv, Reaches, DeviceIsDone;
      ghost var before := Here();
      tables := false;
      Took(before, FinishShutdown);
      SafeNow(Here());
    }
  }

  // ---- what a polling pass owes ----

  // The device reports no error and the time budget lasts.
  ghost predicate Calm(env: Surroundings, late: nat -> bool) { NoErrors(env) && forall n: nat :: !late(n) }

  // How many entries of the list are in flight.
  ghost function Backlog(ops: map<nat, OpEntry>, order: seq<nat>): nat {
    if order == [] then 0
    else
      var n := |order| - 1;
      Backlog(ops, order[..n]) + (if order[n] in ops && ops[order[n]].inFlight then 1 else 0)
  }

  // The i-th entry comes before the work budget is used up.
  ghost predicate InTime(ops: map<nat, OpEntry>, order: seq<nat>, budget: nat, i: nat)
    requires i < |order|
  {
    Backlog(ops, order[..i]) < budget
  }

  // The operations a pass must end.
  ghost function Due(h: Host, d: Device, order: seq<nat>, budget: nat): set<nat> {
    set i: nat | i < |order| && InTime(h.ops, order, budget, i) && Ripe(h, d, order[i]) :: order[i]
  }

  ghost predicate Attended(h: Host, t: nat, stream: nat) {
    t in h.ops && (h.ops[t].inFlight ==> Fenced(h, h.ops[t].slot, stream))
  }

  lemma BacklogNext(ops: map<nat, OpEntry>, order: seq<nat>, i: nat)
    requires i < |order|
    ensures Backlog(ops, order[..i + 1]) ==
            Backlog(ops, order[..i]) + (if order[i] in ops && ops[order[i]].inFlight then 1 else 0)
  {
    assert order[..i + 1][..i] == order[..i];
  }

  lemma {:induction false} BacklogGrows(ops: map<nat, OpEntry>, order: seq<nat>, i: nat, j: nat)
    requires i <= j <= |order|
    ensures Backlog(ops, order[..i]) <= Backlog(ops, order[..j])
    decreases j
  {
    if i < j {
      BacklogGrows(ops, order, i, j - 1);
      BacklogNext(ops, order, j - 1);
    }
  }

  lemma NothingDue(h: Host, d: Device, order: seq<nat>)
    ensures Due(h, d, order, 0) == {}
  {
  }

  // What the pass owed to one entry when it began has been given.
  ghost predicate Served(h: Host, d: Device, now: map<nat, OpEntry>, unwaited: seq<nat>, overdue: nat -> bool, t: nat) {
    && (Ripe(h, d, t) ==> t in now && !now[t].inFlight)
    && (Unattended(h, d, t) && overdue(t) ==> t in now && (!now[t].inFlight || t in unwaited))
  }

  // An entry that is not in flight is passed over.
  lemma SkippedIsServed(h: Host, d: Device, now: map<nat, OpEntry>, unwaited: seq<nat>, overdue: nat -> bool, t: nat)
    requires t in h.ops ==> t in now
    requires t in now ==> !now[t].inFlight
    ensures Served(h, d, now, unwaited, overdue, t)
  {
  }

  lemma StillIn(was: map<nat, OpEntry>, now: map<nat, OpEntry>, t: nat)
    requires SameButEnded(was, now)
    ensures t in was <==> t in now
    ensures t in now && now[t].inFlight ==> now[t] == was[t]
  {
  }

  // A polled entry gets what it was owed.
  lemma PolledIsServed(h: Host, d: Device, was: map<nat, OpEntry>, now: map<nat, OpEntry>, unwaited: seq<nat>,
                       overdue: nat -> bool, t: nat, outcome: Outcome)
    requires t in was && now == if outcome.Terminal? then was[t := was[t].(inFlight := false)] else was
    requires outcome.Unwaited? && overdue(t) ==> t in unwaited
    requires Ripe(h, d, t) ==> outcome.Terminal?
    requires Unattended(h, d, t) ==> outcome.Terminal? || outcome.Unwaited?
    ensures Served(h, d, now, unwaited, overdue, t)
  {
    hide Ripe, Unattended;
  }

  lemma ServedStays(h: Host, d: Device, was: map<nat, OpEntry>, now: map<nat, OpEntry>, before: seq<nat>,
                    after: seq<nat>, overdue: nat -> bool, order: seq<nat>)
    requires SameButEnded(was, now) && before <= after
    requires forall j :: 0 <= j < |order| ==> Served(h, d, was, before, overdue, order[j])
    ensures forall j :: 0 <= j < |order| ==> Served(h, d, now, after, overdue, order[j])
  {
    hide Ripe, Unattended;
    forall j | 0 <= j < |order|
      ensures Served(h, d, now, after, overdue, order[j])
    {
      assert Served(h, d, was, before, overdue, order[j]);
      StillIn(was, now, order[j]);
    }
  }

  ghost predicate AllServed(h: Host, d: Device, now: map<nat, OpEntry>, unwaited: seq<nat>, overdue: nat -> bool,
                            order: seq<nat>, budget: nat) {
    forall i :: 0 <= i < |order| && InTime(h.ops, order, budget, i) ==>
      Served(h, d, now, unwaited, overdue, order[i])
  }

  ghost predicate Busy(ops: map<nat, OpEntry>) { exists t :: t in ops && ops[t].inFlight }

  lemma BacklogEmpty(ops: map<nat, OpEntry>, order: seq<nat>)
    ensures Backlog(ops, order[..0]) == 0
  {
  }

  // Past the work budget nothing is owed.
  lemma RestNotInTime(ops: map<nat, OpEntry>, order: seq<nat>, i: nat, budget: nat)
    requires i <= |order|
    ensures Backlog(ops, order[..i]) >= budget ==>
              forall j :: i <= j < |order| ==> !InTime(ops, order, budget, j)
  {
    hide Backlog;
    forall j | i <= j < |order|
      ensures Backlog(ops, order[..i]) <= Backlog(ops, order[..j])
    {
      BacklogGrows(ops, order, i, j);
    }
  }

  lemma BusyWith(ops: map<nat, OpEntry>, t: nat)
    requires t in ops && ops[t].inFlight
    ensures Busy(ops)
  {
  }

  lemma CalmMeans(env: Surroundings, late: nat -> bool, i: nat)
    ensures Calm(env, late) ==> NoErrors(env) && !late(i)
  {
  }

  // A pass that ran out of work budget, or of entries, has served all it owed.
  lemma EnoughServed(h: Host, d: Device, now: map<nat, OpEntry>, unwaited: seq<nat>, overdue: nat -> bool,
                     order: seq<nat>, budget: nat, i: nat, env: Surroundings, late: nat -> bool)
    requires i <= |order| && (i == |order| || Backlog(h.ops, order[..i]) >= budget || late(i))
    requires Calm(env, late) ==> forall j :: 0 <= j < i ==> Served(h, d, now, unwaited, overdue, order[j])
    ensures Calm(env, late) ==> AllServed(h, d, now, unwaited, overdue, order, budget)
  {
    hide Served, Backlog;
    RestNotInTime(h.ops, order, i, budget);
    CalmMeans(env, late, i);
  }

  lemma DueEnded(h: Host, d: Device, now: map<nat, OpEntry>, unwaited: seq<nat>, overdue: nat -> bool, order: seq<nat>,
                 budget: nat)
    ensures AllServed(h, d, now, unwaited, overdue, order, budget) ==>
              Due(h, d, order, budget) <= Ended(h.ops, now) &&
              |Due(h, d, order, budget)| <= |Ended(h.ops, now)|
  {
    hide InTime;
    if AllServed(h, d, now, unwaited, overdue, order, budget) {
      forall t | t in Due(h, d, order, budget)
        ensures t in Ended(h.ops, now)
      {
        var i :| 0 <= i < |order| && InTime(h.ops, order, budget, i) && Ripe(h, d, order[i]) && order[i] == t;
        assert Served(h, d, now, unwaited, overdue, order[i]);
      }
      SubsetSize(Due(h, d, order, budget), Ended(h.ops, now));
    }
  }

  lemma OneEnded(was: map<nat, OpEntry>, now: map<nat, OpEntry>, t: nat)
    requires t in was && (now == was || now == was[t := was[t].(inFlight := false)])
    ensures SameButEnded(was, now)
  {
  }

  lemma NoneInFlight(s: System)
    requires Inv(s) && !s.h.tables
    ensures !Busy(s.h.ops)
  {
    hide OpOk, JobOk, FenceOk, PhaseOk, IdsOk, StreamsOk;
  }

  lemma SameWaits(h: Host, h': Host, d: Device, slot: nat)
    requires h'.waits == h.waits && h'.fences == h.fences
    ensures FencesDone(h, d, slot) <==> FencesDone(h', d, slot)
  {
    if FencesDone(h, d, slot) || FencesDone(h', d, slot) {
      assert forall i :: 0 <= i < |h.waits[slot].waits| ==>
          FenceDone(h, d, h.waits[slot].waits[i]) == FenceDone(h', d, h'.waits[slot].waits[i]);
    }
  }

  lemma StillBusy(was: map<nat, OpEntry>, now: map<nat, OpEntry>)
    requires SameButEnded(was, now)
    ensures Busy(now) ==> Busy(was)
  {
    if t :| t in now && now[t].inFlight {
      StillIn(was, now, t);
    }
  }

  // Nothing but ends of operations happened between the two maps.
  ghost predicate SameButEnded(was: map<nat, OpEntry>, now: map<nat, OpEntry>) {
    now.Keys == was.Keys && forall t :: t in now ==> now[t] == was[t] || now[t] == was[t].(inFlight := false)
  }

  ghost function Ended(was: map<nat, OpEntry>, now: map<nat, OpEntry>): set<nat> {
    set t | t in was && t in now && was[t].inFlight && !now[t].inFlight
  }

  lemma NothingEnded(was: map<nat, OpEntry>)
    ensures Ended(was, was) == {} && SameButEnded(was, was)
  {
  }

  lemma EndedSince(was: map<nat, OpEntry>, mid: map<nat, OpEntry>, now: map<nat, OpEntry>)
    requires SameButEnded(was, mid) && SameButEnded(mid, now)
    ensures SameButEnded(was, now)
  {
  }

  lemma OneMoreEnded(was: map<nat, OpEntry>, now: map<nat, OpEntry>, t: nat)
    requires SameButEnded(was, now) && t in now && now[t].inFlight
    ensures |Ended(was, now[t := now[t].(inFlight := false)])| == |Ended(was, now)| + 1
    ensures SameButEnded(was, now[t := now[t].(inFlight := false)])
  {
    assert Ended(was, now[t := now[t].(inFlight := false)]) == Ended(was, now) + {t};
  }

  lemma FreeInRange(s: System)
    requires Inv(s)
    ensures |s.h.slotBatch| == |s.h.events| == |s.d.mirror| && s.h.nextToken !in s.h.ops
  {
    assert s.h.nextToken in s.h.ops ==> OpOk(s.h, s.d, s.h.nextToken, s.h.ops[s.h.nextToken]);
  }

  lemma LaunchIoShape(h: Host, d: Device, slot: nat, stream: nat, entries: nat, launch: LaunchOutcome)
    requires slot < |h.slotBatch| == |d.mirror| && stream < |d.streams| && h.nextBatch != 0
    ensures var (h', d') := LaunchIo(h, d, slot, stream, entries, launch);
            |d'.streams| == |d.streams| && h'.events == h.events
  {
  }

  lemma SubmitEffect(h: Host, d: Device, slot: nat, stream: nat, entries: nat, launch: LaunchOutcome,
                     event: EventOutcome)
    requires slot < |h.slotBatch| == |d.mirror| == |h.events| && stream < |d.streams| && !h.stopping && !h.failed &&
             h.nextBatch != 0
    ensures var r := AsyncCompletion.Submit(h, d, slot, stream, entries, launch, event);
            && |r.1.streams| == |d.streams|
            && if launch.LaunchFailed? then r.0.ops == h.ops && r.0.free == h.free
               else
                 var op := OpEntry(slot, stream, d.streams[stream].enqueued, h.nextBatch, true);
                 && r.0.ops == h.ops[h.nextToken := op] && r.0.free == h.free - {slot}
                 && (event.NeitherWorked? ==> r.0.failed)
  {
  }

  // A launch that failed has no event to record.
  lemma NoEventNeeded(h: Host, d: Device, slot: nat, stream: nat, entries: nat, event: EventOutcome)
    requires slot < |h.slotBatch| == |d.mirror| == |h.events| && stream < |d.streams|
    ensures AsyncCompletion.Submit(h, d, slot, stream, entries, LaunchFailed, event) ==
            AsyncCompletion.Submit(h, d, slot, stream, entries, LaunchFailed, Recorded)
  {
    hide LaunchIo, SubmitEvent;
  }

  lemma OpInRange(s: System, t: nat)
    requires Inv(s) && t in s.h.ops
    ensures s.h.ops[t].slot in s.h.waits && s.h.ops[t].slot < |s.d.mirror| == |s.h.slotBatch| == |s.h.events|
  {
    assert OpOk(s.h, s.d, t, s.h.ops[t]);
  }

  lemma FenceInRange(s: System, t: nat, i: nat)
    requires Inv(s) && s.phase.Fences? && s.phase.token == t && t in s.h.ops && s.h.ops[t].slot in s.h.waits
    requires i < |s.h.waits[s.h.ops[t].slot].waits|
    ensures var f := s.h.waits[s.h.ops[t].slot].waits[i]; f < |s.h.fences| && s.h.fences[f].stream < |s.d.streams|
    ensures s.h.ops[t].inFlight == !s.phase.releasing
  {
    assert OpOk(s.h, s.d, t, s.h.ops[t]);
    assert FenceOk(s.h, s.d, s.h.waits[s.h.ops[t].slot].waits[i], s.h.fences[s.h.waits[s.h.ops[t].slot].waits[i]]);
  }

  lemma {:induction false} AttachIgnoresFlags(h: Host, h': Host, list: seq<nat>, f: nat)
    requires h'.waits == h.waits && h'.ops == h.ops
    ensures Attach(h', list, f) == Attach(h, list, f)
  {
    if list != [] {
      AttachIgnoresFlags(h, h', list[..|list| - 1], f);
    }
  }

  lemma EnqueueNext(h: Host, d: Device, tokens: seq<nat>, i: nat, stream: nat, calls: Calls)
    requires i < |tokens| && stream < |d.streams|
    ensures EnqueueAll(h, d, tokens[..i + 1], stream, calls) ==
            EnqueueOne(EnqueueAll(h, d, tokens[..i], stream, calls), tokens[i], i, stream, calls)
  {
    hide EnqueueOne;
    assert tokens[..i + 1][..i] == tokens[..i];
  }

  lemma EnqueueOneCases(e: Enqueue, t: nat, n: nat, stream: nat, calls: Calls)
    requires stream < |e.d.streams| && e.ok
    ensures var r := EnqueueOne(e, t, n, stream, calls);
            var e' := e.(list := e.list + [t]);
            if !Wanted(e, t, stream) then r == e
            else if !(e.h.ops[t].slot in e.h.waits && e.h.waits[e.h.ops[t].slot].submitRetired) && !calls.waitSubmit(n)
            then r == e.(ok := false)
            else r == if |e'.list| == BATCHES_PER_KERNEL then AsyncCompletion.Flush(e', stream, calls) else e'
  {
    hide AsyncCompletion.Flush, Wanted;
  }

  lemma FlushClears(e: Enqueue, stream: nat, calls: Calls)
    requires stream < |e.d.streams| && e.ok
    ensures var r := AsyncCompletion.Flush(e, stream, calls); r.ok ==> r.list == []
  {
  }

  // After the first failure nothing more is enqueued.
  lemma {:induction false} EnqueueStops(h: Host, d: Device, tokens: seq<nat>, i: nat, stream: nat, calls: Calls)
    requires i <= |tokens| && stream < |d.streams| && !EnqueueAll(h, d, tokens[..i], stream, calls).ok
    ensures var r := EnqueueAll(h, d, tokens, stream, calls);
            r == EnqueueAll(h, d, tokens[..i], stream, calls) && AsyncCompletion.Flush(r, stream, calls) == r
  {
    hide Wanted;
    if i == |tokens| {
      assert tokens[..i] == tokens;
    } else {
      var n := |tokens| - 1;
      assert tokens[..n][..i] == tokens[..i];
      EnqueueStops(h, d, tokens[..n], i, stream, calls);
    }
  }
}
