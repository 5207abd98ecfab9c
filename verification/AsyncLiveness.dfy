// What the device cannot take back: once an operation is ripe for
// publication it stays ripe, whatever the device does between two reads.
module AsyncLiveness {
  import opened AsyncCompletion
  import opened AsyncSafety

  // The device has moved on: streams have retired no less, and no word that
  // showed its slot's own batch has changed.
  ghost predicate Onward(slotBatch: seq<nat>, d: Device, d': Device) {
    && |d'.streams| == |d.streams| && |d'.mirror| == |d.mirror|
    && (forall i :: 0 <= i < |d.streams| ==> d.streams[i].retired <= d'.streams[i].retired)
    && (forall i :: 0 <= i < |d.mirror| && i < |slotBatch| && d.mirror[i] == slotBatch[i] ==>
          d'.mirror[i] == slotBatch[i])
  }

  lemma OnwardTwice(slotBatch: seq<nat>, d: Device, d': Device, d'': Device)
    requires Onward(slotBatch, d, d') && Onward(slotBatch, d', d'')
    ensures Onward(slotBatch, d, d'')
  {
  }

  // Every step the device takes by itself.
  lemma DeviceGoesOnward(s: System, step: Step)
    requires Inv(s) && Enabled(s, step) && (step.Retire? || step.Finish? || step.ForeignWork?)
    ensures Onward(s.h.slotBatch, s.d, Apply(s, step).d)
  {
    hide FenceOk, PhaseOk, IdsOk, Quiet, Armed, EventFits, OneFencePerStream;
    if step.Finish? {
      var b := step.batch;
      assert JobOk(s.h, s.d, b, s.d.running[b]);
      var t := s.d.running[b].token;
      assert OpOk(s.h, s.d, t, s.h.ops[t]);
    }
  }

  // Nothing keeps the operation from being published: its submit kernel is
  // seen gone, its own batch is reported finished, and every fence of its slot
  // has a recorded event behind a retired kernel.
  ghost predicate Ripe(h: Host, d: Device, t: nat) {
    && t in h.ops && h.ops[t].inFlight && h.ops[t].slot < |d.mirror| && h.ops[t].slot < |h.slotBatch|
    && SubmitDone(h, d, h.ops[t].slot) && d.mirror[h.ops[t].slot] == h.slotBatch[h.ops[t].slot]
    && FencesDone(h, d, h.ops[t].slot)
  }

  ghost predicate FencesDone(h: Host, d: Device, slot: nat) {
    slot in h.waits && forall i :: 0 <= i < |h.waits[slot].waits| ==> FenceDone(h, d, h.waits[slot].waits[i])
  }

  // Handed to the device, and nobody waits for it.
  ghost predicate Unattended(h: Host, d: Device, t: nat) {
    && t in h.ops && h.ops[t].inFlight && h.ops[t].slot in h.waits && h.waits[h.ops[t].slot].waits == []
    && SubmitDone(h, d, h.ops[t].slot)
  }

  // Between two states of the host during a poll: only the events of fences
  // that had none, the failure flag, and the poll's own operation may differ.
  ghost predicate SameTables(h: Host, h': Host) {
    && h'.slotBatch == h.slotBatch && h'.events == h.events && h'.waits == h.waits
    && |h'.fences| == |h.fences|
    && (forall f :: 0 <= f < |h.fences| ==> h'.fences[f].stream == h.fences[f].stream)
    && (forall f :: 0 <= f < |h.fences| && h.fences[f].event.Some? ==> h'.fences[f] == h.fences[f])
  }

  lemma SubmitStaysDone(h: Host, h': Host, d: Device, d': Device, slot: nat)
    requires Onward(h.slotBatch, d, d') && SameTables(h, h') && SubmitDone(h, d, slot)
    ensures SubmitDone(h', d', slot)
  {
  }

  lemma FencesStayDone(h: Host, h': Host, d: Device, d': Device, slot: nat)
    requires Onward(h.slotBatch, d, d') && SameTables(h, h') && FencesDone(h, d, slot)
    ensures FencesDone(h', d', slot)
  {
    forall i | 0 <= i < |h.waits[slot].waits|
      ensures FenceDone(h', d', h'.waits[slot].waits[i])
    {
      assert FenceDone(h, d, h.waits[slot].waits[i]);
    }
  }

  // Ripeness lasts, for every operation the poll does not end itself.
  lemma RipeStays(h: Host, h': Host, d: Device, d': Device, t: nat)
    requires Onward(h.slotBatch, d, d') && SameTables(h, h')
    requires t in h.ops ==> t in h'.ops && h'.ops[t] == h.ops[t]
    ensures Ripe(h, d, t) ==> Ripe(h', d', t)
    ensures Unattended(h, d, t) ==> Unattended(h', d', t)
  {
    hide SubmitDone, FencesDone, Onward, SameTables;
    if Ripe(h, d, t) {
      SubmitStaysDone(h, h', d, d', h.ops[t].slot);
      FencesStayDone(h, h', d, d', h.ops[t].slot);
      MirrorStays(h.slotBatch, d, d', h.ops[t].slot);
      TablesKept(h, h');
    }
    if Unattended(h, d, t) {
      SubmitStaysDone(h, h', d, d', h.ops[t].slot);
      TablesKept(h, h');
    }
  }

  lemma TablesKept(h: Host, h': Host)
    requires SameTables(h, h')
    ensures h'.slotBatch == h.slotBatch && h'.waits == h.waits
  {
  }

  lemma MirrorStays(slotBatch: seq<nat>, d: Device, d': Device, slot: nat)
    requires Onward(slotBatch, d, d') && slot < |d.mirror| && slot < |slotBatch| && d.mirror[slot] == slotBatch[slot]
    ensures slot < |d'.mirror| && d'.mirror[slot] == slotBatch[slot]
  {
  }

  lemma OnwardAlready(slotBatch: seq<nat>, d: Device)
    ensures Onward(slotBatch, d, d)
  {
  }

  lemma TablesKeptBut(h: Host, h': Host)
    requires h'.slotBatch == h.slotBatch && h'.events == h.events && h'.waits == h.waits && h'.fences == h.fences
    ensures SameTables(h, h')
  {
  }

  lemma OneFenceStays(h: Host, h': Host, d: Device, d': Device, f: nat)
    requires Onward(h.slotBatch, d, d') && SameTables(h, h')
    ensures FenceDone(h, d, f) ==> FenceDone(h', d', f)
  {
  }

  lemma FenceWasDone(h: Host, h': Host, d: Device, d': Device, slot: nat, i: nat)
    requires Onward(h.slotBatch, d, d') && SameTables(h, h') && slot in h.waits && i < |h.waits[slot].waits|
    ensures slot in h'.waits && i < |h'.waits[slot].waits|
    ensures FencesDone(h, d, slot) ==> FenceDone(h', d', h'.waits[slot].waits[i])
  {
    hide Onward, SameTables;
    TablesKept(h, h');
    if FencesDone(h, d, slot) {
      FencesStayDone(h, h', d, d', slot);
    }
  }

  lemma RipeParts(h: Host, d: Device, t: nat)
    requires t in h.ops
    ensures Ripe(h, d, t) || Unattended(h, d, t) ==>
              SubmitDone(h, d, h.ops[t].slot) && FencesDone(h, d, h.ops[t].slot)
    ensures Ripe(h, d, t) ==>
              && h.ops[t].slot < |d.mirror| && h.ops[t].slot < |h.slotBatch|
              && d.mirror[h.ops[t].slot] == h.slotBatch[h.ops[t].slot]
    ensures Unattended(h, d, t) ==> h.ops[t].slot in h.waits && h.waits[h.ops[t].slot].waits == []
  {
  }

  lemma SameStreams(slotBatch: seq<nat>, d: Device, d': Device)
    requires Onward(slotBatch, d, d')
    ensures |d'.streams| == |d.streams|
  {
  }

  lemma TablesTwice(h: Host, h': Host, h'': Host)
    requires SameTables(h, h') && SameTables(h', h'')
    ensures SameTables(h, h'')
  {
  }
}
