// What one drain of the reclaim queue does, slot by slot: a slot that was
// zeroed is free again under a new generation, one that was not goes back to
// the end of the queue, and every other slot is left alone.
module StoreReclaim {
  import opened Common
  import opened HeaderCodec
  import opened SpaceAllocator
  import opened ObjectStore

  // ---- the two halves of the call, on slots that are in flight ----

  ghost predicate InFlightOnce(a: Alloc, slots: seq<nat>) {
    Distinct(slots) && forall s :: s in slots ==> s in a.inFlight
  }

  lemma Front(a: Alloc, slots: seq<nat>)
    requires InFlightOnce(a, slots) && slots != []
    ensures InFlightOnce(a, slots[..|slots| - 1])
    ensures slots[|slots| - 1] !in slots[..|slots| - 1] && slots[|slots| - 1] in a.inFlight
    ensures Elements(slots) == Elements(slots[..|slots| - 1]) + {slots[|slots| - 1]}
  {
    assert slots == slots[..|slots| - 1] + [slots[|slots| - 1]];
  }

  lemma InFlightInRange(a: Alloc, s: nat)
    requires a.Valid() && s in a.inFlight
    ensures s < a.total && a.states[s] == Reclaiming && s !in a.queue && s !in a.freeList
  {
  }

  lemma {:induction false} RequeueDistinct(a: Alloc, slots: seq<nat>)
    requires a.Valid() && InFlightOnce(a, slots)
    ensures RequeueAll(a, slots) == a.(queue := a.queue + slots, inFlight := a.inFlight - Elements(slots))
  {
    hide Alloc.Valid, InFlightOnce, Distinct, Kept;
    if slots == [] {
      assert a.queue + slots == a.queue && a.inFlight - Elements(slots) == a.inFlight;
    } else {
      var n := |slots| - 1;
      Front(a, slots);
      RequeueDistinct(a, slots[..n]);
      InFlightInRange(a, slots[n]);
      assert a.queue + slots[..n] + [slots[n]] == a.queue + slots;
      assert a.inFlight - Elements(slots[..n]) - {slots[n]} == a.inFlight - Elements(slots);
    }
  }

  lemma {:induction false} FinishDistinct(a: Alloc, slots: seq<nat>)
    requires a.Valid() && InFlightOnce(a, slots)
    ensures var r := FinishAll(a, slots);
            && r.queue == a.queue && r.freeList == a.freeList + slots && r.inFlight == a.inFlight - Elements(slots)
            && |r.states| == |a.states| && |r.generations| == |a.generations|
            && (forall s :: 0 <= s < |a.states| ==> r.states[s] == if s in slots then Free else a.states[s])
            && (forall s :: 0 <= s < |a.generations| ==>
                  r.generations[s] == a.generations[s] + (if s in slots then 1 else 0))
  {
    hide Alloc.Valid, InFlightOnce, Distinct;
    Sizes(a);
    if slots != [] {
      var n := |slots| - 1;
      Front(a, slots);
      FinishDistinct(a, slots[..n]);
      InFlightInRange(a, slots[n]);
      assert a.freeList + slots[..n] + [slots[n]] == a.freeList + slots;
      assert slots == slots[..n] + [slots[n]];
    }
  }

  // Every taken slot goes to exactly one of the two lists, by its own outcome.
  lemma {:induction false} DrainSplit(m: Media, taken: seq<nat>, outs: seq<ZeroOutcome>)
    requires |outs| == |taken| && Distinct(taken)
    ensures var r := DrainSlots(m, taken, outs);
            && Distinct(r.done) && Distinct(r.failed) && |r.done| + |r.failed| == |taken|
            && (forall s :: s in r.done || s in r.failed ==> s in taken)
            && (forall i :: 0 <= i < |taken| ==> (taken[i] in r.done <==> outs[i].Zeroed?))
            && (forall i :: 0 <= i < |taken| ==> (taken[i] in r.failed <==> !outs[i].Zeroed?))
  {
    hide ZeroSlot, Distinct;
    if taken != [] {
      var n := |taken| - 1;
      var front, last := taken[..n], taken[n];
      LastIsNew(taken);
      DrainSplit(m, front, outs[..n]);
      var r, r' := DrainSlots(m, front, outs[..n]), DrainSlots(m, taken, outs);
      DistinctAppend(r.done, [last]);
      DistinctAppend(r.failed, [last]);
      forall i | 0 <= i < |taken|
        ensures taken[i] in r'.done <==> outs[i].Zeroed?
        ensures taken[i] in r'.failed <==> !outs[i].Zeroed?
      {
        if i < n {
          assert front[i] == taken[i] && outs[..n][i] == outs[i] && front[i] in front;
        }
      }
    }
  }

  lemma LastIsNew(s: seq<nat>)
    requires s != [] && Distinct(s)
    ensures Distinct(s[..|s| - 1]) && s[|s| - 1] !in s[..|s| - 1] && Distinct([s[|s| - 1]])
    ensures s == s[..|s| - 1] + [s[|s| - 1]]
  {
  }

  // On media: a zeroed slot is blank, and no other slot is written.
  lemma {:induction false} DrainMedia(m: Media, taken: seq<nat>, outs: seq<ZeroOutcome>)
    requires |outs| == |taken| && Distinct(taken) && |m.payloads| == |m.headers|
    requires forall i :: 0 <= i < |taken| ==> taken[i] < |m.headers|
    ensures var m' := DrainSlots(m, taken, outs).media;
            && |m'.headers| == |m.headers| && |m'.payloads| == |m.payloads| && m'.containers == m.containers
            && (forall i :: 0 <= i < |taken| && outs[i].Zeroed? ==>
                  m'.headers[taken[i]] == LE.Zeros(HEADER_BYTES) && m'.payloads[taken[i]] == None)
            && (forall s :: 0 <= s < |m.headers| && s !in taken ==>
                  m'.headers[s] == m.headers[s] && m'.payloads[s] == m.payloads[s])
  {
    if taken != [] {
      var n := |taken| - 1;
      DrainMedia(m, taken[..n], outs[..n]);
      var m1, m' := DrainSlots(m, taken[..n], outs[..n]).media, DrainSlots(m, taken, outs).media;
      assert taken == taken[..n] + [taken[n]];
      assert m' == ZeroSlot(m1, taken[n], outs[n]);
      forall i | 0 <= i < |taken| && outs[i].Zeroed?
        ensures m'.headers[taken[i]] == LE.Zeros(HEADER_BYTES) && m'.payloads[taken[i]] == None
      {
        if i < n {
          assert taken[..n][i] == taken[i] && outs[..n][i] == outs[i] && taken[i] != taken[n];
        }
      }
    }
  }

  // ---- the whole call ----

  // Back in circulation: free, on the free list and nowhere else, and no
  // placement handed out before names it any more.
  ghost predicate FreedAnew(a: Alloc, b: Alloc, s: nat) {
    && s < |a.generations| && s < |b.states| && s < |b.generations|
    && b.states[s] == Free && b.generations[s] == a.generations[s] + 1
    && s in b.freeList && s !in b.queue && s !in b.inFlight
  }

  // Still waiting to be zeroed, under the generation it had.
  ghost predicate QueuedAgain(a: Alloc, b: Alloc, s: nat) {
    && s < |a.generations| && s < |b.states| && s < |b.generations|
    && b.states[s] == Reclaiming && b.generations[s] == a.generations[s]
    && s in b.queue && s !in b.freeList && s !in b.inFlight
  }

  ghost predicate LeftAlone(a: Alloc, b: Alloc, s: nat) {
    && s < |a.states| && s < |b.states| && s < |a.generations| && s < |b.generations|
    && b.states[s] == a.states[s] && b.generations[s] == a.generations[s]
    && (s in b.freeList <==> s in a.freeList) && (s in b.queue <==> s in a.queue)
    && (s in b.inFlight <==> s in a.inFlight)
  }

  lemma TakenOnce(a: Alloc, max: nat)
    requires a.Valid()
    ensures Distinct(Taken(a, max)) && InFlightOnce(TakeAll(a, max), Taken(a, max))
    ensures forall s :: s in Taken(a, max) ==> s in a.queue && s < a.total && a.states[s] == Reclaiming
    ensures TakeAll(a, max).inFlight - Elements(Taken(a, max)) == a.inFlight
    ensures a.queue == Taken(a, max) + TakeAll(a, max).queue
    ensures forall s :: s in TakeAll(a, max).queue ==> s !in Taken(a, max)
  {
    QueueSplits(a.queue, Min(max, |a.queue|));
  }

  // The allocator a drain leaves behind, list by list.
  lemma DrainLists(w: World, max: nat, outs: seq<ZeroOutcome>)
    requires w.store.alloc.Valid() && |outs| == |Taken(w.store.alloc, max)|
    ensures var a, b := w.store.alloc, Drain(w, max, outs).store.alloc;
            var r := DrainSlots(w.media, Taken(a, max), outs);
            && b.freeList == a.freeList + r.done && b.queue == TakeAll(a, max).queue + r.failed
            && b.inFlight == a.inFlight
            && |b.states| == |a.states| && |b.generations| == |a.generations|
            && (forall s :: 0 <= s < |a.states| ==> b.states[s] == if s in r.done then Free else a.states[s])
            && (forall s :: 0 <= s < |a.generations| ==>
                  b.generations[s] == a.generations[s] + (if s in r.done then 1 else 0))
  {
    hide Alloc.Valid, DrainSlots, Distinct;
    var a := w.store.alloc;
    var taken := Taken(a, max);
    var t, r := TakeAll(a, max), DrainSlots(w.media, taken, outs);
    TakenOnce(a, max);
    DrainSplit(w.media, taken, outs);
    EachSlotOnce(taken, outs, r);
    RequeueDistinct(t, r.failed);
    var q := RequeueAll(t, r.failed);
    assert InFlightOnce(q, r.done);
    FinishDistinct(q, r.done);
    assert t.inFlight - Elements(r.failed) - Elements(r.done) == t.inFlight - Elements(taken);
  }

  lemma EachSlotOnce(taken: seq<nat>, outs: seq<ZeroOutcome>, r: DrainRun)
    requires |outs| == |taken|
    requires forall s :: s in r.done || s in r.failed ==> s in taken
    requires forall i :: 0 <= i < |taken| ==> (taken[i] in r.done <==> outs[i].Zeroed?)
    requires forall i :: 0 <= i < |taken| ==> (taken[i] in r.failed <==> !outs[i].Zeroed?)
    ensures Elements(taken) == Elements(r.done) + Elements(r.failed)
    ensures forall s :: s in r.done ==> s !in r.failed
  {
    forall s | s in taken
      ensures s in r.done <==> s !in r.failed
    {
      var i :| 0 <= i < |taken| && taken[i] == s;
    }
  }

  // A drain takes the oldest queued slots. Each one that was zeroed is free
  // again under the next generation; each one that was not goes back to the
  // queue; no other slot moves. Slots already free keep their turn, and those
  // still queued are ahead of the ones that failed.
  lemma DrainEffect(w: World, max: nat, outs: seq<ZeroOutcome>)
    requires w.store.alloc.Valid() && |outs| == |Taken(w.store.alloc, max)|
    ensures var a, w' := w.store.alloc, Drain(w, max, outs);
            var b, taken := w'.store.alloc, Taken(a, max);
            && (forall i :: 0 <= i < |taken| && outs[i].Zeroed? ==> FreedAnew(a, b, taken[i]))
            && (forall i :: 0 <= i < |taken| && !outs[i].Zeroed? ==> QueuedAgain(a, b, taken[i]))
            && (forall s :: 0 <= s < a.total && s !in taken ==> LeftAlone(a, b, s))
            && a.freeList <= b.freeList && a.queue[|taken|..] <= b.queue
            && w'.store == w.store.(alloc := b)
            && b.total == a.total && b.highWater == a.highWater && b.readyLimit == a.readyLimit
  {
    hide Alloc.Valid, DrainSlots, Distinct, TakeAll;
    var a, b := w.store.alloc, Drain(w, max, outs).store.alloc;
    var taken := Taken(a, max);
    var r := DrainSlots(w.media, taken, outs);
    Sizes(a);
    TakenOnce(a, max);
    DrainSplit(w.media, taken, outs);
    EachSlotOnce(taken, outs, r);
    DrainLists(w, max, outs);
    assert a.queue[|taken|..] == TakeAll(a, max).queue;
    forall i | 0 <= i < |taken|
      ensures if outs[i].Zeroed? then FreedAnew(a, b, taken[i]) else QueuedAgain(a, b, taken[i])
    {
      QueuedPlace(a, taken[i]);
    }
  }

  lemma QueuedPlace(a: Alloc, s: nat)
    requires a.Valid() && s in a.queue
    ensures s < a.total && a.states[s] == Reclaiming && s !in a.freeList && s !in a.inFlight
  {
  }

  // Capacity is never lost to a failing disk: the queue empties by exactly the
  // slots that were zeroed, and once one was, there is a slot to hand out.
  lemma DrainConservesSpace(w: World, max: nat, outs: seq<ZeroOutcome>)
    requires w.store.alloc.Valid() && |outs| == |Taken(w.store.alloc, max)|
    ensures var a, b := w.store.alloc, Drain(w, max, outs).store.alloc;
            && |a.freeList| + |a.queue| + |a.inFlight| == |b.freeList| + |b.queue| + |b.inFlight|
            && |b.freeList| == |a.freeList| + |DrainSlots(w.media, Taken(a, max), outs).done|
            && ((exists i :: 0 <= i < |outs| && outs[i].Zeroed?) ==> NextFree(b) < b.total)
  {
    hide Alloc.Valid, DrainSlots, Distinct, TakeAll;
    var a, b := w.store.alloc, Drain(w, max, outs).store.alloc;
    TakenOnce(a, max);
    DrainSplit(w.media, Taken(a, max), outs);
    DrainLists(w, max, outs);
    DrainEffect(w, max, outs);
    if i :| 0 <= i < |outs| && outs[i].Zeroed? {
      assert FreedAnew(a, b, Taken(a, max)[i]);
      FirstFree(b);
    }
  }

  lemma FirstFree(a: Alloc)
    requires a.Valid() && a.freeList != []
    ensures NextFree(a) < a.total
  {
    assert a.freeList[0] in a.freeList;
  }
}
