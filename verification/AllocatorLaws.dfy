// What an allocator call is worth to its caller: how many slots a reservation
// gets and which, and in what order retired slots come round again.
module AllocatorLaws {
  import opened Common
  import opened SpaceAllocator

  // Slots that can be handed out now: recycled ones, and never-used ones below
  // the ready limit.
  function Available(a: Alloc): nat { |a.freeList| + Unused(a) }

  function Unused(a: Alloc): nat {
    if a.highWater < Min(a.total, a.readyLimit) then Min(a.total, a.readyLimit) - a.highWater else 0
  }

  // The i-th slot a reservation hands out: recycled slots first, longest free
  // first, then never-used ones in ascending order.
  function NthFree(a: Alloc, i: nat): nat {
    if i < |a.freeList| then a.freeList[i] else a.highWater + (i - |a.freeList|)
  }

  lemma NthInRange(a: Alloc, i: nat)
    requires a.Valid() && i < Available(a)
    ensures NthFree(a, i) < a.total && a.states[NthFree(a, i)] == Free
  {
    assert i < |a.freeList| ==> a.freeList[i] in a.freeList;
  }

  // What a reservation of n slots leaves.
  ghost predicate TookFirst(a: Alloc, b: Alloc, n: nat) {
    && b.freeList == a.freeList[Min(n, |a.freeList|)..]
    && b.highWater == a.highWater + (if n > |a.freeList| then n - |a.freeList| else 0)
    && b.total == a.total && b.readyLimit == a.readyLimit && b.queue == a.queue && b.inFlight == a.inFlight
    && b.generations == a.generations
  }

  lemma NextOfRest(a: Alloc, b: Alloc, n: nat)
    requires a.Valid() && TookFirst(a, b, n) && n <= Available(a)
    ensures NextFree(b) < b.total <==> n < Available(a)
    ensures n < Available(a) ==> NextFree(b) == NthFree(a, n)
  {
    if n < |a.freeList| {
      assert a.freeList[n] in a.freeList && b.freeList[0] == a.freeList[n];
    }
  }

  lemma TakesOneMore(a: Alloc, b: Alloc, n: nat)
    requires a.Valid() && b.Valid() && TookFirst(a, b, n) && n < Available(a) && NextFree(b) < b.total
    ensures TookFirst(a, ReserveOne(b), n + 1)
  {
    if n < |a.freeList| {
      assert a.freeList[n..][1..] == a.freeList[n + 1..];
    } else {
      assert a.freeList[|a.freeList|..] == [];
    }
  }

  // A RESERVATION GETS WHAT THERE IS. It hands out as many slots as were asked
  // for and are available, the longest-free first, each under its current
  // generation, and takes nothing else.
  lemma {:induction false} ReserveTakesOldest(a: Alloc, count: nat)
    requires a.Valid()
    ensures var (b, issued) := ReserveUpTo(a, count);
            && |issued| == Min(count, Available(a)) && TookFirst(a, b, |issued|) && |a.generations| == a.total
            && (forall i :: 0 <= i < |issued| ==>
                  && issued[i].slot == NthFree(a, i) < a.total
                  && issued[i].generation == a.generations[NthFree(a, i)])
  {
    hide Alloc.Valid, TookFirst, NextFree, ReserveOne, Available, NthFree;
    Sizes(a);
    if count == 0 {
      NothingTaken(a);
    } else {
      ReserveTakesOldest(a, count - 1);
      var (b, issued) := ReserveUpTo(a, count - 1);
      SameGenerations(a, b, |issued|);
      NextOfRest(a, b, |issued|);
      if |issued| == count - 1 && NextFree(b) < b.total {
        TakesOneMore(a, b, |issued|);
        NthInRange(a, |issued|);
      }
    }
  }

  lemma NothingTaken(a: Alloc)
    ensures TookFirst(a, a, 0)
  {
    assert a.freeList[0..] == a.freeList;
  }

  lemma SameGenerations(a: Alloc, b: Alloc, n: nat)
    requires TookFirst(a, b, n)
    ensures b.generations == a.generations && b.total == a.total
  {
  }

  // Retired slots queue up behind the ones already waiting, in the order given.
  lemma {:induction false} RetireQueues(a: Alloc, slots: seq<nat>, from: SlotState)
    requires a.Valid() && from in {Reserved, Committed} && Distinct(slots)
    requires forall i :: 0 <= i < |slots| ==> slots[i] < |a.states| && a.states[slots[i]] == from
    ensures RetireAll(a, slots, from).queue == a.queue + slots
    ensures RetireAll(a, slots, from).inFlight == a.inFlight
  {
    hide Alloc.Valid;
    Sizes(a);
    if slots != [] {
      var n := |slots| - 1;
      RetireQueues(a, slots[..n], from);
      RetireAllStates(a, slots[..n], from);
      Sizes(RetireAll(a, slots[..n], from));
      assert slots[n] !in slots[..n];
      assert a.queue + slots[..n] + [slots[n]] == a.queue + slots;
    }
  }
}
