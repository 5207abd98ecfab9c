// Slot-number allocator: a four-state lifecycle with a free list, a reclaim
// queue, in-flight scrubs and per-slot generations.
module SpaceAllocator {
  import opened Common
  import LE = LittleEndian

  datatype SlotState = Free | Reserved | Committed | Reclaiming

  // The ready limit before anyone sets one.
  const UNLIMITED: nat := LE.U64 - 1

  datatype Alloc = Alloc(
    total: nat, highWater: nat, readyLimit: nat,
    states: seq<SlotState>, generations: seq<nat>,
    freeList: seq<nat>, queue: seq<nat>, inFlight: set<nat>
  ) {
    // Each slot sits in exactly the place its state says.
    ghost predicate Valid() {
      && |states| == |generations| == total && highWater <= total
      && Distinct(freeList) && Distinct(queue)
      && (forall s :: s in freeList ==> s < highWater && states[s] == Free)
      && (forall s :: s in queue ==> s < highWater && states[s] == Reclaiming && s !in inFlight)
      && (forall s :: s in inFlight ==> s < highWater && states[s] == Reclaiming)
      && (forall s :: 0 <= s < highWater && states[s] == Free ==> s in freeList)
      && (forall s :: 0 <= s < highWater && states[s] == Reclaiming ==> s in queue || s in inFlight)
      && (forall s :: highWater <= s < total ==> states[s] == Free)
    }
  }

  function Configured(total: nat, readyLimit: nat): (r: Alloc)
    ensures r.Valid()
  {
    Alloc(total, 0, readyLimit, seq(total, _ => Free), seq(total, _ => 0), [], [], {})
  }

  lemma Sizes(a: Alloc)
    requires a.Valid()
    ensures |a.states| == |a.generations| == a.total && a.highWater <= a.total
  {
  }

  // ---- one slot at a time ----

  function Min(a: nat, b: nat): nat { if a < b then a else b }

  // The slot handed out next: recycled before never-used, total when exhausted.
  function NextFree(a: Alloc): nat {
    if a.freeList != [] then a.freeList[0]
    else if a.highWater < Min(a.total, a.readyLimit) then a.highWater
    else a.total
  }

  function ReserveOne(a: Alloc): (r: Alloc)
    requires a.Valid() && NextFree(a) < a.total
    ensures r.Valid()
    ensures r.states == a.states[NextFree(a) := Reserved] && r.generations == a.generations
    ensures r.total == a.total && r.readyLimit == a.readyLimit
  {
    var s := NextFree(a);
    assert a.states[s] == Free;
    if a.freeList != [] then
      var rest := a.freeList[1..];
      assert a.freeList == [s] + rest;
      assert forall t :: t in rest ==> t in a.freeList && t != s;
      a.(freeList := rest, states := a.states[s := Reserved])
    else
      a.(highWater := a.highWater + 1, states := a.states[s := Reserved])
  }

  function CommitOne(a: Alloc, s: nat): (r: Alloc)
    requires a.Valid()
    ensures r.Valid() && Kept(a, r)
  {
    if s < a.total && a.states[s] == Reserved then a.(states := a.states[s := Committed]) else a
  }

  // Reserved or committed space on its way out: queued for zeroing.
  function Retire(a: Alloc, s: nat, from: SlotState): (r: Alloc)
    requires a.Valid() && from in {Reserved, Committed}
    ensures r.Valid() && Kept(a, r)
  {
    if s < a.total && a.states[s] == from
    then a.(states := a.states[s := Reclaiming], queue := a.queue + [s]) else a
  }

  function FinishOne(a: Alloc, s: nat): (r: Alloc)
    requires a.Valid()
    ensures r.Valid() && r.total == a.total && r.highWater == a.highWater && r.readyLimit == a.readyLimit
  {
    if s < a.total && s in a.inFlight then
      a.(inFlight := a.inFlight - {s}, generations := a.generations[s := a.generations[s] + 1],
         states := a.states[s := Free], freeList := a.freeList + [s])
    else a
  }

  function RequeueOne(a: Alloc, s: nat): (r: Alloc)
    requires a.Valid()
    ensures r.Valid() && Kept(a, r) && r.states == a.states
  {
    if s < a.total && s in a.inFlight then a.(inFlight := a.inFlight - {s}, queue := a.queue + [s]) else a
  }

  // What only a reservation or a finished scrub may change.
  ghost predicate Kept(a: Alloc, r: Alloc) {
    && r.total == a.total && r.highWater == a.highWater && r.readyLimit == a.readyLimit
    && r.generations == a.generations && r.freeList == a.freeList
  }

  // ---- whole calls, over every list of slots including stale and repeated ones ----

  function CommitAll(a: Alloc, slots: seq<nat>): (r: Alloc)
    requires a.Valid()
    ensures r.Valid() && Kept(a, r)
  {
    if slots == [] then a else CommitOne(CommitAll(a, slots[..|slots| - 1]), slots[|slots| - 1])
  }

  function RetireAll(a: Alloc, slots: seq<nat>, from: SlotState): (r: Alloc)
    requires a.Valid() && from in {Reserved, Committed}
    ensures r.Valid() && Kept(a, r)
  {
    if slots == [] then a else Retire(RetireAll(a, slots[..|slots| - 1], from), slots[|slots| - 1], from)
  }

  function TakeAll(a: Alloc, max: nat): (r: Alloc)
    requires a.Valid()
    ensures r.Valid() && Kept(a, r) && r.states == a.states
  {
    var n := Min(max, |a.queue|);
    QueueSplits(a.queue, n);
    a.(queue := a.queue[n..], inFlight := a.inFlight + Elements(a.queue[..n]))
  }

  lemma QueueSplits(queue: seq<nat>, n: nat)
    requires Distinct(queue) && n <= |queue|
    ensures Distinct(queue[n..])
    ensures forall s :: s in queue <==> s in queue[..n] || s in queue[n..]
    ensures forall s :: s in queue[n..] ==> s !in queue[..n]
  {
    assert queue == queue[..n] + queue[n..];
    forall s | s in queue[n..]
      ensures s !in queue[..n]
    {
      var j :| 0 <= j < |queue[n..]| && queue[n..][j] == s;
      assert forall i :: 0 <= i < n ==> queue[i] != queue[n + j];
    }
  }

  function FinishAll(a: Alloc, slots: seq<nat>): (r: Alloc)
    requires a.Valid()
    ensures r.Valid() && r.total == a.total && r.highWater == a.highWater && r.readyLimit == a.readyLimit
  {
    if slots == [] then a else FinishOne(FinishAll(a, slots[..|slots| - 1]), slots[|slots| - 1])
  }

  function RequeueAll(a: Alloc, slots: seq<nat>): (r: Alloc)
    requires a.Valid()
    ensures r.Valid() && Kept(a, r) && r.states == a.states
  {
    if slots == [] then a else RequeueOne(RequeueAll(a, slots[..|slots| - 1]), slots[|slots| - 1])
  }

  // Slots and generations issued by a reservation of up to count slots.
  datatype Issue = Issue(slot: nat, generation: nat)

  function ReserveUpTo(a: Alloc, count: nat): (r: (Alloc, seq<Issue>))
    requires a.Valid()
    ensures r.0.Valid() && |r.1| <= count
    ensures r.0.total == a.total && r.0.readyLimit == a.readyLimit
  {
    if count == 0 then (a, [])
    else
      var (b, issued) := ReserveUpTo(a, count - 1);
      if |issued| == count - 1 && NextFree(b) < b.total
      then (ReserveOne(b), issued + [Issue(NextFree(b), b.generations[NextFree(b)])])
      else (b, issued)
  }

  // ---- what a whole call does to the states ----

  lemma {:induction false} CommitAllStates(a: Alloc, slots: seq<nat>)
    requires a.Valid()
    ensures var r := CommitAll(a, slots);
            && |r.states| == |a.states|
            && forall s :: 0 <= s < |a.states| ==>
                 r.states[s] == if s in slots && a.states[s] == Reserved then Committed else a.states[s]
  {
    hide Alloc.Valid;
    Sizes(a);
    if slots != [] {
      var n := |slots| - 1;
      CommitAllStates(a, slots[..n]);
      Sizes(CommitAll(a, slots[..n]));
      assert slots == slots[..n] + [slots[n]];
    }
  }

  lemma {:induction false} RetireAllStates(a: Alloc, slots: seq<nat>, from: SlotState)
    requires a.Valid() && from in {Reserved, Committed}
    ensures var r := RetireAll(a, slots, from);
            && |r.states| == |a.states|
            && forall s :: 0 <= s < |a.states| ==>
                 r.states[s] == if s in slots && a.states[s] == from then Reclaiming else a.states[s]
  {
    hide Alloc.Valid;
    Sizes(a);
    if slots != [] {
      var n := |slots| - 1;
      RetireAllStates(a, slots[..n], from);
      Sizes(RetireAll(a, slots[..n], from));
      assert slots == slots[..n] + [slots[n]];
    }
  }

  lemma {:induction false} FinishAllStates(a: Alloc, slots: seq<nat>)
    requires a.Valid()
    ensures var r := FinishAll(a, slots);
            && |r.states| == |a.states| && r.inFlight <= a.inFlight
            && forall s :: 0 <= s < |a.states| ==>
                 && (s in slots && s in a.inFlight ==> r.states[s] == Free && s !in r.inFlight)
                 && (!(s in slots && s in a.inFlight) ==>
                       r.states[s] == a.states[s] && (s in a.inFlight ==> s in r.inFlight))
  {
    hide Alloc.Valid;
    Sizes(a);
    if slots != [] {
      var n := |slots| - 1;
      FinishAllStates(a, slots[..n]);
      Sizes(FinishAll(a, slots[..n]));
      assert slots == slots[..n] + [slots[n]];
    }
  }

  // Reserving from a newly configured allocator yields 0, 1, 2, ...
  lemma {:induction false} FreshReserve(total: nat, limit: nat, n: nat)
    requires n <= Min(total, limit)
    ensures var (r, issued) := ReserveUpTo(Configured(total, limit), n);
            && r.highWater == n && r.freeList == [] && r.total == total && r.readyLimit == limit
            && |issued| == n && (forall i :: 0 <= i < n ==> issued[i].slot == i)
            && (forall s :: 0 <= s < total ==> r.states[s] == if s < n then Reserved else Free)
  {
    hide Alloc.Valid;
    if n > 0 {
      FreshReserve(total, limit, n - 1);
      Sizes(ReserveUpTo(Configured(total, limit), n - 1).0);
    }
  }

  // ---- the allocator object ----

  class SpaceAllocator {
    var total: nat
    var highWater: nat
    var readyLimit: nat
    var states: seq<SlotState>
    var generations: seq<nat>
    var freeList: seq<nat>
    var queue: seq<nat>
    var inFlight: set<nat>

    function View(): (r: Alloc)
      reads this
    {
      Alloc(total, highWater, readyLimit, states, generations, freeList, queue, inFlight)
    }

    constructor ()
      ensures View() == Configured(0, UNLIMITED)
    {
      total, highWater, readyLimit := 0, 0, UNLIMITED;
      states, generations, freeList, queue, inFlight := [], [], [], [], {};
    }

    // Everything is reset except the ready limit.
    method Configure(capacityBytes: nat, slotBytes: nat) returns (ok: bool)
      modifies this
      ensures ok == (slotBytes != 0 && capacityBytes / slotBytes != 0)
      ensures View() == if ok then Configured(capacityBytes / slotBytes, old(readyLimit)) else old(View())
    {
      if slotBytes == 0 {
        return false;
      }
      var derived := capacityBytes / slotBytes;
      if derived == 0 {
        return false;
      }
      total, highWater := derived, 0;
      states, generations := seq(derived, _ => Free), seq(derived, _ => 0);
      freeList, queue, inFlight := [], [], {};
      return true;
    }

    method SetReadyLimit(limit: nat)
      modifies this
      ensures View() == old(View()).(readyLimit := limit)
    {
      readyLimit := limit;
    }

    method TakeFreeSlot() returns (slot: nat)
      requires View().Valid()
      modifies this`freeList, this`highWater
      ensures slot == NextFree(old(View()))
      ensures View() ==
              if slot >= total then old(View())
              else ReserveOne(old(View())).(states := old(states))
    {
      if freeList != [] {
        slot := freeList[0];
        assert slot in freeList;
        freeList := freeList[1..];
        return;
      }
      if highWater < Min(total, readyLimit) {
        slot := highWater;
        highWater := highWater + 1;
        return;
      }
      return total;
    }

    method Reserve(count: nat) returns (issued: seq<Issue>, rejected: nat)
      requires View().Valid()
      modifies this
      ensures (View(), issued) == ReserveUpTo(old(View()), count)
      ensures rejected == count - |issued|
    {
      hide Alloc.Valid, NextFree;
      issued, rejected := [], 0;
      for i := 0 to count
        invariant View().Valid() && |issued| == i
        invariant (View(), issued) == ReserveUpTo(old(View()), i)
      {
        ghost var before := View();
        Sizes(before);
        var slot := TakeFreeSlot();
        if slot >= total {
          rejected := count - i;
          ReserveStops(old(View()), i, count);
          return;
        }
        states := states[slot := Reserved];
        issued := issued + [Issue(slot, generations[slot])];
        assert View() == ReserveOne(before);
      }
    }

    method Commit(slots: seq<nat>)
      requires View().Valid()
      modifies this
      ensures View() == CommitAll(old(View()), slots)
    {
      hide Alloc.Valid;
      for i := 0 to |slots|
        invariant View() == CommitAll(old(View()), slots[..i])
      {
        assert slots[..i + 1][..i] == slots[..i];
        Sizes(View());
        if slots[i] < total && states[slots[i]] == Reserved {
          states := states[slots[i] := Committed];
        }
      }
      assert slots[..|slots|] == slots;
    }

    method Abort(slots: seq<nat>)
      requires View().Valid()
      modifies this
      ensures View() == RetireAll(old(View()), slots, Reserved)
    {
      hide Alloc.Valid;
      for i := 0 to |slots|
        invariant View() == RetireAll(old(View()), slots[..i], Reserved)
      {
        assert slots[..i + 1][..i] == slots[..i];
        Sizes(View());
        if slots[i] < total && states[slots[i]] == Reserved {
          states := states[slots[i] := Reclaiming];
          queue := queue + [slots[i]];
        }
      }
      assert slots[..|slots|] == slots;
    }

    method Release(slots: seq<nat>) returns (released: nat)
      requires View().Valid()
      modifies this
      ensures View() == RetireAll(old(View()), slots, Committed)
      ensures |queue| == |old(queue)| + released
    {
      hide Alloc.Valid;
      released := 0;
      for i := 0 to |slots|
        invariant View() == RetireAll(old(View()), slots[..i], Committed)
        invariant |queue| == |old(queue)| + released
      {
        assert slots[..i + 1][..i] == slots[..i];
        Sizes(View());
        if slots[i] < total && states[slots[i]] == Committed {
          states := states[slots[i] := Reclaiming];
          queue := queue + [slots[i]];
          released := released + 1;
        }
      }
      assert slots[..|slots|] == slots;
    }

    method TakeReclaimable(max: nat) returns (taken: seq<nat>)
      requires View().Valid()
      modifies this
      ensures View() == TakeAll(old(View()), max)
      ensures taken == old(queue)[..Min(max, |old(queue)|)]
    {
      hide Alloc.Valid;
      taken := [];
      while |taken| < max && queue != []
        invariant |taken| <= max && taken + queue == old(queue)
        invariant View() == old(View()).(queue := queue, inFlight := old(inFlight) + Elements(taken))
        decreases |queue|
      {
        var slot := queue[0];
        queue := queue[1..];
        inFlight := inFlight + {slot};
        assert Elements(taken + [slot]) == Elements(taken) + {slot};
        taken := taken + [slot];
      }
      assert taken == old(queue)[..|taken|] && queue == old(queue)[|taken|..];
    }

    method FinishReclaim(slots: seq<nat>)
      requires View().Valid()
      modifies this
      ensures View() == FinishAll(old(View()), slots)
    {
      hide Alloc.Valid;
      for i := 0 to |slots|
        invariant View() == FinishAll(old(View()), slots[..i])
      {
        assert slots[..i + 1][..i] == slots[..i];
        Sizes(View());
        var slot := slots[i];
        if slot < total && slot in inFlight {
          inFlight := inFlight - {slot};
          generations := generations[slot := generations[slot] + 1];
          states := states[slot := Free];
          freeList := freeList + [slot];
        }
      }
      assert slots[..|slots|] == slots;
    }

    method RequeueReclaim(slots: seq<nat>)
      requires View().Valid()
      modifies this
      ensures View() == RequeueAll(old(View()), slots)
    {
      hide Alloc.Valid;
      for i := 0 to |slots|
        invariant View() == RequeueAll(old(View()), slots[..i])
      {
        assert slots[..i + 1][..i] == slots[..i];
        Sizes(View());
        if slots[i] < total && slots[i] in inFlight {
          inFlight := inFlight - {slots[i]};
          queue := queue + [slots[i]];
        }
      }
      assert slots[..|slots|] == slots;
    }

    // The five counts: what each list holds, and nothing is missing.
    method Stats() returns (free: nat, reserved: nat, committed: nat, reclaiming: nat, unmaterialised: nat)
      requires View().Valid()
      ensures free + reserved + committed + reclaiming + unmaterialised == total
      ensures free == |freeList| && reclaiming == |queue| + |inFlight|
      ensures reserved == |InState(View(), Reserved)| && committed == |InState(View(), Committed)|
      ensures unmaterialised == total - highWater
    {
      free, reserved, committed, reclaiming := 0, 0, 0, 0;
      for slot := 0 to highWater
        invariant free + reserved + committed + reclaiming == slot
        invariant free == |Below(View(), Free, slot)| && reserved == |Below(View(), Reserved, slot)|
        invariant committed == |Below(View(), Committed, slot)| && reclaiming == |Below(View(), Reclaiming, slot)|
      {
        BelowGrows(View(), slot);
        match states[slot] {
          case Free => free := free + 1;
          case Reserved => reserved := reserved + 1;
          case Committed => committed := committed + 1;
          case Reclaiming => reclaiming := reclaiming + 1;
        }
      }
      unmaterialised := total - highWater;
      CountsMatchLists(View());
    }
  }

  lemma {:induction false} ReserveStops(a: Alloc, i: nat, count: nat)
    requires a.Valid() && i < count
    requires var (b, issued) := ReserveUpTo(a, i); |issued| == i && NextFree(b) >= b.total
    ensures ReserveUpTo(a, count) == ReserveUpTo(a, i)
  {
    if i + 1 < count {
      ReserveStops(a, i, count - 1);
    }
  }

  // ---- counting ----

  ghost function Below(a: Alloc, state: SlotState, n: nat): set<nat>
    requires n <= |a.states|
  {
    set s: nat | s < n && a.states[s] == state
  }

  ghost function InState(a: Alloc, state: SlotState): set<nat>
    requires a.Valid()
  {
    Below(a, state, a.highWater)
  }

  lemma BelowGrows(a: Alloc, n: nat)
    requires n < |a.states|
    ensures forall state :: |Below(a, state, n + 1)| == |Below(a, state, n)| + (if a.states[n] == state then 1 else 0)
  {
    forall state
      ensures |Below(a, state, n + 1)| == |Below(a, state, n)| + (if a.states[n] == state then 1 else 0)
    {
      assert Below(a, state, n + 1) == Below(a, state, n) + (if a.states[n] == state then {n} else {});
    }
  }

  lemma CountsMatchLists(a: Alloc)
    requires a.Valid()
    ensures |InState(a, Free)| == |a.freeList|
    ensures |InState(a, Reclaiming)| == |a.queue| + |a.inFlight|
  {
    DistinctSetSize(a.freeList);
    DistinctSetSize(a.queue);
    assert InState(a, Free) == Elements(a.freeList);
    var queued := Elements(a.queue);
    assert InState(a, Reclaiming) == queued + a.inFlight && queued !! a.inFlight;
  }

  // ---- every run ----

  datatype Call =
    | CallReserve(count: nat) | CallCommit(slots: seq<nat>) | CallAbort(slots: seq<nat>)
    | CallRelease(slots: seq<nat>) | CallTake(max: nat) | CallFinish(slots: seq<nat>)
    | CallRequeue(slots: seq<nat>) | CallReadyLimit(limit: nat)

  function Step(a: Alloc, c: Call): (r: (Alloc, seq<Issue>))
    requires a.Valid()
    ensures r.0.Valid()
  {
    match c
    case CallReserve(n) => ReserveUpTo(a, n)
    case CallCommit(s) => (CommitAll(a, s), [])
    case CallAbort(s) => (RetireAll(a, s, Reserved), [])
    case CallRelease(s) => (RetireAll(a, s, Committed), [])
    case CallTake(n) => (TakeAll(a, n), [])
    case CallFinish(s) => (FinishAll(a, s), [])
    case CallRequeue(s) => (RequeueAll(a, s), [])
    case CallReadyLimit(n) => (a.(readyLimit := n), [])
  }

  // State after a run of calls, with everything it issued in order.
  function Run(a: Alloc, calls: seq<Call>): (r: (Alloc, seq<Issue>))
    requires a.Valid()
    ensures r.0.Valid()
  {
    if calls == [] then (a, [])
    else
      var (b, issued) := Run(a, calls[..|calls| - 1]);
      var (c, more) := Step(b, calls[|calls| - 1]);
      (c, issued + more)
  }

  // An issued pair is either outdated by a later generation, or its slot has
  // not been free since.
  ghost predicate Spent(a: Alloc, p: Issue) {
    p.slot < |a.states| && p.slot < |a.generations| &&
    (p.generation < a.generations[p.slot] || (p.generation == a.generations[p.slot] && a.states[p.slot] != Free))
  }

  // Nothing but a fresh reservation ever un-spends a pair.
  ghost predicate Ages(a: Alloc, b: Alloc) {
    forall p: Issue :: Spent(a, p) ==> Spent(b, p)
  }

  lemma SameAges(a: Alloc, b: Alloc)
    requires a.states == b.states && a.generations == b.generations
    ensures Ages(a, b)
  {
  }

  lemma {:induction false} CommitAges(a: Alloc, slots: seq<nat>)
    requires a.Valid()
    ensures Ages(a, CommitAll(a, slots))
  {
    if slots != [] {
      CommitAges(a, slots[..|slots| - 1]);
    }
  }

  lemma {:induction false} RetireAges(a: Alloc, slots: seq<nat>, from: SlotState)
    requires a.Valid() && from in {Reserved, Committed}
    ensures Ages(a, RetireAll(a, slots, from))
  {
    if slots != [] {
      RetireAges(a, slots[..|slots| - 1], from);
    }
  }

  lemma {:induction false} FinishAges(a: Alloc, slots: seq<nat>)
    requires a.Valid()
    ensures Ages(a, FinishAll(a, slots))
  {
    if slots != [] {
      FinishAges(a, slots[..|slots| - 1]);
    }
  }

  lemma ReserveOneAges(a: Alloc)
    requires a.Valid() && NextFree(a) < a.total
    ensures Ages(a, ReserveOne(a))
    ensures var p := Issue(NextFree(a), a.generations[NextFree(a)]); Spent(ReserveOne(a), p) && !Spent(a, p)
  {
    assert a.freeList != [] ==> a.freeList[0] in a.freeList;
    assert a.states[NextFree(a)] == Free;
  }

  lemma {:induction false} ReserveAges(a: Alloc, count: nat)
    requires a.Valid()
    ensures var (b, issued) := ReserveUpTo(a, count);
            && Ages(a, b) && Distinct(issued)
            && forall p :: p in issued ==> Spent(b, p) && !Spent(a, p)
  {
    hide Alloc.Valid, Spent, NextFree, ReserveOne;
    if count > 0 {
      ReserveAges(a, count - 1);
      var (b, issued) := ReserveUpTo(a, count - 1);
      if |issued| == count - 1 && NextFree(b) < b.total {
        ReserveOneAges(b);
      }
    }
  }

  // No (slot, generation) pair is ever handed out twice between two
  // configurations, whatever calls are made in whatever order.
  lemma {:induction false} NeverIssuedTwice(a: Alloc, calls: seq<Call>)
    requires a.Valid() && forall s :: 0 <= s < a.total ==> a.states[s] == Free
    ensures var (b, issued) := Run(a, calls);
            Distinct(issued) && forall p :: p in issued ==> Spent(b, p)
  {
    hide Alloc.Valid, Spent, ReserveUpTo, CommitAll, RetireAll, FinishAll;
    if calls != [] {
      var front, c := calls[..|calls| - 1], calls[|calls| - 1];
      NeverIssuedTwice(a, front);
      var (b, issued) := Run(a, front);
      match c {
        case CallReserve(n) =>
          ReserveAges(b, n);
          DistinctAppend(issued, ReserveUpTo(b, n).1);
        case CallCommit(s) => CommitAges(b, s);
        case CallAbort(s) => RetireAges(b, s, Reserved);
        case CallRelease(s) => RetireAges(b, s, Committed);
        case CallTake(n) => SameAges(b, TakeAll(b, n));
        case CallFinish(s) => FinishAges(b, s);
        case CallRequeue(s) => SameAges(b, RequeueAll(b, s));
        case CallReadyLimit(n) => SameAges(b, b.(readyLimit := n));
      }
    }
  }
}
