// Building file groups ahead of use. A precreate step decides and publishes
// under the store's mutex but builds the files outside it, so other calls run
// in between.
module Precreate {
  import opened Common
  import opened Placement
  import opened SpaceAllocator
  import opened ObjectStore
  import opened StoreRecovery

  // The group a precreate step is building, outside the lock.
  datatype Build = Build(start: nat, end: nat, paths: seq<string>, built: nat)

  // `files` are the segment files fully built on media.
  datatype Pool = Pool(precreated: nat, target: nat, busy: bool, isOpen: bool, alloc: Alloc, files: set<string>,
                       builders: map<nat, Build>)

  datatype Site = Site(g: Geometry, total: nat) {
    ghost predicate Valid() { g.Valid() && total > 0 }

    function Group(): (r: nat)
      requires g.mounts != [] && g.slotsPerFile > 0
      ensures r > 0
    {
      assert g.slotsPerFile * |g.mounts| > 0;
      g.GroupSlots()
    }

    // The end of the group that starts at p.
    function Next(p: nat): nat
      requires g.mounts != [] && g.slotsPerFile > 0
    {
      Min(total, p + Group())
    }

    ghost predicate Aligned(p: nat)
      requires g.Valid()
    {
      p == total || (p < total && p % Group() == 0)
    }

    // The files of the group holding slot p.
    function Paths(p: nat): (r: seq<string>)
      requires g.mounts != [] && g.slotsPerFile > 0 && g.Valid()
    {
      var firsts := GroupFirsts(g, p, total);
      seq(|firsts|, i requires 0 <= i < |firsts| => g.Path(firsts[i]))
    }
  }

  ghost predicate Ready(site: Site, files: set<string>, p: nat)
    requires site.g.Valid()
  {
    forall slot: nat :: slot < p ==> site.g.Path(slot) in files
  }

  ghost predicate Built(files: set<string>, paths: seq<string>, n: nat) {
    n <= |paths| && forall i :: 0 <= i < n ==> paths[i] in files
  }

  // ---- groups ----

  lemma SameGroup(site: Site, p: nat, slot: nat)
    requires site.Valid() && p % site.Group() == 0 && p <= slot < p + site.Group()
    ensures GroupFirsts(site.g, slot, site.total) == GroupFirsts(site.g, p, site.total)
  {
    var n := site.Group();
    DivisionForm(p, n);
    DivModOfForm(p / n, slot - p, n);
    DivModOfForm(p / n, 0, n);
  }

  lemma NextAligned(site: Site, p: nat)
    requires site.Valid() && p % site.Group() == 0 && p < site.total
    ensures p < site.Next(p) <= site.total && site.Aligned(site.Next(p))
  {
    var n := site.Group();
    DivisionForm(p, n);
    assert p + n == (p / n + 1) * n;
    DivModOfForm(p / n + 1, 0, n);
  }

  // A whole group on media makes all its slots ready.
  lemma GroupReady(site: Site, files: set<string>, p: nat)
    requires site.Valid() && p % site.Group() == 0 && p < site.total && Ready(site, files, p)
    requires Built(files, site.Paths(p), |site.Paths(p)|)
    ensures Ready(site, files, site.Next(p))
  {
    hide Geometry.Path, Geometry.GroupSlots;
    forall slot: nat | slot < site.Next(p)
      ensures site.g.Path(slot) in files
    {
      if p <= slot {
        SameGroup(site, p, slot);
        GroupHoldsItsSlots(site.g, slot, site.total);
        assert site.Paths(p)[site.g.Device(slot)] in files;
      }
    }
  }

  // ---- adopting what is already on media ----

  function AdoptCount(site: Site, files: set<string>, p: nat): (r: nat)
    requires site.g.Valid() && site.g.mounts != []
    decreases site.total - p
  {
    if p < site.total && (forall i :: 0 <= i < |site.Paths(p)| ==> site.Paths(p)[i] in files)
    then AdoptCount(site, files, site.Next(p)) else p
  }

  // Exactly the leading run of complete groups is published: everything below
  // the result is ready, and the group at the result misses a file.
  lemma {:induction false} AdoptIsExact(site: Site, files: set<string>, p: nat)
    requires site.Valid() && site.Aligned(p) && Ready(site, files, p)
    ensures var r := AdoptCount(site, files, p);
            && p <= r <= site.total && site.Aligned(r) && Ready(site, files, r)
            && (r < site.total ==> !Built(files, site.Paths(r), |site.Paths(r)|))
    decreases site.total - p
  {
    hide Geometry.Path, Geometry.GroupSlots, Site.Paths, Ready;
    if p < site.total && Built(files, site.Paths(p), |site.Paths(p)|) {
      GroupReady(site, files, p);
      NextAligned(site, p);
      AdoptIsExact(site, files, site.Next(p));
    }
  }

  // The two nested loops of the source.
  method AdoptExistingGroups(site: Site, files: set<string>, precreated: nat) returns (r: nat)
    requires site.Valid() && site.Aligned(precreated)
    ensures r == AdoptCount(site, files, precreated)
  {
    hide Geometry.Path, Geometry.GroupSlots, GroupFirsts;
    r := precreated;
    while r < site.total
      invariant site.Aligned(r) && AdoptCount(site, files, r) == AdoptCount(site, files, precreated)
      decreases site.total - r
    {
      var paths := GroupPaths(site.g, r, site.total);
      assert paths == site.Paths(r);
      for i := 0 to |paths|
        invariant Built(files, paths, i)
      {
        if paths[i] !in files {
          return;
        }
      }
      NextAligned(site, r);
      r := site.Next(r);
    }
  }

  // ---- how far ahead to build ----

  // The target covers the frontier plus the headroom (or everything), ends on
  // a group boundary or at the end, and overshoots by less than a group.
  function Target(site: Site, frontier: nat, headroom: nat): (target: nat)
    requires site.Valid() && frontier <= site.total
    ensures target <= site.total && site.Aligned(target)
    ensures Min(site.total, frontier + headroom) <= target
    ensures target == site.total || target < frontier + headroom + site.Group()
  {
    var n := site.Group();
    var wanted := if headroom >= site.total - frontier then site.total else frontier + headroom;
    var rounded := (wanted + n - 1) / n * n;
    DivisionForm(wanted + n - 1, n);
    DivModOfForm((wanted + n - 1) / n, 0, n);
    Min(site.total, rounded)
  }

  // ---- the steps ----

  datatype Action =
    | Begin(thread: nat, headroom: nat)  // locked: decide, and take the busy flag
    | BuildFile(thread: nat)             // unlocked: one more file complete
    | Publish(thread: nat)               // locked: every file was built
    | GiveUp(thread: nat)                // locked: building failed
    | CallAllocator(call: Call)
    | CloseStore
    | OpenStore(recovered: seq<nat>)

  ghost predicate Enabled(site: Site, p: Pool, step: Action) {
    match step
    case Begin(t, _) => t !in p.builders && (p.isOpen ==> p.alloc.highWater <= site.total)
    case BuildFile(t) => t in p.builders && p.builders[t].built < |p.builders[t].paths|
    case Publish(t) => t in p.builders && p.builders[t].built == |p.builders[t].paths|
    case GiveUp(t) => t in p.builders
    case CallAllocator(c) => p.alloc.Valid() && !c.CallReadyLimit?
    case CloseStore => true
    case OpenStore(_) => !p.isOpen
  }

  // A pool that opens cold builds its first group before open() returns.
  ghost function Opened(site: Site, p: Pool, recovered: seq<nat>): Pool
    requires site.Valid()
  {
    var adopted := AdoptCount(site, p.files, p.precreated);
    var precreated := if adopted == 0 then site.Next(0) else adopted;
    p.(precreated := precreated, isOpen := true,
       files := if adopted == 0 then p.files + Elements(site.Paths(0)) else p.files,
       alloc := AdoptSlots(Configured(site.total, p.alloc.readyLimit), recovered).(readyLimit := precreated))
  }

  ghost function Apply(site: Site, p: Pool, step: Action): Pool
    requires site.Valid() && Enabled(site, p, step)
  {
    match step
    case Begin(t, headroom) =>
      if !p.isOpen then p
      else
        // The frontier is how many slots the allocator has ever handed out.
        var target := Target(site, p.alloc.highWater, headroom);
        if p.busy || p.precreated >= target then p.(target := target)
        else
          p.(target := target, busy := true,
             builders := p.builders[t := Build(p.precreated, site.Next(p.precreated), site.Paths(p.precreated), 0)])
    case BuildFile(t) =>
      var b := p.builders[t];
      p.(files := p.files + {b.paths[b.built]}, builders := p.builders[t := b.(built := b.built + 1)])
    case Publish(t) =>
      p.(busy := false, precreated := p.builders[t].end, alloc := p.alloc.(readyLimit := p.builders[t].end),
         builders := p.builders - {t})
    case GiveUp(t) => p.(busy := false, builders := p.builders - {t})
    case CallAllocator(c) => p.(alloc := Step(p.alloc, c).0)
    case CloseStore => p.(isOpen := false)
    case OpenStore(recovered) => Opened(site, p, recovered)
  }

  // ---- what every step keeps ----

  ghost predicate Building(site: Site, p: Pool, b: Build)
    requires site.Valid()
  {
    && 0 < b.start < site.total && b.start % site.Group() == 0 && b.start <= p.precreated
    && b.end == site.Next(b.start) && b.paths == site.Paths(b.start) && Built(p.files, b.paths, b.built)
  }

  // The published count is a whole number of groups or everything; every slot
  // below it has its file; and at most one step is building.
  ghost predicate Inv(site: Site, p: Pool)
    requires site.Valid()
  {
    && p.alloc.Valid() && site.Aligned(p.precreated) && Ready(site, p.files, p.precreated)
    && (p.isOpen ==> 0 < p.precreated == p.alloc.readyLimit && p.alloc.total == site.total)
    && (p.busy <==> p.builders != map[])
    && (forall t, u :: t in p.builders && u in p.builders ==> t == u)
    && (forall t :: t in p.builders ==> Building(site, p, p.builders[t]))
  }

  lemma MoreFiles(site: Site, files: set<string>, more: set<string>, p: nat)
    requires site.Valid() && files <= more && Ready(site, files, p)
    ensures Ready(site, more, p)
  {
    hide Geometry.Path;
  }

  lemma NothingReady(site: Site, files: set<string>)
    requires site.Valid()
    ensures Ready(site, files, 0) && site.Aligned(0)
  {
  }

  lemma {:induction false} LessReady(site: Site, files: set<string>, p: nat, q: nat)
    requires site.Valid() && q <= p && Ready(site, files, p)
    ensures Ready(site, files, q)
  {
    hide Geometry.Path;
  }

  lemma OpenKeeps(site: Site, p: Pool, recovered: seq<nat>)
    requires site.Valid() && Inv(site, p)
    ensures Inv(site, Opened(site, p, recovered)) && Opened(site, p, recovered).precreated >= p.precreated
    // The first group, built inside open(), never meets a concurrent build.
    ensures AdoptCount(site, p.files, p.precreated) == 0 ==> p.builders == map[]
  {
    hide Geometry.Path, Geometry.GroupSlots, GroupFirsts, AdoptCount, AdoptSlots, Alloc.Valid, Ready;
    var p' := Opened(site, p, recovered);
    AdoptIsExact(site, p.files, p.precreated);
    AdoptTotal(site.total, p.alloc.readyLimit, recovered);
    ReadyLimitKeepsValid(AdoptSlots(Configured(site.total, p.alloc.readyLimit), recovered), p'.precreated);
    MoreFiles(site, p.files, p'.files, p.precreated);
    if AdoptCount(site, p.files, p.precreated) == 0 {
      NothingReady(site, p'.files);
      assert Built(p'.files, site.Paths(0), |site.Paths(0)|);
      NextAligned(site, 0);
      GroupReady(site, p'.files, 0);
    }
    forall t | t in p'.builders
      ensures Building(site, p', p'.builders[t])
    {
      assert Building(site, p, p.builders[t]);
    }
  }

  lemma StepKeeps(site: Site, p: Pool, step: Action)
    requires site.Valid() && Inv(site, p) && Enabled(site, p, step)
    ensures Inv(site, Apply(site, p, step))
  {
    hide Geometry.Path, Geometry.GroupSlots, GroupFirsts, Opened, Step, Alloc.Valid, Ready, Target, Site.Paths;
    match step {
      case Begin(t, headroom) =>
      case BuildFile(t) => BuildKeeps(site, p, t);
      case Publish(t) =>
        var b := p.builders[t];
        assert Building(site, p, b);
        LessReady(site, p.files, p.precreated, b.start);
        NextAligned(site, b.start);
        GroupReady(site, p.files, b.start);
        ReadyLimitKeepsValid(p.alloc, b.end);
      case GiveUp(t) =>
      case CallAllocator(c) => CallKeepsLimit(p.alloc, c);
      case CloseStore =>
      case OpenStore(recovered) => OpenKeeps(site, p, recovered);
    }
  }

  lemma BuildKeeps(site: Site, p: Pool, t: nat)
    requires site.Valid() && Inv(site, p) && Enabled(site, p, BuildFile(t))
    ensures Inv(site, Apply(site, p, BuildFile(t)))
  {
    hide Alloc.Valid, Site.Paths, Ready;
    var p' := Apply(site, p, BuildFile(t));
    MoreFiles(site, p.files, p'.files, p.precreated);
    assert Building(site, p, p.builders[t]);
  }

  lemma CallKeepsLimit(a: Alloc, c: Call)
    requires a.Valid() && !c.CallReadyLimit?
    ensures var r := Step(a, c).0; r.readyLimit == a.readyLimit && r.total == a.total
  {
  }

  // ---- every run ----

  // A store object before its first open, over whatever files are on media.
  ghost function Fresh(files: set<string>): Pool {
    Pool(0, 0, false, false, Configured(0, UNLIMITED), files, map[])
  }

  ghost predicate Reaches(site: Site, start: Pool, steps: seq<Action>, end: Pool)
    requires site.Valid()
  {
    if steps == [] then end == start
    else
      var front, last := steps[..|steps| - 1], steps[|steps| - 1];
      exists mid :: Reaches(site, start, front, mid) && Enabled(site, mid, last) && end == Apply(site, mid, last)
  }

  // PRECREATION. In every interleaving of precreate steps, file building,
  // failures, allocator calls, closing and reopening: the published count is
  // a whole number of groups or the total, every slot below it has a complete
  // file, and no two steps build at once.
  lemma {:induction false} PublishedIsReady(site: Site, files: set<string>, steps: seq<Action>, end: Pool)
    requires site.Valid() && Reaches(site, Fresh(files), steps, end)
    ensures Inv(site, end)
  {
    hide Enabled, Apply, Building, Geometry.Path, Geometry.GroupSlots;
    if steps == [] {
      NothingReady(site, files);
    } else {
      hide Inv;
      var mid :| Reaches(site, Fresh(files), steps[..|steps| - 1], mid) && Enabled(site, mid, steps[|steps| - 1]) &&
                 end == Apply(site, mid, steps[|steps| - 1]);
      PublishedIsReady(site, files, steps[..|steps| - 1], mid);
      StepKeeps(site, mid, steps[|steps| - 1]);
    }
  }

  // Only publishing can take the count back.
  lemma CountShrinksIff(site: Site, p: Pool, step: Action)
    requires site.Valid() && Inv(site, p) && Enabled(site, p, step)
    ensures Apply(site, p, step).precreated < p.precreated <==>
              step.Publish? && p.builders[step.thread].end < p.precreated
  {
    hide Geometry.Path, Geometry.GroupSlots, GroupFirsts, Opened, Step, Alloc.Valid, Ready, Target, Site.Paths;
    if step.OpenStore? {
      OpenKeeps(site, p, step.recovered);
    }
  }

  // While nobody reopens under a running build, the group being built is the
  // next one, so the count only grows.
  ghost predicate Undisturbed(p: Pool) {
    forall t :: t in p.builders ==> p.builders[t].start == p.precreated
  }

  lemma UndisturbedGrows(site: Site, p: Pool, step: Action)
    requires site.Valid() && Inv(site, p) && Enabled(site, p, step) && Undisturbed(p)
    requires step.OpenStore? ==> p.builders == map[]
    ensures Undisturbed(Apply(site, p, step)) && Apply(site, p, step).precreated >= p.precreated
  {
    hide Geometry.Path, Geometry.GroupSlots, GroupFirsts, Step, Alloc.Valid, Ready, Target, Site.Paths;
    CountShrinksIff(site, p, step);
    if step.Publish? {
      assert Building(site, p, p.builders[step.thread]);
      NextAligned(site, p.builders[step.thread].start);
    }
  }

  lemma AdoptsAtLeast(site: Site, files: set<string>, p: nat)
    requires site.Valid() && p < site.total && p % site.Group() == 0 && Built(files, site.Paths(p), |site.Paths(p)|)
    ensures AdoptCount(site, files, p) == AdoptCount(site, files, site.Next(p)) >= site.Next(p)
  {
    hide Geometry.Path, Geometry.GroupSlots, GroupFirsts, Site.Paths;
    AdoptCountGrows(site, files, site.Next(p));
  }

  lemma {:induction false} AdoptCountGrows(site: Site, files: set<string>, p: nat)
    requires site.Valid()
    ensures AdoptCount(site, files, p) >= p
    decreases site.total - p
  {
    hide Geometry.Path, Geometry.GroupSlots, GroupFirsts, Site.Paths;
    if p < site.total {
      AdoptCountGrows(site, files, site.Next(p));
    }
  }

  // ---- which slots are handed out ----

  ghost predicate NoLimitCalls(calls: seq<Call>) {
    forall i :: 0 <= i < |calls| ==> !calls[i].CallReadyLimit?
  }

  ghost predicate IssuedBelow(issued: seq<Issue>, limit: nat) {
    forall i :: 0 <= i < |issued| ==> issued[i].slot < limit
  }

  lemma {:induction false} ReserveBelow(a: Alloc, count: nat)
    requires a.Valid() && a.highWater <= a.readyLimit
    ensures var (b, issued) := ReserveUpTo(a, count); b.highWater <= b.readyLimit && IssuedBelow(issued, a.readyLimit)
  {
    hide Alloc.Valid, NextFree, ReserveOne;
    if count > 0 {
      ReserveBelow(a, count - 1);
      var (b, issued) := ReserveUpTo(a, count - 1);
      if |issued| == count - 1 && NextFree(b) < b.total {
        ReserveOneBelow(b);
      }
    }
  }

  lemma ReserveOneBelow(a: Alloc)
    requires a.Valid() && a.highWater <= a.readyLimit && NextFree(a) < a.total
    ensures NextFree(a) < a.readyLimit && ReserveOne(a).highWater <= a.readyLimit
  {
    assert a.freeList != [] ==> a.freeList[0] in a.freeList;
  }

  lemma {:induction false} CallsStayBelow(a: Alloc, calls: seq<Call>)
    requires a.Valid() && a.highWater <= a.readyLimit && NoLimitCalls(calls)
    ensures var (b, issued) := Run(a, calls);
            b.readyLimit == a.readyLimit && b.highWater <= b.readyLimit && IssuedBelow(issued, a.readyLimit)
  {
    hide Alloc.Valid, ReserveUpTo, CommitAll, RetireAll, FinishAll, RequeueAll, TakeAll;
    if calls != [] {
      var front, c := calls[..|calls| - 1], calls[|calls| - 1];
      CallsStayBelow(a, front);
      var b := Run(a, front).0;
      if c.CallReserve? {
        ReserveBelow(b, c.count);
      }
    }
  }

  // The allocator as open() leaves it.
  ghost function AfterOpen(total: nat, recovered: seq<nat>, ready: nat): (r: Alloc)
    ensures r.Valid()
  {
    ReadyLimitKeepsValid(AdoptSlots(Configured(total, UNLIMITED), recovered), ready);
    AdoptSlots(Configured(total, UNLIMITED), recovered).(readyLimit := ready)
  }

  lemma AdoptMarks(total: nat, limit: nat, slots: seq<nat>)
    requires slots != []
    ensures var r := AdoptSlots(Configured(total, limit), slots);
            r.freeList == [] && r.highWater == Min(Highest(slots) + 1, Min(total, limit))
  {
    hide Alloc.Valid, ReserveUpTo, CommitAll, RetireAll, Gaps, Highest, Configured;
    var n := Highest(slots) + 1;
    ClaimFresh(total, limit, n, Min(n, Min(total, limit)));
    AdoptUnfolds(Configured(total, limit), slots);
  }

  // Free a recovered slot again, and ask for one.
  function Recycle(s: nat, max: nat): seq<Call> {
    [CallRelease([s])] + [CallTake(max)] + [CallFinish([s])] + [CallReserve(1)]
  }

  lemma RunNext(a: Alloc, calls: seq<Call>, c: Call)
    requires a.Valid()
    ensures Run(a, calls + [c]) == (Step(Run(a, calls).0, c).0, Run(a, calls).1 + Step(Run(a, calls).0, c).1)
  {
    hide Step;
    assert (calls + [c])[..|calls|] == calls;
  }

  lemma Freed(a: Alloc, s: nat, max: nat)
    requires a.Valid() && s < a.total && a.states[s] == Committed && a.freeList == [] && max > |a.queue|
    ensures var d := FinishAll(TakeAll(RetireAll(a, [s], Committed), max), [s]); d.freeList == [s] && d.total == a.total
  {
    hide Alloc.Valid;
    Sizes(a);
    var b := Retire(a, s, Committed);
    assert [s][..0] == [] && RetireAll(a, [], Committed) == a && RetireAll(a, [s], Committed) == b;
    var c := TakeAll(b, max);
    assert b.queue == a.queue + [s] && b.queue[..Min(max, |b.queue|)] == b.queue;
    assert s in c.inFlight by {
      assert b.queue[|b.queue| - 1] == s;
    }
    assert FinishAll(c, []) == c && FinishAll(c, [s]) == FinishOne(c, s);
  }

  lemma IssuesHead(d: Alloc, s: nat, count: nat)
    requires d.Valid() && d.freeList == [s] && count == 1
    ensures |ReserveUpTo(d, count).1| == 1 && ReserveUpTo(d, count).1[0].slot == s
  {
    assert s in d.freeList;
    assert ReserveUpTo(d, count - 1) == (d, []);
  }

  lemma RecycleIssues(a: Alloc, s: nat, max: nat)
    requires a.Valid() && s < a.total && a.states[s] == Committed && a.freeList == [] && max > |a.queue|
    ensures exists i :: 0 <= i < |Run(a, Recycle(s, max)).1| && Run(a, Recycle(s, max)).1[i].slot == s
  {
    hide Alloc.Valid, Run, RetireAll, TakeAll, FinishAll, ReserveUpTo;
    var r1 := [CallRelease([s])];
    assert [] + r1 == r1;
    RunNothing(a);
    RunNext(a, [], CallRelease([s]));
    RunNext(a, r1, CallTake(max));
    RunNext(a, r1 + [CallTake(max)], CallFinish([s]));
    RunNext(a, r1 + [CallTake(max)] + [CallFinish([s])], CallReserve(1));
    Freed(a, s, max);
    IssuesHead(FinishAll(TakeAll(RetireAll(a, [s], Committed), max), [s]), s, 1);
    assert Run(a, Recycle(s, max)).1[0].slot == s;
  }

  lemma RunNothing(a: Alloc)
    requires a.Valid()
    ensures Run(a, []) == (a, [])
  {
  }

  // Slots at or above the published count are never handed out, whatever the
  // calls, if and only if recovery found nothing there: a recovered slot whose
  // group is not completely on media comes back into circulation once it is
  // released.
  lemma OnlyReadySlotsIssuedIff(total: nat, recovered: seq<nat>, ready: nat)
    requires total < UNLIMITED && forall s :: s in recovered ==> s < total
    ensures (forall calls :: NoLimitCalls(calls) ==>
                               IssuedBelow(Run(AfterOpen(total, recovered, ready), calls).1, ready)) <==>
            (forall s :: s in recovered ==> s < ready)
  {
    hide Run, AdoptSlots, Alloc.Valid, Highest, Recycle, IssuedBelow;
    var a := AfterOpen(total, recovered, ready);
    AdoptedMarks(total, recovered, ready);
    if s :| s in recovered && s >= ready {
      RecycleIssues(a, s, |a.queue| + 1);
      NotBelow(Run(a, Recycle(s, |a.queue| + 1)).1, s, ready);
      RecycleCalls(s, |a.queue| + 1);
    } else {
      forall calls | NoLimitCalls(calls)
        ensures IssuedBelow(Run(a, calls).1, ready)
      {
        CallsStayBelow(a, calls);
      }
    }
  }

  lemma AdoptedMarks(total: nat, recovered: seq<nat>, ready: nat)
    requires total < UNLIMITED && forall s :: s in recovered ==> s < total
    ensures var a := AfterOpen(total, recovered, ready);
            && a.total == total && |a.states| == total && a.freeList == [] && a.readyLimit == ready
            && (forall s :: s in recovered ==> a.states[s] == Committed)
            && ((forall s :: s in recovered ==> s < ready) ==> a.highWater <= ready)
  {
    hide AdoptSlots, Alloc.Valid, Highest;
    if recovered != [] {
      AdoptMarks(total, UNLIMITED, recovered);
      AdoptStates(total, UNLIMITED, recovered);
      SlotsBelowHighest(recovered);
      HighestBelow(recovered, total);
      if forall s :: s in recovered ==> s < ready {
        HighestBelow(recovered, ready);
      }
    } else {
      NothingRecovered(total, UNLIMITED);
    }
  }

  lemma NothingRecovered(total: nat, limit: nat)
    ensures AdoptSlots(Configured(total, limit), []) == Configured(total, limit)
  {
  }

  lemma NotBelow(issued: seq<Issue>, s: nat, limit: nat)
    requires s >= limit && exists i :: 0 <= i < |issued| && issued[i].slot == s
    ensures !IssuedBelow(issued, limit)
  {
  }

  lemma RecycleCalls(s: nat, max: nat)
    ensures NoLimitCalls(Recycle(s, max))
  {
  }

  // ---- the frontier over whole runs ----

  // Reopening waits for a running build, and recovers nothing at or above the
  // count it publishes.
  ghost predicate Orderly(site: Site, p: Pool, step: Action)
    requires site.Valid()
  {
    step.OpenStore? ==>
      p.builders == map[] && forall s :: s in step.recovered ==> s < Opened(site, p, step.recovered).precreated
  }

  ghost predicate Frontier(p: Pool) {
    && Undisturbed(p) && p.alloc.highWater <= p.alloc.readyLimit
    && (p.builders != map[] ==> p.alloc.readyLimit == p.precreated)
  }

  lemma CallKeepsFrontier(a: Alloc, c: Call)
    requires a.Valid() && a.highWater <= a.readyLimit && !c.CallReadyLimit?
    ensures var (b, issued) := Step(a, c);
            b.highWater <= b.readyLimit == a.readyLimit && IssuedBelow(issued, a.readyLimit)
  {
    hide Alloc.Valid, ReserveUpTo, CommitAll, RetireAll, FinishAll, RequeueAll, TakeAll;
    CallKeepsLimit(a, c);
    if c.CallReserve? {
      ReserveBelow(a, c.count);
    }
  }

  lemma OpenFrontier(total: nat, limit: nat, recovered: seq<nat>, ready: nat)
    requires forall s :: s in recovered ==> s < ready
    ensures AdoptSlots(Configured(total, limit), recovered).highWater <= ready
  {
    hide AdoptSlots, Alloc.Valid, Highest;
    if recovered == [] {
      NothingRecovered(total, limit);
    } else {
      AdoptMarks(total, limit, recovered);
      HighestBelow(recovered, ready);
    }
  }

  lemma FrontierStep(site: Site, p: Pool, step: Action)
    requires site.Valid() && Inv(site, p) && Enabled(site, p, step) && Frontier(p) && Orderly(site, p, step)
    ensures Frontier(Apply(site, p, step)) && Apply(site, p, step).precreated >= p.precreated
  {
    hide Geometry.Path, Geometry.GroupSlots, GroupFirsts, AdoptSlots, AdoptCount, Step, Alloc.Valid, Ready, Target,
         Site.Paths,
         Undisturbed;
    UndisturbedGrows(site, p, step);
    match step {
      case CallAllocator(c) => CallKeepsFrontier(p.alloc, c);
      case OpenStore(recovered) =>
        OpenFrontier(site.total, p.alloc.readyLimit, recovered, Opened(site, p, recovered).precreated);
      case Publish(t) => NoBuilders(p, t);
      case GiveUp(t) => NoBuilders(p, t);
      case _ =>
    }
  }

  lemma NoBuilders(p: Pool, t: nat)
    requires t in p.builders && forall u, v :: u in p.builders && v in p.builders ==> u == v
    ensures p.builders - {t} == map[]
  {
  }

  ghost predicate OrderlyReaches(site: Site, start: Pool, steps: seq<Action>, end: Pool)
    requires site.Valid()
  {
    if steps == [] then end == start
    else
      var front, last := steps[..|steps| - 1], steps[|steps| - 1];
      exists mid :: OrderlyReaches(site, start, front, mid) && Enabled(site, mid, last) && Orderly(site, mid, last) &&
                    end == Apply(site, mid, last)
  }

  lemma {:induction false} OrderlyKeeps(site: Site, start: Pool, steps: seq<Action>, end: Pool)
    requires site.Valid() && Inv(site, start) && Frontier(start) && OrderlyReaches(site, start, steps, end)
    ensures Inv(site, end) && Frontier(end) && end.precreated >= start.precreated
  {
    hide Inv, Enabled, Apply, Orderly, Frontier;
    if steps != [] {
      var front, last := steps[..|steps| - 1], steps[|steps| - 1];
      var mid :| OrderlyReaches(site, start, front, mid) && Enabled(site, mid, last) && Orderly(site, mid, last) &&
                 end == Apply(site, mid, last);
      OrderlyKeeps(site, start, front, mid);
      StepKeeps(site, mid, last);
      FrontierStep(site, mid, last);
    }
  }

  // FRONTIER. In every orderly run from a new store object, however it goes
  // on: the published count never shrinks between two moments, and no
  // allocator call issues a slot at or above it.
  lemma FrontierNeverPasses(site: Site, files: set<string>, steps: seq<Action>, mid: Pool, more: seq<Action>,
                            end: Pool, c: Call)
    requires site.Valid() && OrderlyReaches(site, Fresh(files), steps, mid) && OrderlyReaches(site, mid, more, end)
    requires end.isOpen && end.alloc.Valid() && !c.CallReadyLimit?
    ensures mid.precreated <= end.precreated && end.alloc.highWater <= end.precreated
    ensures IssuedBelow(Step(end.alloc, c).1, end.precreated)
  {
    hide OrderlyReaches, Undisturbed, Building, Ready, Alloc.Valid, Step;
    assert Inv(site, Fresh(files)) && Frontier(Fresh(files)) by {
      NothingReady(site, files);
      NothingBuilt(files);
    }
    OrderlyKeeps(site, Fresh(files), steps, mid);
    OrderlyKeeps(site, mid, more, end);
    CallKeepsFrontier(end.alloc, c);
  }

  lemma NothingBuilt(files: set<string>)
    ensures Undisturbed(Fresh(files))
  {
  }
}
