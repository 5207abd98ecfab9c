// Whole runs of precreation: exactly when the published count goes back, a run
// in which it does, and the runs in which it cannot.
module PrecreateRuns {
  import opened Common
  import opened Placement
  import opened SpaceAllocator
  import opened ObjectStore
  import opened Precreate

  // All files of the group that starts at p are on media.
  ghost predicate Whole(site: Site, files: set<string>, p: nat)
    requires site.Valid()
  {
    Built(files, site.Paths(p), |site.Paths(p)|)
  }

  // ---- what a reopening adopts ----

  lemma FirstsInGroup(site: Site, p: nat)
    requires site.Valid() && p % site.Group() == 0
    ensures forall f :: f in GroupFirsts(site.g, p, site.total) ==> p <= f < p + site.Group() && f < site.total
    ensures p < site.total ==> |GroupFirsts(site.g, p, site.total)| > 0 && GroupFirsts(site.g, p, site.total)[0] == p
  {
    DivisionForm(p, site.Group());
    assert site.Group() >= |site.g.mounts| by {
      TimesOrder(0, site.g.slotsPerFile, |site.g.mounts|);
    }
  }

  // Slots that are ready have their whole group on media.
  lemma ReadyMeansWhole(site: Site, files: set<string>, p: nat, c: nat)
    requires site.Valid() && p % site.Group() == 0 && p < site.total && site.Next(p) <= c && Ready(site, files, c)
    ensures Whole(site, files, p)
  {
    hide Geometry.Path, GroupFirsts, Geometry.GroupSlots;
    FirstsInGroup(site, p);
    var firsts := GroupFirsts(site.g, p, site.total);
    forall i | 0 <= i < |firsts|
      ensures site.Paths(p)[i] in files
    {
      assert firsts[i] in firsts;
    }
  }

  // A count between two group starts is one of them.
  lemma NoCountBetween(site: Site, p: nat, c: nat)
    requires site.Valid() && p % site.Group() == 0 && p < site.total && site.Aligned(c) && p <= c
    ensures c == p || c >= site.Next(p)
  {
    var n := site.Group();
    if p < c < site.Next(p) {
      DivisionForm(p, n);
      DivModOfForm(p / n, c - p, n);
    }
  }

  // WHAT A REOPENING DOES TO A RUNNING BUILD. Opening a closed store publishes
  // beyond the end of the group being built if and only if that group and the
  // next are both on media at that moment.
  lemma ReopenOvertakesIff(site: Site, p: Pool, t: nat, recovered: seq<nat>)
    requires site.Valid() && Inv(site, p) && t in p.builders
    ensures var b := p.builders[t];
            Opened(site, p, recovered).precreated > b.end <==>
              b.end < site.total && Whole(site, p.files, b.start) && Whole(site, p.files, b.end)
  {
    hide Geometry.Path, Geometry.GroupSlots, GroupFirsts, AdoptSlots, Alloc.Valid, Ready, Site.Paths;
    var b, c := p.builders[t], p.precreated;
    assert Building(site, p, b);
    NextAligned(site, b.start);
    NoCountBetween(site, b.start, c);
    OpenKeeps(site, p, recovered);
    AdoptIsExact(site, p.files, c);
    if c >= b.end {
      ReadyMeansWhole(site, p.files, b.start, c);
    } else if Whole(site, p.files, b.start) {
      AdoptsAtLeast(site, p.files, b.start);
    }
    if c > b.end {
      NoCountBetween(site, b.end, c);
      ReadyMeansWhole(site, p.files, b.end, c);
    } else if b.end < site.total && Whole(site, p.files, b.end) {
      NextAligned(site, b.end);
      AdoptsAtLeast(site, p.files, b.end);
    }
  }

  // The form a caller can check: a build has all its files, and the closed
  // store is opened before it publishes. Then publishing takes the count back
  // if and only if the next group was already on media.
  lemma PublishAfterReopenShrinksIff(site: Site, p: Pool, t: nat, recovered: seq<nat>)
    requires site.Valid() && Inv(site, p) && !p.isOpen && t in p.builders && Enabled(site, p, Publish(t))
    ensures var b, reopened := p.builders[t], Apply(site, p, OpenStore(recovered));
            Apply(site, reopened, Publish(t)).precreated < reopened.precreated <==>
              b.end < site.total && Whole(site, p.files, b.end)
  {
    hide Geometry.Path, Geometry.GroupSlots, GroupFirsts, AdoptSlots, AdoptCount, Alloc.Valid, Ready, Site.Paths;
    assert Building(site, p, p.builders[t]);
    ReopenOvertakesIff(site, p, t, recovered);
  }

  // ---- exactly when the count goes back ----

  // The pools a run goes through, one more than steps.
  ghost predicate Trace(site: Site, files: set<string>, pools: seq<Pool>, steps: seq<Action>)
    requires site.Valid()
  {
    && |pools| == |steps| + 1 && pools[0] == Fresh(files)
    && forall i :: 0 <= i < |steps| ==>
         Enabled(site, pools[i], steps[i]) && pools[i + 1] == Apply(site, pools[i], steps[i])
  }

  lemma {:induction false} TraceKeeps(site: Site, files: set<string>, pools: seq<Pool>, steps: seq<Action>, k: nat)
    requires site.Valid() && Trace(site, files, pools, steps) && k < |pools|
    ensures Inv(site, pools[k])
  {
    if k == 0 {
      hide Building;
      NothingReady(site, files);
    } else {
      hide Inv, Enabled, Apply;
      TraceKeeps(site, files, pools, steps, k - 1);
      StepKeeps(site, pools[k - 1], steps[k - 1]);
    }
  }

  // Step i starts thread t's build, which is still running before step k.
  ghost predicate Runs(site: Site, pools: seq<Pool>, steps: seq<Action>, t: nat, i: nat, k: nat)
    requires site.Valid()
  {
    && i < k < |pools| == |steps| + 1 && steps[i].Begin? && steps[i].thread == t && t !in pools[i].builders
    && forall j :: i < j <= k ==> t in pools[j].builders
  }

  // Step r reopens the store while the group from start to end and the next
  // are whole.
  ghost predicate Overtakes(site: Site, pools: seq<Pool>, steps: seq<Action>, start: nat, end: nat, r: nat)
    requires site.Valid()
  {
    && r < |steps| < |pools| && steps[r].OpenStore? && end < site.total
    && Whole(site, pools[r].files, start) && Whole(site, pools[r].files, end)
  }

  ghost predicate Overtaken(site: Site, pools: seq<Pool>, steps: seq<Action>, start: nat, end: nat, i: nat, k: nat)
    requires site.Valid()
  {
    exists r :: i < r < k && Overtakes(site, pools, steps, start, end, r)
  }

  lemma OvertakenNext(site: Site, pools: seq<Pool>, steps: seq<Action>, start: nat, end: nat, i: nat, k: nat)
    requires site.Valid() && i < k
    ensures Overtaken(site, pools, steps, start, end, i, k + 1) <==>
              Overtaken(site, pools, steps, start, end, i, k) || Overtakes(site, pools, steps, start, end, k)
  {
    hide Overtakes;
  }

  // While a build runs only a reopening moves the count, and the build keeps
  // its group.
  lemma StepDuringBuild(site: Site, p: Pool, step: Action, t: nat)
    requires site.Valid() && Inv(site, p) && Enabled(site, p, step) && t in p.builders &&
             t in Apply(site, p, step).builders
    ensures var p' := Apply(site, p, step);
            && p'.builders[t].start == p.builders[t].start && p'.builders[t].end == p.builders[t].end
            && (!step.OpenStore? ==> p'.precreated == p.precreated)
  {
    hide Geometry.Path, Geometry.GroupSlots, GroupFirsts, AdoptSlots, AdoptCount, Step, Alloc.Valid, Ready, Target,
         Site.Paths;
  }

  // One step of the argument: the build is overtaken after it exactly if it was
  // before or the step is a reopening that overtakes it.
  lemma OvertakenStep(site: Site, p: Pool, step: Action, t: nat)
    requires site.Valid() && Inv(site, p) && Enabled(site, p, step) && t in p.builders &&
             t in Apply(site, p, step).builders
    ensures var b, p' := p.builders[t], Apply(site, p, step);
            && p'.builders[t].start == b.start && p'.builders[t].end == b.end
            && (p'.precreated > b.end <==>
                  p.precreated > b.end ||
                  (&& step.OpenStore? && b.end < site.total
                   && Whole(site, p.files, b.start) && Whole(site, p.files, b.end)))
  {
    hide Inv, Opened, Whole, Enabled, Step, Target, Site.Paths;
    StepDuringBuild(site, p, step, t);
    if step.OpenStore? {
      ReopenOvertakesIff(site, p, t, step.recovered);
      OpenOnlyRaises(site, p, step.recovered);
    }
  }

  lemma {:induction false} OvertakenIff(site: Site, files: set<string>, pools: seq<Pool>, steps: seq<Action>,
                                        t: nat, i: nat, k: nat)
    requires site.Valid() && Trace(site, files, pools, steps) && Runs(site, pools, steps, t, i, k)
    ensures var b, b' := pools[i + 1].builders[t], pools[k].builders[t];
            && b'.start == b.start && b'.end == b.end
            && (pools[k].precreated > b.end <==> Overtaken(site, pools, steps, b.start, b.end, i, k))
    decreases k
  {
    hide Inv, Enabled, Apply, Whole, Overtaken;
    TraceKeeps(site, files, pools, steps, k - 1);
    var p, step, b := pools[k - 1], steps[k - 1], pools[i + 1].builders[t];
    if k == i + 1 {
      FreshBuild(site, p, step);
      NeverYet(site, pools, steps, b.start, b.end, i);
    } else {
      assert t in pools[k - 1 + 1].builders;
      OvertakenIff(site, files, pools, steps, t, i, k - 1);
      OvertakenStep(site, p, step, t);
      OvertakenNext(site, pools, steps, b.start, b.end, i, k - 1);
    }
  }

  lemma NeverYet(site: Site, pools: seq<Pool>, steps: seq<Action>, start: nat, end: nat, i: nat)
    requires site.Valid()
    ensures !Overtaken(site, pools, steps, start, end, i, i + 1)
  {
  }

  lemma FreshBuild(site: Site, p: Pool, step: Action)
    requires site.Valid() && Inv(site, p) && Enabled(site, p, step) && step.Begin? &&
             step.thread in Apply(site, p, step).builders
    ensures var p' := Apply(site, p, step); p'.precreated < p'.builders[step.thread].end
  {
    hide Geometry.Path, GroupFirsts, Geometry.GroupSlots, Alloc.Valid, Ready, Target, Site.Paths;
    NextAligned(site, p.precreated);
  }

  lemma OpenOnlyRaises(site: Site, p: Pool, recovered: seq<nat>)
    requires site.Valid() && Inv(site, p)
    ensures Opened(site, p, recovered).precreated >= p.precreated
  {
    hide Opened, Inv;
    OpenKeeps(site, p, recovered);
  }

  // EXACTLY WHEN THE COUNT GOES BACK. In every run, publishing a build lowers
  // the count if and only if the store was reopened while it ran, with its group
  // and the next both on media at that reopening. No other step lowers it.
  lemma CountShrinksExactlyWhen(site: Site, files: set<string>, pools: seq<Pool>, steps: seq<Action>, t: nat, i: nat,
                                k: nat)
    requires site.Valid() && Trace(site, files, pools, steps) && k < |steps|
    requires steps[k] == Publish(t) && Runs(site, pools, steps, t, i, k)
    ensures t in pools[i + 1].builders
    ensures var b := pools[i + 1].builders[t];
            pools[k + 1].precreated < pools[k].precreated <==> Overtaken(site, pools, steps, b.start, b.end, i, k)
  {
    hide Inv, Whole, Opened, Step, Target, Site.Paths, Overtaken;
    OvertakenIff(site, files, pools, steps, t, i, k);
  }

  // ---- a run in which it does ----

  // Groups have files of their own.
  lemma GroupsApart(site: Site, p: nat, q: nat)
    requires site.Valid() && p % site.Group() == 0 && q % site.Group() == 0 && p != q && q < site.total
    ensures site.g.Path(q) !in site.Paths(p) && |site.Paths(q)| > 0 && site.Paths(q)[0] == site.g.Path(q)
  {
    hide Geometry.Path, GroupFirsts;
    FirstsInGroup(site, p);
    FirstsInGroup(site, q);
    var firsts := GroupFirsts(site.g, p, site.total);
    forall i | 0 <= i < |firsts|
      ensures site.Paths(p)[i] != site.g.Path(q)
    {
      assert firsts[i] in firsts;
      FileOfGroup(site, p, firsts[i]);
      FileOfGroup(site, q, q);
      SamePathIff(site.g, firsts[i], q);
    }
  }

  lemma FileOfGroup(site: Site, p: nat, slot: nat)
    requires site.Valid() && p % site.Group() == 0 && p <= slot < p + site.Group()
    ensures site.g.FileId(slot) * site.g.slotsPerFile * |site.g.mounts| == p
  {
    var n := site.Group();
    DivisionForm(p, n);
    DivModOfForm(p / n, slot - p, n);
    GroupStart(site.g, slot);
  }

  lemma NoSteps(site: Site, p: Pool)
    requires site.Valid()
    ensures Reaches(site, p, [], p)
  {
  }

  lemma ReachStep(site: Site, start: Pool, steps: seq<Action>, mid: Pool, step: Action)
    requires site.Valid() && Reaches(site, start, steps, mid) && Enabled(site, mid, step)
    ensures Reaches(site, start, steps + [step], Apply(site, mid, step))
  {
    hide Enabled, Apply;
    assert (steps + [step])[..|steps|] == steps;
  }

  // The build runs to its last file.
  lemma {:induction false} BuildAll(site: Site, start: Pool, steps: seq<Action>, p: Pool, t: nat)
    returns (more: seq<Action>, end: Pool)
    requires site.Valid() && Reaches(site, start, steps, p) && t in p.builders &&
             p.builders[t].built <= |p.builders[t].paths|
    ensures Reaches(site, start, more, end) && t in end.builders && Enabled(site, end, Publish(t))
    ensures p.files <= end.files && (Inv(site, p) ==> Inv(site, end))
    ensures end == p.(files := end.files,
                      builders := p.builders[t := p.builders[t].(built := |p.builders[t].paths|)])
    decreases |p.builders[t].paths| - p.builders[t].built
  {
    hide Reaches, Inv;
    more, end := steps, p;
    if p.builders[t].built < |p.builders[t].paths| {
      var step := BuildFile(t);
      ReachStep(site, start, steps, p, step);
      if Inv(site, p) {
        BuildKeeps(site, p, t);
      }
      more, end := BuildAll(site, start, steps + [step], Apply(site, p, step), t);
    }
  }

  lemma MoreWhole(site: Site, files: set<string>, more: set<string>, p: nat)
    requires site.Valid() && Whole(site, files, p) && files <= more
    ensures Whole(site, more, p)
  {
    hide Site.Paths;
  }

  // Opening over the first and the third group publishes just the first, and
  // the next step starts on the second.
  lemma StartOnSecond(site: Site, t: nat) returns (files: set<string>, steps: seq<Action>, p: Pool)
    requires site.Valid() && site.total > 2 * site.Group()
    ensures Reaches(site, Fresh(files), steps, p) && Inv(site, p) && p.precreated == site.Group()
    ensures Whole(site, p.files, 2 * site.Group()) && t in p.builders
    ensures p.builders[t] == Build(site.Group(), 2 * site.Group(), site.Paths(site.Group()), 0)
  {
    hide Reaches, Geometry.Path, Site.Paths, AdoptSlots, Geometry.GroupSlots;
    var n := site.Group();
    files := Elements(site.Paths(0)) + Elements(site.Paths(2 * n));
    Multiples(n);
    GroupsApart(site, 0, n);
    GroupsApart(site, 2 * n, n);
    AdoptsFirst(site, files);
    NoSteps(site, Fresh(files));
    NothingReady(site, files);
    ReachStep(site, Fresh(files), [], Fresh(files), OpenStore([]));
    var p1 := Apply(site, Fresh(files), OpenStore([]));
    NothingRecovered(site.total, UNLIMITED);
    PublishedIsReady(site, files, [] + [OpenStore([])], p1);
    ReachStep(site, Fresh(files), [] + [OpenStore([])], p1, Begin(t, site.total));
    steps, p := [] + [OpenStore([])] + [Begin(t, site.total)], Apply(site, p1, Begin(t, site.total));
    PublishedIsReady(site, files, steps, p);
  }

  lemma Multiples(n: nat)
    requires n > 0
    ensures 0 % n == 0 && n % n == 0 && 2 * n % n == 0
  {
    DivModOfForm(1, 0, n);
    DivModOfForm(2, 0, n);
  }

  lemma AdoptsFirst(site: Site, files: set<string>)
    requires site.Valid() && site.total > 2 * site.Group() && site.g.Path(site.Group()) !in files
    requires Elements(site.Paths(0)) <= files
    requires |site.Paths(site.Group())| > 0 && site.Paths(site.Group())[0] == site.g.Path(site.Group())
    ensures AdoptCount(site, files, 0) == site.Group()
  {
    hide Geometry.Path, Site.Paths, Geometry.GroupSlots;
    var n := site.Group();
    assert forall i :: 0 <= i < |site.Paths(0)| ==> site.Paths(0)[i] in files by {
      assert forall i :: 0 <= i < |site.Paths(0)| ==> site.Paths(0)[i] in Elements(site.Paths(0));
    }
    assert site.Next(0) == n;
    assert AdoptCount(site, files, 0) == AdoptCount(site, files, n);
    assert site.Paths(n)[0] !in files;
  }

  // THE COUNT CAN GO BACK. On every site of more than two groups there are files
  // and a run after which publishing lowers the count.
  lemma CountCanShrink(site: Site, t: nat) returns (files: set<string>, steps: seq<Action>, end: Pool)
    requires site.Valid() && site.total > 2 * site.Group()
    ensures Reaches(site, Fresh(files), steps, end) && Enabled(site, end, Publish(t))
    ensures Apply(site, end, Publish(t)).precreated < end.precreated
  {
    hide Reaches, Whole, Inv, Opened, Site.Paths, Geometry.GroupSlots;
    var p: Pool;
    files, steps, p := StartOnSecond(site, t);
    var built: Pool;
    steps, built := BuildAll(site, Fresh(files), steps, p, t);
    PublishedIsReady(site, files, steps, built);
    MoreWhole(site, p.files, built.files, 2 * site.Group());
    ReachStep(site, Fresh(files), steps, built, CloseStore);
    var closed := Apply(site, built, CloseStore);
    steps := steps + [CloseStore];
    PublishedIsReady(site, files, steps, closed);
    PublishAfterReopenShrinksIff(site, closed, t, []);
    ReachStep(site, Fresh(files), steps, closed, OpenStore([]));
    steps, end := steps + [OpenStore([])], Apply(site, closed, OpenStore([]));
    SameBuilders(site, closed);
  }

  lemma SameBuilders(site: Site, p: Pool)
    requires site.Valid()
    ensures Opened(site, p, []).builders == p.builders
  {
    hide AdoptSlots, AdoptCount;
  }

  // ---- the runs in which it cannot ----

  // Reopening waits for a running build.
  ghost predicate PatientReaches(site: Site, start: Pool, steps: seq<Action>, end: Pool)
    requires site.Valid()
  {
    if steps == [] then end == start
    else
      var front, last := steps[..|steps| - 1], steps[|steps| - 1];
      exists mid :: PatientReaches(site, start, front, mid) && Enabled(site, mid, last) &&
                    (last.OpenStore? ==> mid.builders == map[]) && end == Apply(site, mid, last)
  }

  lemma {:induction false} PatientKeeps(site: Site, start: Pool, steps: seq<Action>, end: Pool)
    requires site.Valid() && Inv(site, start) && Undisturbed(start) && PatientReaches(site, start, steps, end)
    ensures Inv(site, end) && Undisturbed(end) && start.precreated <= end.precreated
  {
    hide Inv, Enabled, Apply, Undisturbed;
    if steps != [] {
      var front, last := steps[..|steps| - 1], steps[|steps| - 1];
      var mid :| PatientReaches(site, start, front, mid) && Enabled(site, mid, last) &&
                 (last.OpenStore? ==> mid.builders == map[]) && end == Apply(site, mid, last);
      PatientKeeps(site, start, front, mid);
      StepKeeps(site, mid, last);
      UndisturbedGrows(site, mid, last);
    }
  }

  // GROWTH. If reopening waits for running builds, the published count never
  // goes back between two moments, whatever is recovered.
  lemma CountOnlyGrows(site: Site, files: set<string>, steps: seq<Action>, mid: Pool, more: seq<Action>, end: Pool)
    requires site.Valid() && PatientReaches(site, Fresh(files), steps, mid) && PatientReaches(site, mid, more, end)
    ensures mid.precreated <= end.precreated
  {
    hide PatientReaches, Building, Ready, Alloc.Valid;
    assert Inv(site, Fresh(files)) && Undisturbed(Fresh(files)) by {
      NothingReady(site, files);
      NothingBuilt(files);
    }
    hide Inv, Undisturbed;
    PatientKeeps(site, Fresh(files), steps, mid);
    PatientKeeps(site, mid, more, end);
  }
}
