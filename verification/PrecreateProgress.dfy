// Precreation gets there: undisturbed, every step publishes one more group, and
// the steps reach the headroom asked for.
module PrecreateProgress {
  import opened SpaceAllocator
  import opened Precreate
  import opened PrecreateRuns

  // Nothing is being built and the store is open.
  ghost predicate Resting(p: Pool) { p.isOpen && p.builders == map[] }

  // One undisturbed step below its target publishes exactly the next group.
  lemma StepPublishesOneGroup(site: Site, start: Pool, steps: seq<Action>, p: Pool, t: nat, headroom: nat)
    returns (more: seq<Action>, end: Pool)
    requires site.Valid() && Reaches(site, start, steps, p) && Inv(site, p) && Resting(p)
    requires p.alloc.highWater <= site.total && p.precreated < Target(site, p.alloc.highWater, headroom)
    ensures Reaches(site, start, more, end) && Inv(site, end) && Resting(end)
    ensures end.precreated == site.Next(p.precreated) > p.precreated
    ensures end.alloc == p.alloc.(readyLimit := end.precreated)
  {
    hide Reaches, Inv, Target, Apply, Enabled, Site.Next;
    var begin, publish := Begin(t, headroom), Publish(t);
    BeginStarts(site, p, t, headroom);
    ReachStep(site, start, steps, p, begin);
    StepKeeps(site, p, begin);
    var p1 := Apply(site, p, begin);
    var steps2, p2 := BuildAll(site, start, steps + [begin], p1, t);
    ReachStep(site, start, steps2, p2, publish);
    StepKeeps(site, p2, publish);
    more, end := steps2 + [publish], Apply(site, p2, publish);
    PublishEnds(site, p, p2, t);
  }

  lemma BeginStarts(site: Site, p: Pool, t: nat, headroom: nat)
    requires site.Valid() && Inv(site, p) && Resting(p)
    requires p.alloc.highWater <= site.total && p.precreated < Target(site, p.alloc.highWater, headroom)
    ensures Enabled(site, p, Begin(t, headroom))
    ensures var p' := Apply(site, p, Begin(t, headroom));
            var b := Build(p.precreated, site.Next(p.precreated), site.Paths(p.precreated), 0);
            && p'.precreated == p.precreated && p'.isOpen && p'.alloc == p.alloc && p'.builders == map[t := b]
            && p.precreated < site.Next(p.precreated)
  {
    hide Target, Site.Paths, Alloc.Valid, Ready;
    NextAligned(site, p.precreated);
  }

  lemma PublishEnds(site: Site, p: Pool, p': Pool, t: nat)
    requires site.Valid() && Enabled(site, p', Publish(t)) && p'.isOpen && p'.alloc == p.alloc
    requires p'.builders.Keys == {t} && p'.builders[t].end == site.Next(p.precreated)
    ensures var end := Apply(site, p', Publish(t));
            && Resting(end) && end.precreated == site.Next(p.precreated)
            && end.alloc == p.alloc.(readyLimit := end.precreated)
  {
  }

  // HEADROOM. From any state with an open store and nothing being built there
  // are steps after which every slot up to the frontier plus the headroom (or
  // every slot there is) has its file and may be handed out.
  lemma {:induction false} HeadroomIsReached(site: Site, start: Pool, steps: seq<Action>, p: Pool, t: nat,
                                             headroom: nat)
    returns (more: seq<Action>, end: Pool)
    requires site.Valid() && Reaches(site, start, steps, p) && Inv(site, p) && Resting(p)
    requires p.alloc.highWater <= site.total
    ensures Reaches(site, start, more, end) && Inv(site, end) && Resting(end)
    ensures Min(site.total, p.alloc.highWater + headroom) <= end.precreated == end.alloc.readyLimit
    ensures Ready(site, end.files, end.precreated) && end.alloc == p.alloc.(readyLimit := end.precreated)
    decreases site.total - p.precreated
  {
    hide Reaches, Site.Paths, Alloc.Valid, Building;
    if p.precreated >= Target(site, p.alloc.highWater, headroom) {
      more, end := steps, p;
    } else {
      var steps1, p1 := StepPublishesOneGroup(site, start, steps, p, t, headroom);
      more, end := HeadroomIsReached(site, start, steps1, p1, t, headroom);
    }
  }
}
