// The scheduler's owner of the semantic index: it publishes a key only once
// every rank has reported it.
module SchedulerMetadata {
  import opened Common
  import opened SemanticIndex
  import opened IndexRuns

  datatype Sched = Sched(
    index: Idx, planned: set<Key>, counts: map<Key, nat>, synced: set<Key>, pendingForget: set<Key>)

  // One worker report: how many ranks stored the key this step.
  datatype Report = Report(key: Key, count: nat)

  // ---- the entry points ----

  function PlanKeys(s: Sched, keys: seq<Key>): Sched {
    if Refuses(s.index, keys) then s
    else s.(index := Planned(s.index, keys), planned := s.planned + Elements(NewKeys(s.index, keys)))
  }

  function ConfirmKeys(s: Sched, keys: seq<Key>, ok: bool): Sched {
    s.(index := Confirm(s.index, keys, ok), planned := s.planned - Elements(keys))
  }

  function NextEpoch(i: Idx): Idx { i.(epoch := i.epoch + 1) }

  // A new step: reservations nobody settled are given back.
  function BeginStep(s: Sched, maxAge: nat): Sched {
    var gone := Stale(NextEpoch(s.index), maxAge);
    s.(index := ReclaimStale(NextEpoch(s.index), maxAge), planned := s.planned - gone, counts := s.counts - gone)
  }

  // Reservations are left alone: only residency and counts are forgotten.
  function ForgetKeys(s: Sched, keys: seq<Key>): Sched {
    s.(index := Forget(s.index, keys), counts := s.counts - Elements(keys))
  }

  function FailOne(s: Sched, k: Key): Sched {
    var s' := s.(counts := s.counts - {k});
    if k in s.planned then ConfirmKeys(s', [k], false) else s'
  }

  function FailAll(s: Sched, failed: seq<Key>): Sched {
    if failed == [] then s else FailOne(FailAll(s, failed[..|failed| - 1]), failed[|failed| - 1])
  }

  datatype Totals = Totals(counts: map<Key, nat>, ready: seq<Key>)

  function Count(counts: map<Key, nat>, k: Key): nat { if k in counts then counts[k] else 0 }

  function AddOne(t: Totals, r: Report, failed: seq<Key>, ranks: nat): Totals {
    if r.key in failed then t
    else
      var total := Count(t.counts, r.key) + r.count;
      if total >= ranks then Totals(t.counts - {r.key}, t.ready + [r.key]) else t.(counts := t.counts[r.key := total])
  }

  function AddAll(counts: map<Key, nat>, committed: seq<Report>, failed: seq<Key>, ranks: nat): Totals {
    if committed == [] then Totals(counts, [])
    else AddOne(AddAll(counts, committed[..|committed| - 1], failed, ranks), committed[|committed| - 1], failed, ranks)
  }

  // Forget first, then failures, then counts; whatever reached the rank count
  // is published at the end.
  function ApplyCommits(s: Sched, committed: seq<Report>, failed: seq<Key>, forgotten: seq<Key>, ranks: nat): Sched {
    var s1 := FailAll(ForgetKeys(s, forgotten), failed);
    var t := AddAll(s1.counts, committed, failed, ranks);
    var s2 := s1.(counts := t.counts);
    if t.ready == [] then s2 else ConfirmKeys(s2, t.ready, true)
  }

  // Settle every reservation by what is on media.
  function SettleAll(s: Sched, order: seq<Key>, full: set<Key>): Sched {
    if order == [] then s
    else ConfirmKeys(SettleAll(s, order[..|order| - 1], full), [order[|order| - 1]], order[|order| - 1] in full)
  }

  // Rebuild from durable markers: settle, drop what has disappeared (pinned
  // keys are kept for the next time), and load what is complete.
  function Sync(s: Sched, full: seq<Key>, order: seq<Key>, vanished: seq<Key>): Sched {
    var s1 := SettleAll(s, order, Elements(full));
    s1.(index := Restore(Forget(s1.index, vanished), full), synced := Elements(full),
        pendingForget := Elements(vanished) * Pinned(s1.index))
  }

  // ---- what every step keeps ----

  ghost predicate Inv(s: Sched, ranks: nat) {
    && s.index.Valid() && s.planned == s.index.pending.Keys
    && forall k :: k in s.counts ==> s.counts[k] < ranks
  }

  lemma ConfirmKeysKeeps(s: Sched, keys: seq<Key>, ok: bool, ranks: nat)
    requires Inv(s, ranks)
    ensures Inv(ConfirmKeys(s, keys, ok), ranks)
    ensures forall x :: x in ConfirmKeys(s, keys, ok).index.resident <==> x in s.index.resident || (ok && x in keys)
  {
    hide Idx.Valid, Confirm;
    ConfirmKeeps(s.index, keys, ok);
  }

  lemma PlanKeeps(s: Sched, keys: seq<Key>, ranks: nat)
    requires Inv(s, ranks)
    ensures Inv(PlanKeys(s, keys), ranks)
  {
    hide Refuses, NewKeys, Evictions, Drop;
    if !Refuses(s.index, keys) {
      PlanFits(s.index, keys);
    }
  }

  lemma BeginKeeps(s: Sched, maxAge: nat, ranks: nat)
    requires Inv(s, ranks)
    ensures Inv(BeginStep(s, maxAge), ranks)
  {
    ReclaimKeeps(NextEpoch(s.index), maxAge);
  }

  lemma ForgetKeysKeeps(s: Sched, keys: seq<Key>, ranks: nat)
    requires Inv(s, ranks)
    ensures Inv(ForgetKeys(s, keys), ranks)
    ensures forall x :: x in ForgetKeys(s, keys).index.resident <==>
              x in s.index.resident && (x !in keys || x in s.index.pins)
  {
    hide Idx.Valid;
    ForgetKeeps(s.index, keys);
  }

  lemma {:induction false} FailKeeps(s: Sched, failed: seq<Key>, ranks: nat)
    requires Inv(s, ranks)
    ensures Inv(FailAll(s, failed), ranks) && FailAll(s, failed).counts == s.counts - Elements(failed)
    ensures forall x :: x in FailAll(s, failed).index.resident <==> x in s.index.resident
  {
    hide ConfirmKeys;
    if failed != [] {
      var n := |failed| - 1;
      FailKeeps(s, failed[..n], ranks);
      var r, k := FailAll(s, failed[..n]), failed[n];
      assert failed == failed[..n] + [k];
      ElementsAppend(failed[..n], k);
      ConfirmKeysKeeps(r.(counts := r.counts - {k}), [k], false, ranks);
      ConfirmCounts(r.(counts := r.counts - {k}), [k], false);
      assert s.counts - Elements(failed) == s.counts - Elements(failed[..n]) - {k};
    } else {
      assert Elements(failed) == {};
    }
  }

  lemma ConfirmCounts(s: Sched, keys: seq<Key>, ok: bool)
    ensures ConfirmKeys(s, keys, ok).counts == s.counts
  {
  }

  ghost predicate DistinctKeys(committed: seq<Report>) {
    forall i, j :: 0 <= i < j < |committed| ==> committed[i].key != committed[j].key
  }

  function ReportOf(committed: seq<Report>, k: Key): (r: Option<nat>)
    ensures r.None? <==> forall i :: 0 <= i < |committed| ==> committed[i].key != k
  {
    if committed == [] then None
    else
      var n := |committed| - 1;
      assert forall i :: 0 <= i < n ==> committed[i] == committed[..n][i];
      if committed[n].key == k then Some(committed[n].count) else ReportOf(committed[..n], k)
  }

  // What one key gets out of a list of reports: published when its total
  // reaches the rank count, otherwise the total is kept.
  ghost predicate KeyAdded(counts: map<Key, nat>, report: Option<nat>, failed: bool, ranks: nat, t: Totals, k: Key) {
    if report.None? || failed then k !in t.ready && Count(t.counts, k) == Count(counts, k)
    else
      var total := Count(counts, k) + report.value;
      (k in t.ready <==> total >= ranks) && Count(t.counts, k) == if total >= ranks then 0 else total
  }

  lemma {:induction false} AddAllAdds(counts: map<Key, nat>, committed: seq<Report>, failed: seq<Key>, ranks: nat,
                                      k: Key)
    requires DistinctKeys(committed)
    ensures KeyAdded(counts, ReportOf(committed, k), k in failed, ranks, AddAll(counts, committed, failed, ranks), k)
  {
    if committed != [] {
      var n := |committed| - 1;
      assert forall i :: 0 <= i < n ==> committed[..n][i] == committed[i];
      AddAllAdds(counts, committed[..n], failed, ranks, k);
    }
  }

  lemma {:induction false} AddAllBound(counts: map<Key, nat>, committed: seq<Report>, failed: seq<Key>, ranks: nat)
    requires forall k :: k in counts ==> counts[k] < ranks
    ensures forall k :: k in AddAll(counts, committed, failed, ranks).counts ==>
              AddAll(counts, committed, failed, ranks).counts[k] < ranks
  {
    if committed != [] {
      AddAllBound(counts, committed[..|committed| - 1], failed, ranks);
    }
  }

  lemma CommitsKeep(s: Sched, committed: seq<Report>, failed: seq<Key>, forgotten: seq<Key>, ranks: nat)
    requires Inv(s, ranks)
    ensures Inv(ApplyCommits(s, committed, failed, forgotten, ranks), ranks)
  {
    hide ConfirmKeys, FailAll, ForgetKeys, AddAll, Idx.Valid;
    ForgetKeysKeeps(s, forgotten, ranks);
    FailKeeps(ForgetKeys(s, forgotten), failed, ranks);
    var s1 := FailAll(ForgetKeys(s, forgotten), failed);
    AddAllBound(s1.counts, committed, failed, ranks);
    var t := AddAll(s1.counts, committed, failed, ranks);
    ConfirmKeysKeeps(s1.(counts := t.counts), t.ready, true, ranks);
  }

  lemma {:induction false} SettleKeeps(s: Sched, order: seq<Key>, full: set<Key>, ranks: nat)
    requires Inv(s, ranks)
    ensures Inv(SettleAll(s, order, full), ranks) && SettleAll(s, order, full).planned == s.planned - Elements(order)
    ensures SettleAll(s, order, full).counts == s.counts && SettleAll(s, order, full).index.pins == s.index.pins
  {
    hide Inv, ConfirmKeys, Elements;
    if order == [] {
      assert Elements(order) == {} by {
        NoElements();
      }
    } else {
      var n := |order| - 1;
      SettleKeeps(s, order[..n], full, ranks);
      var r, k := SettleAll(s, order[..n], full), order[n];
      ConfirmKeysKeeps(r, [k], k in full, ranks);
      ConfirmShape(r, k, k in full, ranks);
      assert order == order[..n] + [k];
      ElementsAppend(order[..n], k);
    }
  }

  lemma NoElements()
    ensures Elements<Key>([]) == {}
  {
  }

  lemma ConfirmShape(s: Sched, k: Key, ok: bool, ranks: nat)
    requires Inv(s, ranks)
    ensures var r := ConfirmKeys(s, [k], ok);
            r.planned == s.planned - {k} && r.counts == s.counts && r.index.pins == s.index.pins
  {
    hide Confirm, Idx.Valid;
    ConfirmKeeps(s.index, [k], ok);
  }

  // Every reservation is settled, so nothing is left pending.
  lemma SyncKeeps(s: Sched, full: seq<Key>, order: seq<Key>, vanished: seq<Key>, ranks: nat)
    requires Inv(s, ranks) && Elements(order) == s.planned
    ensures var s' := Sync(s, full, order, vanished);
            Inv(s', ranks) && s'.planned == {} && s'.index.pending == map[] && s'.counts == s.counts
  {
    hide Idx.Valid, SettleAll, Forget, Restore;
    SettleKeeps(s, order, Elements(full), ranks);
    var s1 := SettleAll(s, order, Elements(full));
    ForgetKeeps(s1.index, vanished);
    ForgetPending(s1.index, vanished);
    RestoreKeeps(Forget(s1.index, vanished), full);
    assert s1.index.pending.Keys == {};
  }

  lemma ForgetPending(i: Idx, keys: seq<Key>)
    ensures Forget(i, keys).pending == i.pending
  {
  }

  // ---- every run ----

  datatype Act =
    | PlanAct(keys: seq<Key>)
    | ConfirmAct(keys: seq<Key>, ok: bool)
    | BeginAct(maxAge: nat)
    | ForgetAct(keys: seq<Key>)
    | CommitsAct(committed: seq<Report>, failed: seq<Key>, forgotten: seq<Key>)
    | LookupAct(chain: seq<Key>)
    | SyncAct(full: seq<Key>, order: seq<Key>, vanished: seq<Key>)

  ghost predicate Allowed(s: Sched, a: Act) {
    match a
    case CommitsAct(committed, _, _) => DistinctKeys(committed)
    case SyncAct(full, order, vanished) =>
      Elements(order) == s.planned && Elements(vanished) == (s.synced - Elements(full)) + s.pendingForget
    case _ => true
  }

  ghost function Apply(s: Sched, a: Act, ranks: nat): Sched {
    match a
    case PlanAct(keys) => PlanKeys(s, keys)
    case ConfirmAct(keys, ok) => ConfirmKeys(s, keys, ok)
    case BeginAct(maxAge) => BeginStep(s, maxAge)
    case ForgetAct(keys) => ForgetKeys(s, keys)
    case CommitsAct(committed, failed, forgotten) => ApplyCommits(s, committed, failed, forgotten, ranks)
    case LookupAct(chain) => s.(index := Lookup(s.index, chain))
    case SyncAct(full, order, vanished) => Sync(s, full, order, vanished)
  }

  ghost function Run(s: Sched, acts: seq<Act>, ranks: nat): Sched {
    if acts == [] then s else Apply(Run(s, acts[..|acts| - 1], ranks), acts[|acts| - 1], ranks)
  }

  ghost predicate AllAllowed(s: Sched, acts: seq<Act>, ranks: nat) {
    forall n :: 0 <= n < |acts| ==> Allowed(Run(s, acts[..n], ranks), acts[n])
  }

  lemma ActKeeps(s: Sched, a: Act, ranks: nat)
    requires Inv(s, ranks) && Allowed(s, a)
    ensures Inv(Apply(s, a, ranks), ranks)
  {
    hide Inv, PlanKeys, ConfirmKeys, BeginStep, ForgetKeys, ApplyCommits, Sync, Lookup;
    match a {
      case PlanAct(keys) => PlanKeeps(s, keys, ranks);
      case ConfirmAct(keys, ok) => ConfirmKeysKeeps(s, keys, ok, ranks);
      case BeginAct(maxAge) => BeginKeeps(s, maxAge, ranks);
      case ForgetAct(keys) => ForgetKeysKeeps(s, keys, ranks);
      case CommitsAct(committed, failed, forgotten) => CommitsKeep(s, committed, failed, forgotten, ranks);
      case LookupAct(chain) => LookupKeeps(s, chain, ranks);
      case SyncAct(full, order, vanished) => SyncKeeps(s, full, order, vanished, ranks);
    }
  }

  lemma LookupKeeps(s: Sched, chain: seq<Key>, ranks: nat)
    requires Inv(s, ranks)
    ensures Inv(s.(index := Lookup(s.index, chain)), ranks)
  {
    hide Refresh;
    RecentKeeps(s.index, chain[..Hits(Elements(s.index.resident), chain)]);
  }

  function Fresh(capacity: nat): Sched { Sched(Empty(capacity), {}, map[], {}, {}) }

  // PUBLICATION BOOKKEEPING. In every run the planned keys are the pending
  // ones, and no stored count reaches the number of ranks.
  lemma {:induction false} PlannedIsPending(capacity: nat, acts: seq<Act>, ranks: nat)
    requires AllAllowed(Fresh(capacity), acts, ranks)
    ensures Inv(Run(Fresh(capacity), acts, ranks), ranks)
  {
    hide Apply, Allowed;
    if acts != [] {
      hide Inv;
      var n := |acts| - 1;
      AllowedFront(Fresh(capacity), acts, ranks);
      PlannedIsPending(capacity, acts[..n], ranks);
      assert Allowed(Run(Fresh(capacity), acts[..n], ranks), acts[n]);
      ActKeeps(Run(Fresh(capacity), acts[..n], ranks), acts[n], ranks);
    }
  }

  lemma AllowedFront(s: Sched, acts: seq<Act>, ranks: nat)
    requires acts != [] && AllAllowed(s, acts, ranks)
    ensures AllAllowed(s, acts[..|acts| - 1], ranks)
  {
    hide Allowed;
    var front := acts[..|acts| - 1];
    forall m | 0 <= m < |front|
      ensures Allowed(Run(s, front[..m], ranks), front[m])
    {
      assert front[..m] == acts[..m] && front[m] == acts[m];
    }
  }

  // ---- what the count of a key means ----

  // Reports for k since its last failure, forgetting, reclaim or publication.
  ghost function Tally(s: Sched, acts: seq<Act>, ranks: nat, k: Key): nat {
    if acts == [] then 0
    else
      var n := |acts| - 1;
      var before := Tally(s, acts[..n], ranks, k);
      match acts[n]
      case ForgetAct(keys) => if k in keys then 0 else before
      case BeginAct(maxAge) => if k in Stale(NextEpoch(Run(s, acts[..n], ranks).index), maxAge) then 0 else before
      case CommitsAct(committed, failed, forgotten) =>
        var total := Total(before, committed, failed, forgotten, k);
        if Publishes(before, committed, failed, forgotten, ranks, k) then 0 else total
      case _ => before
  }

  ghost function Total(before: nat, committed: seq<Report>, failed: seq<Key>, forgotten: seq<Key>, k: Key): nat {
    (if k in forgotten || k in failed then 0 else before) +
    (if ReportOf(committed, k).Some? && k !in failed then ReportOf(committed, k).value else 0)
  }

  ghost predicate Publishes(before: nat, committed: seq<Report>, failed: seq<Key>, forgotten: seq<Key>, ranks: nat,
                            k: Key) {
    ReportOf(committed, k).Some? && k !in failed && Total(before, committed, failed, forgotten, k) >= ranks
  }

  // Resident before, and not forgotten unless a pin keeps it.
  ghost predicate Survives(s: Sched, forgotten: seq<Key>, k: Key) {
    k in s.index.resident && (k !in forgotten || k in s.index.pins)
  }

  lemma CommitsCount(s: Sched, committed: seq<Report>, failed: seq<Key>, forgotten: seq<Key>, ranks: nat, k: Key)
    requires Inv(s, ranks) && DistinctKeys(committed)
    ensures var before, s' := Count(s.counts, k), ApplyCommits(s, committed, failed, forgotten, ranks);
            && Count(s'.counts, k) == (if Publishes(before, committed, failed, forgotten, ranks, k) then 0
                                       else Total(before, committed, failed, forgotten, k))
            && (k in s'.index.resident <==>
                  Publishes(before, committed, failed, forgotten, ranks, k) || Survives(s, forgotten, k))
  {
    hide ConfirmKeys, FailAll, AddAll, ReportOf, Idx.Valid, Forget;
    ForgetKeysKeeps(s, forgotten, ranks);
    var s0 := ForgetKeys(s, forgotten);
    FailKeeps(s0, failed, ranks);
    var s1 := FailAll(s0, failed);
    AddAllAdds(s1.counts, committed, failed, ranks, k);
    AddAllBound(s1.counts, committed, failed, ranks);
    var t := AddAll(s1.counts, committed, failed, ranks);
    ConfirmKeysKeeps(s1.(counts := t.counts), t.ready, true, ranks);
    ConfirmCounts(s1.(counts := t.counts), t.ready, true);
  }

  // In every run the stored count of a key is that tally.
  lemma {:induction false} CountIsTally(capacity: nat, acts: seq<Act>, ranks: nat, k: Key)
    requires AllAllowed(Fresh(capacity), acts, ranks)
    ensures Count(Run(Fresh(capacity), acts, ranks).counts, k) == Tally(Fresh(capacity), acts, ranks, k)
  {
    hide AllAllowed, ApplyCommits, Publishes, Total, Sync, PlanKeys;
    if acts != [] {
      var n := |acts| - 1;
      var s := Run(Fresh(capacity), acts[..n], ranks);
      AllowedFront(Fresh(capacity), acts, ranks);
      CountIsTally(capacity, acts[..n], ranks, k);
      PlannedIsPending(capacity, acts[..n], ranks);
      LastAllowed(Fresh(capacity), acts, ranks);
      match acts[n] {
        case CommitsAct(committed, failed, forgotten) => CommitsCount(s, committed, failed, forgotten, ranks, k);
        case SyncAct(full, order, vanished) => SyncKeeps(s, full, order, vanished, ranks);
        case PlanAct(keys) => PlanCounts(s, keys);
        case _ =>
      }
    }
  }

  lemma PlanCounts(s: Sched, keys: seq<Key>)
    ensures PlanKeys(s, keys).counts == s.counts
  {
  }

  lemma LastAllowed(s: Sched, acts: seq<Act>, ranks: nat)
    requires acts != [] && AllAllowed(s, acts, ranks)
    ensures Allowed(Run(s, acts[..|acts| - 1], ranks), acts[|acts| - 1])
  {
    hide Allowed;
  }

  // PUBLICATION. After a worker report a key is resident exactly when the ranks
  // reported since its last failure, forgetting, reclaim or publication, with
  // this report, reach the number of ranks, or when it was resident and the
  // report does not make it forgotten.
  lemma PublishedExactlyWhen(capacity: nat, acts: seq<Act>, committed: seq<Report>, failed: seq<Key>,
                             forgotten: seq<Key>,
                             ranks: nat, k: Key)
    requires AllAllowed(Fresh(capacity), acts, ranks) && DistinctKeys(committed)
    ensures var s := Run(Fresh(capacity), acts, ranks);
            k in ApplyCommits(s, committed, failed, forgotten, ranks).index.resident <==>
              || Publishes(Tally(Fresh(capacity), acts, ranks, k), committed, failed, forgotten, ranks, k)
              || Survives(s, forgotten, k)
  {
    hide AllAllowed, ApplyCommits, Publishes, Survives, Tally, Run;
    PlannedIsPending(capacity, acts, ranks);
    CountIsTally(capacity, acts, ranks, k);
    CommitsCount(Run(Fresh(capacity), acts, ranks), committed, failed, forgotten, ranks, k);
  }
}
