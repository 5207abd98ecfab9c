// The scheduler-side object: sets and counters updated by loops over reports,
// on top of the index object.
module SchedulerObject {
  import opened Common
  import opened ChunkKeys
  import opened SemanticIndex
  import opened IndexObject
  import opened SchedulerMetadata

  class SchedulerMetadataIndex {
    const index: ChunkIndex
    var planned: set<Key>
    var counts: map<Key, nat>
    var synced: set<Key>
    var pendingForget: set<Key>

    function View(): Sched
      reads this, index
    {
      Sched(index.View(), planned, counts, synced, pendingForget)
    }

    // Construction rebuilds the index once from what is on media.
    constructor (hash: Hash, capacity: nat, step: nat, namespace: Key, full: seq<Key>)
      requires capacity > 0 && step > 0
      ensures fresh(index) && View() == Sync(Fresh(capacity), full, [], [])
    {
      index := new ChunkIndex(hash, capacity, step, namespace);
      planned, counts, synced, pendingForget := {}, map[], {}, {};
      new;
      hide Sync, SettleAll;
      ghost var order, vanished := SyncFromStore(full);
      OnlyEmpty(order);
      OnlyEmpty(vanished);
    }

    method PlanStore(keys: seq<Key>) returns (plan: Option<Plan>)
      modifies this`planned, index
      ensures View() == PlanKeys(old(View()), keys) && (plan.None? <==> Refuses(old(index.View()), keys))
    {
      hide Refuses, Planned, NewKeys, Evictions;
      plan := index.PlanStore(keys);
      if plan.Some? {
        planned := planned + Elements(plan.value.newKeys);
      }
    }

    method ConfirmStore(keys: seq<Key>, ok: bool)
      modifies this`planned, index
      ensures View() == ConfirmKeys(old(View()), keys, ok)
    {
      hide Confirm;
      index.ConfirmStore(keys, ok);
      planned := planned - Elements(keys);
    }

    method BeginStep(maxAge: nat) returns (reclaimed: nat)
      modifies this`planned, this`counts, index
      ensures View() == SchedulerMetadata.BeginStep(old(View()), maxAge)
      ensures reclaimed == |Stale(NextEpoch(old(index.View())), maxAge)|
    {
      index.epoch := index.epoch + 1;
      var stale := index.ReclaimStalePending(maxAge);
      counts := counts - stale;
      planned := planned - stale;
      return |stale|;
    }

    method ForgetBatch(keys: seq<Key>)
      modifies this`counts, index
      ensures View() == ForgetKeys(old(View()), keys)
    {
      hide SemanticIndex.Forget;
      for i := 0 to |keys|
        invariant counts == old(counts) - Elements(keys[..i]) && index.View() == old(index.View())
      {
        assert keys[..i + 1] == keys[..i] + [keys[i]];
        counts := counts - {keys[i]};
      }
      assert keys[..|keys|] == keys;
      var kept := index.Forget(keys);
    }

    method FailBatch(failed: seq<Key>)
      modifies this`planned, this`counts, index
      ensures View() == FailAll(old(View()), failed)
    {
      hide ConfirmKeys;
      for i := 0 to |failed|
        invariant View() == FailAll(old(View()), failed[..i])
      {
        assert failed[..i + 1][..i] == failed[..i];
        counts := counts - {failed[i]};
        if failed[i] in planned {
          ConfirmStore([failed[i]], false);
        }
      }
      assert failed[..|failed|] == failed;
    }

    // Forgotten keys, then failures, then the rank counts; what is complete is
    // published in one go.
    method ApplyWorkerCommits(committed: seq<Report>, failed: seq<Key>, ranks: nat, forgotten: seq<Key>)
      modifies this`planned, this`counts, index
      ensures View() == ApplyCommits(old(View()), committed, failed, forgotten, ranks)
    {
      hide ConfirmKeys, ForgetKeys, FailAll;
      ForgetBatch(forgotten);
      FailBatch(failed);
      ghost var s1 := View();
      var ready: seq<Key> := [];
      for i := 0 to |committed|
        invariant View() == s1.(counts := counts)
        invariant Totals(counts, ready) == AddAll(s1.counts, committed[..i], failed, ranks)
      {
        assert committed[..i + 1][..i] == committed[..i];
        var r := committed[i];
        if r.key in failed {
          continue;
        }
        var total := (if r.key in counts then counts[r.key] else 0) + r.count;
        if total >= ranks {
          counts := counts - {r.key};
          ready := ready + [r.key];
        } else {
          counts := counts[r.key := total];
        }
      }
      assert committed[..|committed|] == committed;
      if ready != [] {
        ConfirmStore(ready, true);
      }
    }

    // `full` are the keys whose layer markers are all on media. The order in
    // which reservations are settled is whatever the set yields.
    method SyncFromStore(full: seq<Key>) returns (ghost order: seq<Key>, ghost vanished: seq<Key>)
      modifies this, index
      ensures Elements(order) == old(planned)
      ensures Elements(vanished) == (old(synced) - Elements(full)) + old(pendingForget)
      ensures View() == Sync(old(View()), full, order, vanished)
    {
      hide ConfirmKeys, SemanticIndex.Forget, SemanticIndex.Restore, Confirm;
      var complete := Elements(full);
      order := SettleReservations(complete);
      SettleOthers(old(View()), order, complete);
      var list := ListOf((synced - complete) + pendingForget);
      vanished := list;
      ghost var s1 := View();
      var kept := index.Forget(list);
      pendingForget := Elements(kept);
      ForgetPins(s1.index, list);
      assert Elements(kept) == Elements(list) * Pinned(s1.index);
      index.Restore(full);
      synced := complete;
    }

    method SettleReservations(full: set<Key>) returns (ghost order: seq<Key>)
      modifies this`planned, index
      ensures Elements(order) == old(planned) && View() == SettleAll(old(View()), order, full)
    {
      hide ConfirmKeys;
      order := [];
      var rest := planned;
      while rest != {}
        invariant rest <= old(planned) && Elements(order) == old(planned) - rest
        invariant View() == SettleAll(old(View()), order, full)
        decreases rest
      {
        var k :| k in rest;
        rest := rest - {k};
        assert (order + [k])[..|order|] == order;
        ElementsAppend(order, k);
        ConfirmStore([k], k in full);
        order := order + [k];
      }
    }
  }

  lemma OnlyEmpty(s: seq<Key>)
    ensures Elements(s) == {} ==> s == []
  {
    assert s != [] ==> s[0] in Elements(s);
  }

  method ListOf(keys: set<Key>) returns (list: seq<Key>)
    ensures Elements(list) == keys
  {
    list := [];
    var rest := keys;
    while rest != {}
      invariant rest <= keys && Elements(list) == keys - rest
      decreases rest
    {
      var k :| k in rest;
      rest := rest - {k};
      ElementsAppend(list, k);
      list := list + [k];
    }
  }

  lemma {:induction false} SettleOthers(s: Sched, order: seq<Key>, full: set<Key>)
    ensures SettleAll(s, order, full).synced == s.synced && SettleAll(s, order, full).pendingForget == s.pendingForget
  {
    if order != [] {
      SettleOthers(s, order[..|order| - 1], full);
    }
  }

  lemma ForgetPins(i: Idx, keys: seq<Key>)
    ensures Pinned(SemanticIndex.Forget(i, keys)) == Pinned(i)
  {
  }
}
