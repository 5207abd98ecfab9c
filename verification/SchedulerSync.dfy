// What a rebuild from durable markers leaves in the scheduler's index: which
// keys are resident, which are still owed a removal, and how old each one is.
module SchedulerSync {
  import opened Common
  import opened SemanticIndex
  import opened IndexRuns
  import opened IndexLaws
  import opened SchedulerMetadata

  // ---- settling the reservations ----

  // The reservations found complete become the youngest keys; no key that was
  // resident moves.
  lemma {:induction false} SettleOrder(s: Sched, order: seq<Key>, full: set<Key>, ranks: nat)
    returns (settled: seq<Key>)
    requires Inv(s, ranks) && Elements(order) <= s.planned
    ensures SettleAll(s, order, full).index.resident == s.index.resident + settled
    ensures forall k :: k in settled <==> k in order && k in full
  {
    hide Drop, Distinct, Elements, Confirm;
    if order == [] {
      settled := [];
    } else {
      var n := |order| - 1;
      var front, k := order[..n], order[n];
      assert order == front + [k];
      ElementsAppend(front, k);
      Known(order, k);
      var before := SettleOrder(s, front, full, ranks);
      var r := SettleAll(s, front, full);
      ConfirmSingle(r.index, k, k in full);
      if k in full {
        settled := Drop(before, {k}) + [k];
        DropAppend(s.index.resident, before, {k});
        DropNothing(s.index.resident, {k});
        assert s.index.resident + Drop(before, {k}) + [k] == s.index.resident + settled;
      } else {
        settled := before;
      }
    }
  }

  // ---- the whole rebuild ----

  // Resident keys that have left the media and are not pinned.
  function Leaving(s: Sched, vanished: seq<Key>): set<Key> { Elements(vanished) - Pinned(s.index) }

  function Kept(s: Sched, vanished: seq<Key>): seq<Key> { Drop(s.index.resident, Leaving(s, vanished)) }

  // The surviving residents in their old order, then the reservations that
  // turned out complete, then the rest of what is complete, in scan order.
  ghost predicate AgedBySync(s: Sched, full: seq<Key>, vanished: seq<Key>, settled: seq<Key>, resident: seq<Key>) {
    && (forall k :: k in settled <==> k in s.planned && k in full && k !in Leaving(s, vanished))
    && resident ==
       Kept(s, vanished) + settled + Drop(Dedup(full), Elements(Kept(s, vanished) + settled))
  }

  // The order in which a rebuild leaves the residents.
  lemma SyncOrder(s: Sched, full: seq<Key>, order: seq<Key>, vanished: seq<Key>, ranks: nat)
    returns (settled: seq<Key>)
    requires Inv(s, ranks) && Elements(order) == s.planned
    ensures AgedBySync(s, full, vanished, settled, Sync(s, full, order, vanished).index.resident)
  {
    hide Drop, Dedup, Inv, SettleAll, Restore;
    var complete := Elements(full);
    var s1 := SettleAll(s, order, complete);
    var all := SettleOrder(s, order, complete, ranks);
    SettleKeeps(s, order, complete, ranks);
    var gone := Leaving(s, vanished);
    settled := Drop(all, gone);
    DropAppend(s.index.resident, all, gone);
    assert Forget(s1.index, vanished).resident == Kept(s, vanished) + settled;
    RestoreOrder(Forget(s1.index, vanished), full);
  }

  // A REBUILD TELLS THE TRUTH. Afterwards a key is resident exactly when all
  // its layers are on media, or it was resident and has not vanished, or a pin
  // holds it; the vanished keys a pin holds, and only those, are owed to the
  // next rebuild; and the survivors keep their relative age.
  lemma SyncEffect(s: Sched, full: seq<Key>, order: seq<Key>, vanished: seq<Key>, ranks: nat)
    requires Inv(s, ranks) && Elements(order) == s.planned
    ensures var s' := Sync(s, full, order, vanished);
            && (forall k :: k in s'.index.resident <==>
                  k in full || (k in s.index.resident && (k !in vanished || k in s.index.pins)))
            && (forall k :: k in s'.pendingForget <==> k in vanished && k in s.index.pins)
            && s'.synced == Elements(full) && s'.index.pins == s.index.pins
            && Kept(s, vanished) <= s'.index.resident
  {
    hide Drop, Dedup, SettleAll, Restore, Distinct;
    var settled := SyncOrder(s, full, order, vanished, ranks);
    SettleKeeps(s, order, Elements(full), ranks);
    SyncPins(s, full, order, vanished, ranks);
    var s' := Sync(s, full, order, vanished);
    forall k
      ensures k in s'.index.resident <==>
              k in full || (k in s.index.resident && (k !in vanished || k in s.index.pins))
    {
      assert k in Kept(s, vanished) <==> k in s.index.resident && (k !in vanished || k in s.index.pins);
    }
  }

  lemma SyncPins(s: Sched, full: seq<Key>, order: seq<Key>, vanished: seq<Key>, ranks: nat)
    requires Inv(s, ranks) && Elements(order) == s.planned
    ensures Sync(s, full, order, vanished).index.pins == s.index.pins
  {
    hide SettleAll, Restore, Idx.Valid, Drop;
    SettleKeeps(s, order, Elements(full), ranks);
    var s1 := SettleAll(s, order, Elements(full));
    ForgetKeeps(s1.index, vanished);
    RestoreKeeps(Forget(s1.index, vanished), full);
  }

  // What a run of the scheduler sees of it: a key complete at the previous
  // rebuild and gone at this one is no longer resident, nor is one owed from
  // before, unless a pin still holds it.
  lemma SyncForgets(capacity: nat, acts: seq<Act>, ranks: nat, full: seq<Key>, order: seq<Key>, vanished: seq<Key>,
                    k: Key)
    requires AllAllowed(Fresh(capacity), acts, ranks)
    requires Allowed(SchedulerMetadata.Run(Fresh(capacity), acts, ranks), SyncAct(full, order, vanished))
    ensures var s := SchedulerMetadata.Run(Fresh(capacity), acts, ranks);
            var s' := Sync(s, full, order, vanished);
            && ((k in s.synced || k in s.pendingForget) && k !in full && k !in s.index.pins ==>
                  k !in s'.index.resident && k !in s'.pendingForget)
            && (k in full ==> k in s'.index.resident && k in s'.synced)
            && (k in s.index.pins ==> k in s'.index.resident)
            && (k in s.index.resident && k !in s.synced && k !in s.pendingForget ==> k in s'.index.resident)
  {
    hide AllAllowed, SchedulerMetadata.Run, Sync;
    PlannedIsPending(capacity, acts, ranks);
    var s := SchedulerMetadata.Run(Fresh(capacity), acts, ranks);
    SyncEffect(s, full, order, vanished, ranks);
    Known(vanished, k);
    Known(full, k);
  }

  // ---- failures ----

  // A failure report frees the reservation of each key it names, and no other.
  lemma {:induction false} FailFrees(s: Sched, failed: seq<Key>, ranks: nat)
    requires Inv(s, ranks)
    ensures FailAll(s, failed).planned == s.planned - Elements(failed)
    ensures FailAll(s, failed).index.resident == s.index.resident && FailAll(s, failed).index.pins == s.index.pins
  {
    hide Drop, Touch, Idx.Valid, Confirm;
    if failed == [] {
      assert Elements(failed) == {};
    } else {
      var n := |failed| - 1;
      FailFrees(s, failed[..n], ranks);
      FailKeeps(s, failed[..n], ranks);
      assert failed == failed[..n] + [failed[n]];
      ElementsAppend(failed[..n], failed[n]);
      ConfirmSingle(FailAll(s, failed[..n]).index, failed[n], false);
      assert Elements([failed[n]]) == {failed[n]};
    }
  }

  // ---- reservations nobody settles ----

  ghost function Steps(s: Sched, maxAge: nat, n: nat): Sched {
    if n == 0 then s else BeginStep(Steps(s, maxAge, n - 1), maxAge)
  }

  // A reservation made in this step is given back by exactly the maxAge-th
  // step after it, together with the ranks counted for its key; without an
  // age limit it never is.
  lemma {:induction false} GivenBackAfter(s: Sched, maxAge: nat, n: nat, ranks: nat, k: Key)
    requires Inv(s, ranks) && k in s.planned && s.index.pending[k] == s.index.epoch
    ensures var s' := Steps(s, maxAge, n);
            && Inv(s', ranks) && s'.index.epoch == s.index.epoch + n
            && (k in s'.planned <==> maxAge == 0 || n < maxAge)
            && (k in s'.planned ==> s'.index.pending[k] == s.index.epoch && Count(s'.counts, k) == Count(s.counts, k))
            && (k !in s'.planned ==> k !in s'.counts)
  {
    hide Idx.Valid;
    if n > 0 {
      GivenBackAfter(s, maxAge, n - 1, ranks, k);
      BeginKeeps(Steps(s, maxAge, n - 1), maxAge, ranks);
    }
  }
}
