// What every sequence of index operations keeps.
module IndexRuns {
  import opened Common
  import opened SemanticIndex

  datatype Op =
    | PlanOp(keys: seq<Key>)
    | ConfirmOp(keys: seq<Key>, ok: bool)
    | PinOp(keys: seq<Key>)
    | UnpinOp(keys: seq<Key>)
    | RecentOp(keys: seq<Key>)
    | LookupOp(keys: seq<Key>)
    | RestoreOp(keys: seq<Key>)
    | ForgetOp(keys: seq<Key>)
    | ReclaimOp(maxAge: nat)
    | EpochOp

  ghost function Apply(i: Idx, op: Op): Idx {
    match op
    case PlanOp(keys) => if Refuses(i, keys) then i else Planned(i, keys)
    case ConfirmOp(keys, ok) => Confirm(i, keys, ok)
    case PinOp(keys) => Pin(i, keys)
    case UnpinOp(keys) => Unpin(i, keys)
    case RecentOp(keys) => MarkRecent(i, keys)
    case LookupOp(keys) => Lookup(i, keys)
    case RestoreOp(keys) => Restore(i, keys)
    case ForgetOp(keys) => Forget(i, keys)
    case ReclaimOp(maxAge) => ReclaimStale(i, maxAge)
    case EpochOp => i.(epoch := i.epoch + 1)
  }

  ghost function Run(i: Idx, ops: seq<Op>): Idx {
    if ops == [] then i else Apply(Run(i, ops[..|ops| - 1]), ops[|ops| - 1])
  }

  // ---- each operation ----

  lemma ConfirmOneKeeps(i: Idx, k: Key, ok: bool)
    requires i.Valid()
    ensures ConfirmOne(i, k, ok).Valid()
    ensures !ok || k in i.pending || k in i.resident ==> ConfirmOne(i, k, ok).Load() <= i.Load()
    ensures forall x :: x in ConfirmOne(i, k, ok).resident <==> x in i.resident || (ok && x == k)
  {
    hide Drop, Distinct, Touch;
    TouchDistinct(i.resident, k);
    TouchMembers(i.resident, k);
    RemoveSize(i.pending, k);
  }

  lemma TouchMembers(s: seq<Key>, k: Key)
    ensures forall x :: x in Touch(s, k) <==> x in s || x == k
  {
    hide Drop;
  }

  lemma RemoveSize(m: map<Key, nat>, k: Key)
    ensures |m - {k}| == |m| - (if k in m then 1 else 0)
  {
    assert (m - {k}).Keys == m.Keys - {k};
    assert |(m - {k}).Keys| == |m - {k}| && |m.Keys| == |m|;
  }

  lemma {:induction false} ConfirmKeeps(i: Idx, keys: seq<Key>, ok: bool)
    requires i.Valid()
    ensures Confirm(i, keys, ok).Valid() && Confirm(i, keys, ok).pins == i.pins &&
            Confirm(i, keys, ok).capacity == i.capacity
    ensures forall x :: x in Confirm(i, keys, ok).resident <==> x in i.resident || (ok && x in keys)
    ensures forall x :: x in Confirm(i, keys, ok).pending <==> x in i.pending && x !in keys
    ensures !ok || (forall k :: k in keys ==> k in i.pending || k in i.resident) ==>
              Confirm(i, keys, ok).Load() <= i.Load()
  {
    hide Idx.Valid, Idx.Load, Touch;
    if keys != [] {
      var n := |keys| - 1;
      assert keys == keys[..n] + [keys[n]];
      ConfirmKeeps(i, keys[..n], ok);
      ConfirmOneKeeps(Confirm(i, keys[..n], ok), keys[n], ok);
    }
  }

  lemma {:induction false} CountUpKeeps(pins: map<Key, nat>, keys: seq<Key>)
    ensures forall k :: k in CountUp(pins, keys) <==> k in pins || k in keys
    ensures forall k :: k in pins ==> CountUp(pins, keys)[k] >= pins[k]
    ensures forall k :: k in keys ==> CountUp(pins, keys)[k] > 0
  {
    if keys != [] {
      var n := |keys| - 1;
      assert keys == keys[..n] + [keys[n]];
      CountUpKeeps(pins, keys[..n]);
    }
  }

  lemma {:induction false} CountDownKeeps(pins: map<Key, nat>, keys: seq<Key>)
    requires forall k :: k in pins ==> pins[k] > 0
    ensures forall k :: k in CountDown(pins, keys).pins ==> k in pins && 0 < CountDown(pins, keys).pins[k] <= pins[k]
    ensures forall k :: k in pins && k !in keys ==>
              k in CountDown(pins, keys).pins && CountDown(pins, keys).pins[k] == pins[k]
  {
    if keys != [] {
      var n := |keys| - 1;
      assert keys == keys[..n] + [keys[n]];
      CountDownKeeps(pins, keys[..n]);
    }
  }

  lemma {:induction false} RestoreKeeps(i: Idx, keys: seq<Key>)
    requires i.Valid()
    ensures Restore(i, keys).Valid() && Restore(i, keys).pins == i.pins && Restore(i, keys).capacity == i.capacity
    ensures forall x :: x in Restore(i, keys).resident <==> x in i.resident || x in keys
    ensures forall x :: x in Restore(i, keys).pending <==> x in i.pending && x !in keys
    ensures i.resident <= Restore(i, keys).resident
  {
    if keys != [] {
      var n := |keys| - 1;
      assert keys == keys[..n] + [keys[n]];
      RestoreKeeps(i, keys[..n]);
      var r, k := Restore(i, keys[..n]), keys[n];
      if k !in r.resident {
        DistinctAppend(r.resident, [k]);
      }
    }
  }

  lemma RecentKeeps(i: Idx, keys: seq<Key>)
    requires i.Valid()
    ensures MarkRecent(i, keys).Valid() && MarkRecent(i, keys).Load() == i.Load()
    ensures forall x :: x in MarkRecent(i, keys).resident <==> x in i.resident
  {
    hide Drop, Refresh;
    RefreshOrder(i.resident, keys);
  }

  lemma ForgetKeeps(i: Idx, keys: seq<Key>)
    requires i.Valid()
    ensures Forget(i, keys).Valid() && Forget(i, keys).Load() <= i.Load()
    ensures forall x :: x in Forget(i, keys).resident <==> x in i.resident && (x !in keys || x in i.pins)
  {
    hide Drop;
    DropDistinct(i.resident, Elements(keys) - Pinned(i));
  }

  lemma ReclaimKeeps(i: Idx, maxAge: nat)
    requires i.Valid()
    ensures ReclaimStale(i, maxAge).Valid() && ReclaimStale(i, maxAge).Load() <= i.Load()
  {
    var r := ReclaimStale(i, maxAge);
    assert r.pending.Keys <= i.pending.Keys;
    SubsetSize(r.pending.Keys, i.pending.Keys);
  }

  // ---- invariants over runs ----

  // The operations that cannot exceed capacity: everything but a restore, or
  // confirming keys that were neither reserved nor resident.
  ghost predicate WithinPlan(i: Idx, op: Op) {
    match op
    case RestoreOp(_) => false
    case ConfirmOp(keys, true) => forall k :: k in keys ==> k in i.pending || k in i.resident
    case _ => true
  }

  lemma ApplyKeeps(i: Idx, op: Op)
    requires i.Valid()
    ensures Apply(i, op).Valid() && Apply(i, op).capacity == i.capacity
    ensures WithinPlan(i, op) && i.Load() <= i.capacity ==> Apply(i, op).Load() <= i.capacity
    ensures forall k :: k in i.pins && !(op.UnpinOp? && k in op.keys) ==>
              k in Apply(i, op).pins && Apply(i, op).pins[k] >= i.pins[k]
  {
    hide Drop, Distinct, Refresh, Touch, Restore, Confirm, Refuses, Evictions, NewKeys, CountUp, CountDown;
    match op {
      case PlanOp(keys) =>
        if !Refuses(i, keys) {
          PlanFits(i, keys);
        }
      case ConfirmOp(keys, ok) => ConfirmKeeps(i, keys, ok);
      case PinOp(keys) => CountUpKeeps(i.pins, keys);
      case UnpinOp(keys) => CountDownKeeps(i.pins, keys);
      case RecentOp(keys) => RecentKeeps(i, keys);
      case LookupOp(keys) => RecentKeeps(i, keys[..Hits(Elements(i.resident), keys)]);
      case RestoreOp(keys) => RestoreKeeps(i, keys);
      case ForgetOp(keys) => ForgetKeeps(i, keys);
      case ReclaimOp(maxAge) => ReclaimKeeps(i, maxAge);
      case EpochOp =>
    }
  }

  function Empty(capacity: nat): Idx { Idx(capacity, [], map[], map[], 0) }

  // In every run: resident keys are distinct and disjoint from pending ones,
  // and every pinned key is resident.
  lemma {:induction false} RunsAreValid(i: Idx, ops: seq<Op>)
    requires i.Valid()
    ensures Run(i, ops).Valid() && Run(i, ops).capacity == i.capacity
  {
    hide Apply, Idx.Valid;
    if ops != [] {
      RunsAreValid(i, ops[..|ops| - 1]);
      ApplyKeeps(Run(i, ops[..|ops| - 1]), ops[|ops| - 1]);
    }
  }

  // A pinned key stays resident through every run that does not unpin it:
  // evictions, failed confirmations, forgetting and reclaiming included.
  lemma {:induction false} PinnedStaysResident(i: Idx, ops: seq<Op>, k: Key)
    requires i.Valid() && k in i.pins
    requires forall n :: 0 <= n < |ops| && ops[n].UnpinOp? ==> k !in ops[n].keys
    ensures k in Run(i, ops).pins && k in Run(i, ops).resident
  {
    hide Apply;
    RunsAreValid(i, ops);
    if ops != [] {
      var front, last := ops[..|ops| - 1], ops[|ops| - 1];
      PinnedStaysResident(i, front, k);
      RunsAreValid(i, front);
      ApplyKeeps(Run(i, front), last);
    }
  }

  ghost predicate AllWithinPlan(i: Idx, ops: seq<Op>) {
    forall n :: 0 <= n < |ops| ==> WithinPlan(Run(i, ops[..n]), ops[n])
  }

  // Without restores, and when only reserved or resident keys are confirmed,
  // the capacity bound holds throughout.
  lemma {:induction false} CapacityHolds(i: Idx, ops: seq<Op>)
    requires i.Valid() && i.Load() <= i.capacity && AllWithinPlan(i, ops)
    ensures Run(i, ops).Load() <= i.capacity
  {
    hide Apply, Idx.Valid, Idx.Load, WithinPlan;
    if ops != [] {
      var n := |ops| - 1;
      var front := ops[..n];
      assert forall m :: 0 <= m < n ==> front[..m] == ops[..m] && front[m] == ops[m];
      CapacityHolds(i, front);
      RunsAreValid(i, front);
      assert WithinPlan(Run(i, front), ops[n]);
      ApplyKeeps(Run(i, front), ops[n]);
    }
  }

  // Both conditions are needed: a full index is exceeded exactly by confirming
  // or restoring a key that was neither reserved nor resident.
  lemma ExceedsIff(i: Idx, k: Key)
    requires i.Valid() && i.Load() == i.capacity
    ensures ConfirmOne(i, k, true).Load() > i.capacity <==> k !in i.pending && k !in i.resident
    ensures Restore(i, [k]).Load() > i.capacity <==> k !in i.pending && k !in i.resident
  {
    hide Drop, Distinct;
    ConfirmOneKeeps(i, k, true);
    TouchDistinct(i.resident, k);
    RemoveSize(i.pending, k);
    assert [k][..0] == [] && Restore(i, []) == i;
  }
}
