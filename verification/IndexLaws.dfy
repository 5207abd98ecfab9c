// What each index operation is for, said without its loop: exact pin counts,
// who is youngest after a confirmation or a restore, when a plan is
// impossible, and how long a reservation nobody settles may stay.
module IndexLaws {
  import opened Common
  import opened SemanticIndex
  import opened IndexRuns

  // ---- planning ----

  // An accepted plan reserves exactly the keys of the batch that are not
  // resident, stamped with the current epoch; it evicts nothing it does not
  // have to, never a key of the batch, and never a pinned key.
  lemma PlanReserves(i: Idx, keys: seq<Key>)
    requires i.Valid() && !Refuses(i, keys)
    ensures var p := Planned(i, keys);
            && (forall k :: k in p.pending <==> k in i.pending || (k in keys && k !in i.resident))
            && (forall k :: k in i.pending ==> p.pending[k] == i.pending[k])
            && (forall k :: k in keys && k !in i.resident ==> p.pending[k] == i.epoch)
            && (forall k :: k in i.resident && (k in keys || k in i.pins) ==> k in p.resident)
            && (forall k :: k in p.resident ==> k in i.resident)
            && |i.resident| - |p.resident| == (if Deficit(i, keys) > 0 then Deficit(i, keys) else 0)
            && p.pins == i.pins && p.epoch == i.epoch
  {
    hide Drop, Dedup, Distinct, Eligible;
    PlanSizes(i, keys);
    DropSize(i.resident, Elements(Evictions(i, keys)));
    forall k | k in Evictions(i, keys)
      ensures k !in keys && k !in i.pins
    {
      EligibleKey(i, keys, k);
    }
  }

  // Keys whose departure a plan may ask for.
  ghost predicate MayGo(i: Idx, keys: seq<Key>, gone: set<Key>) {
    forall k :: k in gone ==> k in i.resident && k !in keys && k !in i.pins
  }

  // A batch with nothing in flight is refused only when no choice of
  // evictions whatever would make it fit.
  lemma RefusedOnlyWhenImpossible(i: Idx, keys: seq<Key>, gone: set<Key>)
    requires i.Valid() && Refuses(i, keys) && !InFlight(i, keys) && MayGo(i, keys, gone)
    ensures |i.resident| - |gone| + |i.pending| + |NewKeys(i, keys)| > i.capacity
  {
    hide Drop, Distinct, NewKeys;
    var e := Eligible(i, keys);
    DropDistinct(i.resident, Elements(keys) + Pinned(i));
    DistinctSetSize(e);
    forall k | k in gone
      ensures k in Elements(e)
    {
      EligibleKey(i, keys, k);
    }
    SubsetSize(gone, Elements(e));
  }

  // ---- settling ----

  // A successful confirmation makes its keys the youngest, in the order given;
  // a failed one makes nothing resident. Either way they are in flight no more.
  lemma {:induction false} ConfirmOrder(i: Idx, keys: seq<Key>, ok: bool)
    requires Distinct(keys)
    ensures var r := Confirm(i, keys, ok);
            && r.resident == (if ok then Drop(i.resident, Elements(keys)) + keys else i.resident)
            && r.pending == i.pending - Elements(keys) && r.pins == i.pins
  {
    hide Drop, Touch;
    if keys == [] {
      DropNothing(i.resident, {});
      assert Elements(keys) == {} && Drop(i.resident, {}) + keys == i.resident;
    } else {
      var n := |keys| - 1;
      var front, k := keys[..n], keys[n];
      assert keys == front + [k] && k !in front;
      ConfirmOrder(i, front, ok);
      ElementsAppend(front, k);
      TouchLast(i.resident, front, k);
      assert i.pending - Elements(front) - {k} == i.pending - Elements(keys);
    }
  }

  lemma ConfirmSingle(i: Idx, k: Key, ok: bool)
    ensures Confirm(i, [k], ok) == ConfirmOne(i, k, ok)
  {
    var keys := [k];
    assert keys[..0] == [] && Confirm(i, keys[..0], ok) == i;
  }

  // A restore adds what was missing, youngest last, and moves nothing.
  lemma {:induction false} RestoreOrder(i: Idx, keys: seq<Key>)
    ensures Restore(i, keys).resident == i.resident + Drop(Dedup(keys), Elements(i.resident))
    ensures Restore(i, keys).pending == i.pending - Elements(keys)
  {
    hide Drop, Elements;
    if keys == [] {
      NoKeys(i.resident);
    } else {
      var n := |keys| - 1;
      var front, k := keys[..n], keys[n];
      assert keys == front + [k];
      RestoreOrder(i, front);
      ElementsAppend(front, k);
      var old_, d := Elements(i.resident), Dedup(front);
      DropAppend(d, [k], old_);
      OneLeft(k, old_);
      Known(i.resident, k);
      assert i.resident + Drop(d, old_) + [k] == i.resident + (Drop(d, old_) + [k]);
    }
  }

  lemma NoKeys(resident: seq<Key>)
    ensures Drop([], Elements(resident)) == [] && Elements<Key>([]) == {} && resident + [] == resident
  {
  }

  lemma Known(s: seq<Key>, k: Key)
    ensures k in Elements(s) <==> k in s
  {
  }

  lemma OneLeft(k: Key, gone: set<Key>)
    ensures Drop([k], gone) == if k in gone then [] else [k]
  {
    assert [k][..0] == [] && Drop([], gone) == [];
  }

  // ---- pins ----

  function PinCount(pins: map<Key, nat>, k: Key): nat { if k in pins then pins[k] else 0 }

  // Each pin of a key counts once.
  lemma {:induction false} CountUpExact(pins: map<Key, nat>, keys: seq<Key>, k: Key)
    ensures PinCount(CountUp(pins, keys), k) == PinCount(pins, k) + multiset(keys)[k]
  {
    if keys != [] {
      var n := |keys| - 1;
      CountUpExact(pins, keys[..n], k);
      assert keys == keys[..n] + [keys[n]];
    }
  }

  ghost predicate PinnedOften(pins: map<Key, nat>, keys: seq<Key>) {
    forall k :: k in keys ==> multiset(keys)[k] <= PinCount(pins, k)
  }

  // An unpin succeeds exactly when every key is pinned as often as it is
  // listed, and then takes off exactly that many.
  lemma {:induction false} CountDownExact(pins: map<Key, nat>, keys: seq<Key>)
    requires forall k :: k in pins ==> pins[k] > 0
    ensures CountDown(pins, keys).ok <==> PinnedOften(pins, keys)
    ensures CountDown(pins, keys).ok ==>
              forall k :: PinCount(CountDown(pins, keys).pins, k) == PinCount(pins, k) - multiset(keys)[k]
  {
    if keys != [] {
      var n := |keys| - 1;
      var front, last := keys[..n], keys[n];
      var r := CountDown(pins, front);
      CountDownExact(pins, front);
      CountDownKeeps(pins, front);
      assert keys == front + [last];
      forall k
        ensures multiset(keys)[k] == multiset(front)[k] + (if k == last then 1 else 0)
      {
      }
      assert last in keys;
      if PinnedOften(pins, keys) {
        forall k | k in front
          ensures multiset(front)[k] <= PinCount(pins, k)
        {
          assert k in keys;
        }
      }
    }
  }

  // Unpinning what was pinned restores the counts exactly, so pins nest.
  lemma UnpinUndoesPin(i: Idx, keys: seq<Key>)
    requires i.Valid() && forall k :: k in keys ==> k in i.resident
    ensures Unpin(Pin(i, keys), keys) == i && CountDown(Pin(i, keys).pins, keys).ok
  {
    hide CountUp, CountDown;
    var up := CountUp(i.pins, keys);
    CountUpKeeps(i.pins, keys);
    CountDownExact(up, keys);
    CountDownKeeps(up, keys);
    forall k
      ensures PinCount(up, k) == PinCount(i.pins, k) + multiset(keys)[k]
    {
      CountUpExact(i.pins, keys, k);
    }
    var down := CountDown(up, keys).pins;
    SameCounts(down, i.pins);
  }

  lemma SameCounts(a: map<Key, nat>, b: map<Key, nat>)
    requires (forall k :: k in a ==> a[k] > 0) && (forall k :: k in b ==> b[k] > 0)
    requires forall k :: PinCount(a, k) == PinCount(b, k)
    ensures a == b
  {
    forall k
      ensures k in a <==> k in b
      ensures k in a ==> a[k] == b[k]
    {
      assert PinCount(a, k) == PinCount(b, k);
    }
  }

  // ---- how long a reservation stays ----

  // Epochs that pass in a run.
  ghost function Epochs(ops: seq<Op>): nat {
    if ops == [] then 0 else Epochs(ops[..|ops| - 1]) + (if ops[|ops| - 1].EpochOp? then 1 else 0)
  }

  // No operation of the run settles the key.
  ghost predicate Unsettled(ops: seq<Op>, k: Key) {
    forall n :: 0 <= n < |ops| && (ops[n].ConfirmOp? || ops[n].RestoreOp?) ==> k !in ops[n].keys
  }

  // The n-th operation reclaims a reservation made at the start of the run.
  ghost predicate Expires(ops: seq<Op>, n: nat)
    requires n < |ops|
  {
    ops[n].ReclaimOp? && 0 < ops[n].maxAge <= Epochs(ops[..n])
  }

  lemma {:induction false} EpochsPass(i: Idx, ops: seq<Op>)
    ensures Run(i, ops).epoch == i.epoch + Epochs(ops)
  {
    if ops != [] {
      var front, op := ops[..|ops| - 1], ops[|ops| - 1];
      EpochsPass(i, front);
      EpochMoves(Run(i, front), op);
    }
  }

  lemma EpochMoves(i: Idx, op: Op)
    ensures Apply(i, op).epoch == i.epoch + (if op.EpochOp? then 1 else 0)
  {
    hide Refuses, Drop, Refresh, CountUp, CountDown, Evictions;
    match op {
      case ConfirmOp(keys, ok) => ConfirmEpoch(i, keys, ok);
      case RestoreOp(keys) => RestoreEpoch(i, keys);
      case _ =>
    }
  }

  lemma {:induction false} ConfirmEpoch(i: Idx, keys: seq<Key>, ok: bool)
    ensures Confirm(i, keys, ok).epoch == i.epoch
    ensures forall k :: k in i.pending && k !in keys ==> k in Confirm(i, keys, ok).pending
    ensures forall k :: k in Confirm(i, keys, ok).pending ==>
              k in i.pending && Confirm(i, keys, ok).pending[k] == i.pending[k]
  {
    hide Touch;
    if keys != [] {
      ConfirmEpoch(i, keys[..|keys| - 1], ok);
    }
  }

  lemma {:induction false} RestoreEpoch(i: Idx, keys: seq<Key>)
    ensures Restore(i, keys).epoch == i.epoch
    ensures forall k :: k in i.pending && k !in keys ==> k in Restore(i, keys).pending
    ensures forall k :: k in Restore(i, keys).pending ==>
              k in i.pending && Restore(i, keys).pending[k] == i.pending[k]
  {
    if keys != [] {
      RestoreEpoch(i, keys[..|keys| - 1]);
    }
  }

  // One operation that does not settle a pending key keeps its stamp, unless
  // it reclaims the key.
  lemma PendingStep(i: Idx, op: Op, k: Key)
    requires k in i.pending && ((op.ConfirmOp? || op.RestoreOp?) ==> k !in op.keys)
    ensures var i', gone := Apply(i, op), op.ReclaimOp? && 0 < op.maxAge && i.pending[k] + op.maxAge <= i.epoch;
            if gone then k !in i'.pending else k in i'.pending && i'.pending[k] == i.pending[k]
  {
    hide Drop, Refresh, CountUp, CountDown, Evictions, Deficit, Eligible;
    match op {
      case ConfirmOp(keys, ok) => ConfirmEpoch(i, keys, ok);
      case RestoreOp(keys) => RestoreEpoch(i, keys);
      case PlanOp(keys) =>
        if !Refuses(i, keys) {
          assert k !in keys;
        }
      case _ =>
    }
  }

  lemma GoneStaysGone(i: Idx, op: Op, k: Key)
    requires k !in i.pending && !(op.PlanOp? && k in op.keys)
    ensures k !in Apply(i, op).pending
  {
    hide Drop, Refresh, CountUp, CountDown, Evictions, Deficit, Eligible;
    match op {
      case ConfirmOp(keys, ok) => ConfirmEpoch(i, keys, ok);
      case RestoreOp(keys) => RestoreEpoch(i, keys);
      case _ =>
    }
  }

  // A reservation nobody settles is given back by the first reclaim that comes
  // at least its age limit of epochs later, and by none before.
  lemma {:induction false} ReservationAge(i: Idx, ops: seq<Op>, k: Key)
    requires k in i.pending && i.pending[k] == i.epoch && Unsettled(ops, k)
    requires forall n :: 0 <= n < |ops| && ops[n].PlanOp? ==> k !in ops[n].keys
    ensures k in Run(i, ops).pending <==> forall n :: 0 <= n < |ops| ==> !Expires(ops, n)
    ensures k in Run(i, ops).pending ==> Run(i, ops).pending[k] == i.epoch
  {
    hide Apply;
    if ops != [] {
      var last := |ops| - 1;
      var front, op := ops[..last], ops[last];
      ReservationAge(i, front, k);
      EpochsPass(i, front);
      forall n | 0 <= n < last
        ensures Expires(front, n) == Expires(ops, n)
      {
        assert front[..n] == ops[..n];
      }
      if k in Run(i, front).pending {
        PendingStep(Run(i, front), op, k);
        if k in Run(i, ops).pending {
          assert !Expires(ops, last);
        } else {
          assert Expires(ops, last);
        }
      } else {
        GoneStaysGone(Run(i, front), op, k);
        var n :| 0 <= n < last && Expires(front, n);
        assert Expires(ops, n);
      }
    }
  }
}
