// The semantic cache index: resident keys in least-recently-used order, store
// reservations in flight, and pins.
module SemanticIndex {
  import opened Common

  // `resident` is oldest first; `pending` maps a key to the epoch at which its
  // reservation was accepted.
  datatype Idx = Idx(capacity: nat, resident: seq<Key>, pending: map<Key, nat>, pins: map<Key, nat>, epoch: nat) {
    // Resident and pending are disjoint, and whatever is pinned is resident.
    ghost predicate Valid() {
      && Distinct(resident)
      && (forall k :: k in pending ==> k !in resident)
      && (forall k :: k in pins ==> pins[k] > 0 && k in resident)
    }

    function Load(): nat { |resident| + |pending| }
  }

  // ---- lists of keys ----

  // What is left of a list without some keys, in the same order.
  function Drop(s: seq<Key>, gone: set<Key>): (r: seq<Key>)
    ensures forall k :: k in r <==> k in s && k !in gone
    ensures |r| <= |s|
  {
    if s == [] then []
    else
      var front, k := Drop(s[..|s| - 1], gone), s[|s| - 1];
      assert s == s[..|s| - 1] + [k];
      if k in gone then front else front + [k]
  }

  lemma {:induction false} DropDistinct(s: seq<Key>, gone: set<Key>)
    requires Distinct(s)
    ensures Distinct(Drop(s, gone))
  {
    if s != [] {
      DropDistinct(s[..|s| - 1], gone);
    }
  }

  lemma {:induction false} DropSize(s: seq<Key>, gone: set<Key>)
    requires Distinct(s) && gone <= Elements(s)
    ensures |Drop(s, gone)| == |s| - |gone|
  {
    DropDistinct(s, gone);
    DistinctSetSize(s);
    DistinctSetSize(Drop(s, gone));
    assert Elements(Drop(s, gone)) == Elements(s) - gone;
  }

  lemma {:induction false} DropAppend(a: seq<Key>, b: seq<Key>, gone: set<Key>)
    ensures Drop(a + b, gone) == Drop(a, gone) + Drop(b, gone)
  {
    if b == [] {
      assert a + b == a;
    } else {
      var n := |b| - 1;
      DropAppend(a, b[..n], gone);
      assert (a + b)[..|a + b| - 1] == a + b[..n] && (a + b)[|a + b| - 1] == b[n];
    }
  }

  lemma {:induction false} DropTwice(s: seq<Key>, a: set<Key>, b: set<Key>)
    ensures Drop(Drop(s, a), b) == Drop(s, a + b)
  {
    if s != [] {
      DropTwice(s[..|s| - 1], a, b);
    }
  }

  lemma {:induction false} DropNothing(s: seq<Key>, gone: set<Key>)
    requires forall k :: k in s ==> k !in gone
    ensures Drop(s, gone) == s
  {
    if s != [] {
      assert s == s[..|s| - 1] + [s[|s| - 1]];
      DropNothing(s[..|s| - 1], gone);
    }
  }

  lemma {:induction false} DropAll(s: seq<Key>, gone: set<Key>)
    requires forall k :: k in s ==> k in gone
    ensures Drop(s, gone) == []
  {
    if s != [] {
      assert s[|s| - 1] in s;
      DropAll(s[..|s| - 1], gone);
    }
  }

  function Touch(s: seq<Key>, k: Key): seq<Key> { Drop(s, {k}) + [k] }

  lemma TouchDistinct(s: seq<Key>, k: Key)
    requires Distinct(s)
    ensures Distinct(Touch(s, k)) && Elements(Touch(s, k)) == Elements(s) + {k}
    ensures k in s ==> |Touch(s, k)| == |s|
    ensures k !in s ==> |Touch(s, k)| == |s| + 1
  {
    DropDistinct(s, {k});
    if k in s {
      DropSize(s, {k});
    } else {
      DropNothing(s, {k});
    }
  }

  // First occurrences only.
  function Dedup(s: seq<Key>): (r: seq<Key>)
    ensures forall k :: k in r <==> k in s
    ensures Distinct(r)
  {
    if s == [] then []
    else
      var front, k := Dedup(s[..|s| - 1]), s[|s| - 1];
      assert s == s[..|s| - 1] + [k];
      if k in front then front else front + [k]
  }

  // ---- planning a store ----

  function Pinned(i: Idx): set<Key> { set k | k in i.pins && i.pins[k] > 0 }

  function NewKeys(i: Idx, keys: seq<Key>): seq<Key> { Drop(Dedup(keys), Elements(i.resident)) }

  // Resident keys that may go, oldest first.
  function Eligible(i: Idx, keys: seq<Key>): seq<Key> { Drop(i.resident, Elements(keys) + Pinned(i)) }

  // How many must go; negative when there is room to spare.
  function Deficit(i: Idx, keys: seq<Key>): int { |NewKeys(i, keys)| - (i.capacity - i.Load()) }

  datatype Plan = Plan(newKeys: seq<Key>, evicted: seq<Key>)

  // A batch is refused exactly when one of its keys is already in flight, or
  // when too few resident keys may go.
  predicate Refuses(i: Idx, keys: seq<Key>) {
    InFlight(i, keys) || |Eligible(i, keys)| < Deficit(i, keys)
  }

  predicate InFlight(i: Idx, keys: seq<Key>) { exists k :: k in keys && k in i.pending }

  // Otherwise precisely the oldest eligible keys go, as many as are needed.
  function Evictions(i: Idx, keys: seq<Key>): (r: seq<Key>)
    requires !Refuses(i, keys)
    ensures forall k :: k in r ==> k in Eligible(i, keys)
  {
    if Deficit(i, keys) > 0 then Eligible(i, keys)[..Deficit(i, keys)] else []
  }

  function Planned(i: Idx, keys: seq<Key>): Idx
    requires !Refuses(i, keys)
  {
    i.(resident := Drop(i.resident, Elements(Evictions(i, keys))),
       pending := i.pending + (map k | k in NewKeys(i, keys) :: i.epoch))
  }

  // After an accepted plan the index is within capacity, even if it was over
  // before.
  lemma PlanFits(i: Idx, keys: seq<Key>)
    requires i.Valid() && !Refuses(i, keys)
    ensures Planned(i, keys).Valid() && Planned(i, keys).Load() <= i.capacity
    ensures Deficit(i, keys) > 0 ==> Planned(i, keys).Load() == i.capacity
  {
    hide Drop, Dedup, Distinct, Eligible, NewKeys;
    var added, gone, p := NewKeys(i, keys), Evictions(i, keys), Planned(i, keys);
    PlanSizes(i, keys);
    DropSize(i.resident, Elements(gone));
    DropDistinct(i.resident, Elements(gone));
    UnionSize(i.pending, added, i.epoch);
    forall k | k in p.pins
      ensures k in p.resident
    {
      EligibleKey(i, keys, k);
    }
  }

  lemma UnionSize(m: map<Key, nat>, added: seq<Key>, v: nat)
    requires Elements(added) !! m.Keys && |Elements(added)| == |added|
    ensures var u := m + (map k | k in added :: v);
            u.Keys == m.Keys + Elements(added) && |u| == |m| + |added|
  {
    var u := m + (map k | k in added :: v);
    assert u.Keys == m.Keys + Elements(added);
    assert |u.Keys| == |m.Keys| + |Elements(added)| && |u| == |u.Keys| && |m| == |m.Keys|;
  }

  lemma EligibleKey(i: Idx, keys: seq<Key>, k: Key)
    ensures k in Eligible(i, keys) <==> k in i.resident && k !in keys && !(k in i.pins && i.pins[k] > 0)
  {
  }

  lemma PlanSizes(i: Idx, keys: seq<Key>)
    requires i.Valid() && !Refuses(i, keys)
    ensures Distinct(NewKeys(i, keys)) && |Elements(NewKeys(i, keys))| == |NewKeys(i, keys)|
    ensures |Elements(Evictions(i, keys))| == |Evictions(i, keys)|
    ensures Elements(Evictions(i, keys)) <= Elements(i.resident)
    ensures Elements(NewKeys(i, keys)) !! i.pending.Keys && Elements(NewKeys(i, keys)) !! Elements(i.resident)
  {
    hide Drop, Dedup;
    DropDistinct(Dedup(keys), Elements(i.resident));
    DropDistinct(i.resident, Elements(keys) + Pinned(i));
    DistinctSetSize(NewKeys(i, keys));
    DistinctSetSize(Evictions(i, keys));
  }

  ghost predicate Before(s: seq<Key>, a: Key, b: Key) { exists p, q :: 0 <= p < q < |s| && s[p] == a && s[q] == b }

  lemma BeforeLonger(s: seq<Key>, k: Key, a: Key, b: Key)
    requires Before(s, a, b) || (a in s && b == k)
    ensures Before(s + [k], a, b)
  {
    var t := s + [k];
    if Before(s, a, b) {
      var p, q :| 0 <= p < q < |s| && s[p] == a && s[q] == b;
      assert t[p] == a && t[q] == b;
    } else {
      var p :| 0 <= p < |s| && s[p] == a;
      assert t[p] == a && t[|s|] == b;
    }
  }

  lemma {:induction false} DropOrder(s: seq<Key>, gone: set<Key>, i: nat, j: nat)
    requires i < j < |Drop(s, gone)|
    ensures Before(s, Drop(s, gone)[i], Drop(s, gone)[j])
  {
    hide Before;
    var n := |s| - 1;
    var front, k := s[..n], s[n];
    var d, f := Drop(s, gone), Drop(front, gone);
    assert s == front + [k];
    if j < |f| {
      DropOrder(front, gone, i, j);
      BeforeLonger(front, k, d[i], d[j]);
    } else {
      assert d[i] == f[i] && f[i] in f && d[j] == k;
      BeforeLonger(front, k, d[i], d[j]);
    }
  }

  // Whatever is evicted is older than every eligible key that stays.
  lemma OldestGoFirst(i: Idx, keys: seq<Key>, a: Key, b: Key)
    requires !Refuses(i, keys) && a in Evictions(i, keys) && b in Eligible(i, keys) && b !in Evictions(i, keys)
    ensures Before(i.resident, a, b)
  {
    hide Drop, Before, Deficit;
    var e, v := Eligible(i, keys), Evictions(i, keys);
    var p :| 0 <= p < |v| && v[p] == a;
    var q :| 0 <= q < |e| && e[q] == b;
    assert forall r :: 0 <= r < |v| ==> e[r] == v[r];
    DropOrder(i.resident, Elements(keys) + Pinned(i), p, q);
  }

  // ---- the other operations ----

  function ConfirmOne(i: Idx, k: Key, ok: bool): Idx {
    i.(pending := i.pending - {k}, resident := if ok then Touch(i.resident, k) else i.resident)
  }

  function Confirm(i: Idx, keys: seq<Key>, ok: bool): Idx {
    if keys == [] then i else ConfirmOne(Confirm(i, keys[..|keys| - 1], ok), keys[|keys| - 1], ok)
  }

  function CountUp(pins: map<Key, nat>, keys: seq<Key>): map<Key, nat> {
    if keys == [] then pins
    else
      var p, k := CountUp(pins, keys[..|keys| - 1]), keys[|keys| - 1];
      p[k := (if k in p then p[k] else 0) + 1]
  }

  // All or nothing: a key that is not resident fails the whole batch.
  function Pin(i: Idx, keys: seq<Key>): Idx {
    if forall k :: k in keys ==> k in i.resident then i.(pins := CountUp(i.pins, keys)) else i
  }

  // Stops at the first key without a pin, keeping what was undone so far.
  datatype UnpinRun = UnpinRun(pins: map<Key, nat>, ok: bool)

  function CountDown(pins: map<Key, nat>, keys: seq<Key>): UnpinRun {
    if keys == [] then UnpinRun(pins, true)
    else
      var r, k := CountDown(pins, keys[..|keys| - 1]), keys[|keys| - 1];
      if !r.ok then r
      else if !(k in r.pins && r.pins[k] > 0) then r.(ok := false)
      else if r.pins[k] == 1 then r.(pins := r.pins - {k})
      else r.(pins := r.pins[k := r.pins[k] - 1])
  }

  function Unpin(i: Idx, keys: seq<Key>): Idx { i.(pins := CountDown(i.pins, keys).pins) }

  function Refresh(s: seq<Key>, keys: seq<Key>): (r: seq<Key>)
    ensures forall k :: k in r <==> k in s
  {
    if keys == [] then s
    else
      var r, k := Refresh(s, keys[..|keys| - 1]), keys[|keys| - 1];
      if k in r then Touch(r, k) else r
  }

  function MarkRecent(i: Idx, keys: seq<Key>): Idx { i.(resident := Refresh(i.resident, keys)) }

  function Restore(i: Idx, keys: seq<Key>): Idx {
    if keys == [] then i
    else
      var r, k := Restore(i, keys[..|keys| - 1]), keys[|keys| - 1];
      r.(pending := r.pending - {k}, resident := if k in r.resident then r.resident else r.resident + [k])
  }

  // Pinned keys stay and are reported back.
  function Forget(i: Idx, keys: seq<Key>): Idx { i.(resident := Drop(i.resident, Elements(keys) - Pinned(i))) }

  function Stale(i: Idx, maxAge: nat): set<Key> {
    set k | k in i.pending && maxAge > 0 && i.pending[k] + maxAge <= i.epoch
  }

  function ReclaimStale(i: Idx, maxAge: nat): Idx { i.(pending := i.pending - Stale(i, maxAge)) }

  // ---- lookup ----

  // How many leading keys are resident.
  function Hits(resident: set<Key>, keys: seq<Key>): (r: nat)
    ensures r <= |keys|
    ensures forall j :: 0 <= j < r ==> keys[j] in resident
    ensures r < |keys| ==> keys[r] !in resident
  {
    if keys == [] || keys[0] !in resident then 0 else 1 + Hits(resident, keys[1..])
  }

  function Lookup(i: Idx, keys: seq<Key>): Idx { MarkRecent(i, keys[..Hits(Elements(i.resident), keys)]) }

  lemma TouchOrder(r: seq<Key>, s: seq<Key>, hit: set<Key>, k: Key)
    requires Drop(r, hit) == Drop(s, hit)
    ensures Drop(r, hit + {k}) == Drop(s, hit + {k}) && Drop(Touch(r, k), hit + {k}) == Drop(s, hit + {k})
  {
    hide Drop;
    DropTwice(r, hit, {k});
    DropTwice(s, hit, {k});
    DropAppend(Drop(r, {k}), [k], hit + {k});
    DropTwice(r, {k}, hit + {k});
    assert {k} + (hit + {k}) == hit + {k};
    DropAll([k], hit + {k});
  }

  lemma ElementsAppend(s: seq<Key>, k: Key)
    ensures Elements(s + [k]) == Elements(s) + {k}
  {
  }

  // A lookup moves its hits to the young end and leaves everything else in
  // order; nothing becomes resident or stops being so.
  lemma {:induction false} RefreshOrder(s: seq<Key>, keys: seq<Key>)
    requires Distinct(s)
    ensures Distinct(Refresh(s, keys)) && Elements(Refresh(s, keys)) == Elements(s) && |Refresh(s, keys)| == |s|
    ensures Drop(Refresh(s, keys), Elements(keys)) == Drop(s, Elements(keys))
  {
    hide Drop, Distinct, Touch;
    if keys != [] {
      var n := |keys| - 1;
      var r, k := Refresh(s, keys[..n]), keys[n];
      RefreshOrder(s, keys[..n]);
      assert keys == keys[..n] + [k];
      ElementsAppend(keys[..n], k);
      TouchOrder(r, s, Elements(keys[..n]), k);
      if k in r {
        TouchDistinct(r, k);
        assert Elements(r) + {k} == Elements(r);
      }
    }
  }

  lemma TouchLast(s: seq<Key>, front: seq<Key>, k: Key)
    requires k !in front
    ensures Touch(Drop(s, Elements(front)) + front, k) == Drop(s, Elements(front) + {k}) + (front + [k])
  {
    hide Drop, Elements;
    DropAppend(Drop(s, Elements(front)), front, {k});
    DropTwice(s, Elements(front), {k});
    DropNothing(front, {k});
    var d := Drop(s, Elements(front) + {k});
    assert d + front + [k] == d + (front + [k]);
  }

  // When the hits are distinct they end up at the young end in chain order.
  lemma {:induction false} RefreshDistinct(s: seq<Key>, keys: seq<Key>)
    requires Distinct(keys) && forall k :: k in keys ==> k in s
    ensures Refresh(s, keys) == Drop(s, Elements(keys)) + keys
  {
    hide Drop, Touch;
    if keys == [] {
      DropNothing(s, {});
      assert Elements(keys) == {} && Drop(s, {}) + keys == s;
    } else {
      var n := |keys| - 1;
      var front, k := keys[..n], keys[n];
      assert keys == front + [k] && k in keys && k !in front;
      RefreshDistinct(s, front);
      hide Elements, Distinct;
      ElementsAppend(front, k);
      TouchLast(s, front, k);
    }
  }

  // A lookup neither adds nor removes residents and keeps the order of those
  // it did not hit; distinct hits become the youngest, in chain order.
  lemma LookupKeepsResidency(i: Idx, keys: seq<Key>)
    requires i.Valid()
    ensures var hits, i' := keys[..Hits(Elements(i.resident), keys)], Lookup(i, keys);
            && Elements(i'.resident) == Elements(i.resident) && i'.pending == i.pending && i'.pins == i.pins
            && Drop(i'.resident, Elements(hits)) == Drop(i.resident, Elements(hits))
            && (Distinct(hits) ==> i'.resident == Drop(i.resident, Elements(hits)) + hits)
  {
    hide Drop, Refresh;
    var hits := keys[..Hits(Elements(i.resident), keys)];
    RefreshOrder(i.resident, hits);
    if Distinct(hits) {
      RefreshDistinct(i.resident, hits);
    }
  }
}
