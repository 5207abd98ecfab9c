// The index object: loops over batches that update its tables in place.
module IndexObject {
  import opened Common
  import opened ChunkKeys
  import opened SemanticIndex

  class ChunkIndex {
    const hash: Hash
    const capacity: nat
    const step: nat
    const namespace: Key
    var resident: seq<Key>
    var pending: map<Key, nat>
    var pins: map<Key, nat>
    var epoch: nat

    function View(): Idx
      reads this
    {
      Idx(capacity, resident, pending, pins, epoch)
    }

    constructor (hash: Hash, capacity: nat, step: nat, namespace: Key)
      requires capacity > 0 && step > 0
      ensures this.hash == hash && this.step == step && this.namespace == namespace
      ensures View() == Idx(capacity, [], map[], map[], 0) && View().Valid()
    {
      this.hash, this.capacity, this.step, this.namespace := hash, capacity, step, namespace;
      resident, pending, pins, epoch := [], map[], map[], 0;
    }

    // ---- planning ----

    // The first `want` resident keys that may go, oldest first.
    method OldestEligible(ghost keys: seq<Key>, batch: set<Key>, want: nat) returns (evicted: seq<Key>)
      requires batch == Elements(keys)
      ensures var e := Eligible(View(), keys);
              evicted == if |e| < want then e else e[..want]
    {
      hide Drop;
      evicted := [];
      ghost var blocked := batch + Pinned(View());
      DropAll([], blocked);
      for i := 0 to |resident|
        invariant evicted == Drop(resident[..i], blocked) && |evicted| <= want
      {
        if |evicted| == want {
          DropPrefix(resident, i, blocked);
          return;
        }
        DropNext(resident, i, blocked);
        var k := resident[i];
        if k !in batch && !(k in pins && pins[k] > 0) {
          evicted := evicted + [k];
        }
      }
      assert resident[..|resident|] == resident;
    }

    method AnyPending(keys: seq<Key>) returns (found: bool)
      ensures found == InFlight(View(), keys)
    {
      for i := 0 to |keys|
        invariant forall j :: 0 <= j < i ==> keys[j] !in pending
      {
        if keys[i] in pending {
          assert keys[i] in keys;
          return true;
        }
      }
      return false;
    }

    method Evict(evicted: seq<Key>)
      modifies this`resident
      ensures resident == Drop(old(resident), Elements(evicted))
    {
      hide Drop;
      DropNothing(resident, Elements(evicted[..0]));
      for i := 0 to |evicted|
        invariant resident == Drop(old(resident), Elements(evicted[..i]))
      {
        assert evicted[..i + 1] == evicted[..i] + [evicted[i]];
        ElementsAppend(evicted[..i], evicted[i]);
        DropTwice(old(resident), Elements(evicted[..i]), {evicted[i]});
        resident := Drop(resident, {evicted[i]});
      }
      assert evicted[..|evicted|] == evicted;
    }

    method Admit(newKeys: seq<Key>)
      modifies this`pending
      ensures pending == old(pending) + (map k | k in newKeys :: epoch)
    {
      for i := 0 to |newKeys|
        invariant pending == old(pending) + (map k | k in newKeys[..i] :: epoch)
      {
        assert forall k :: k in newKeys[..i + 1] <==> k in newKeys[..i] || k == newKeys[i];
        pending := pending[newKeys[i] := epoch];
      }
      assert newKeys[..|newKeys|] == newKeys;
    }

    // What to write and whom to evict, before anything is changed.
    method Decide(keys: seq<Key>) returns (plan: Option<Plan>)
      ensures plan.None? <==> Refuses(View(), keys)
      ensures plan.Some? ==> plan.value == Plan(NewKeys(View(), keys), Evictions(View(), keys))
    {
      hide Drop, Dedup, Eligible, Elements, InFlight;
      var batch := Deduplicate(keys);
      SameElements(View(), keys);
      var inFlight := AnyPending(batch);
      if inFlight {
        return None;
      }
      var newKeys := KeysOutside(batch, Elements(resident));
      var deficit := |newKeys| - (capacity - |resident| - |pending|);
      if deficit <= 0 {
        return Some(Plan(newKeys, []));
      }
      var evicted := OldestEligible(keys, Elements(batch), deficit);
      if |evicted| < deficit {
        return None;
      }
      return Some(Plan(newKeys, evicted));
    }

    // Refused, changing nothing, exactly when a key of the batch is in flight
    // or too few resident keys may go.
    method PlanStore(keys: seq<Key>) returns (plan: Option<Plan>)
      modifies this`resident, this`pending
      ensures plan.None? <==> Refuses(old(View()), keys)
      ensures plan.None? ==> View() == old(View())
      ensures plan.Some? ==> View() == Planned(old(View()), keys) &&
                             plan.value == Plan(NewKeys(old(View()), keys), Evictions(old(View()), keys))
    {
      hide Drop, Refuses, NewKeys, Evictions, Elements;
      plan := Decide(keys);
      if plan.Some? {
        Evict(plan.value.evicted);
        Admit(plan.value.newKeys);
      }
    }

    // ---- settling, pins, order ----

    method ConfirmStore(keys: seq<Key>, ok: bool)
      modifies this`resident, this`pending
      ensures View() == Confirm(old(View()), keys, ok)
    {
      hide Drop;
      for i := 0 to |keys|
        invariant View() == Confirm(old(View()), keys[..i], ok)
      {
        assert keys[..i + 1][..i] == keys[..i];
        pending := pending - {keys[i]};
        if ok {
          if keys[i] !in resident {
            DropNothing(resident, {keys[i]});
            resident := resident + [keys[i]];
          } else {
            resident := Touch(resident, keys[i]);
          }
        }
      }
      assert keys[..|keys|] == keys;
    }

    method Pin(keys: seq<Key>) returns (ok: bool)
      modifies this`pins
      ensures ok == (forall k :: k in keys ==> k in resident)
      ensures View() == SemanticIndex.Pin(old(View()), keys)
    {
      for i := 0 to |keys|
        invariant forall j :: 0 <= j < i ==> keys[j] in resident
      {
        if keys[i] !in resident {
          return false;
        }
      }
      for i := 0 to |keys|
        invariant pins == CountUp(old(pins), keys[..i])
      {
        assert keys[..i + 1][..i] == keys[..i];
        pins := pins[keys[i] := (if keys[i] in pins then pins[keys[i]] else 0) + 1];
      }
      assert keys[..|keys|] == keys;
      return true;
    }

    method Unpin(keys: seq<Key>) returns (ok: bool)
      modifies this`pins
      ensures UnpinRun(pins, ok) == CountDown(old(pins), keys)
    {
      for i := 0 to |keys|
        invariant UnpinRun(pins, true) == CountDown(old(pins), keys[..i])
      {
        assert keys[..i + 1][..i] == keys[..i];
        var k := keys[i];
        if !(k in pins && pins[k] > 0) {
          UnpinStops(old(pins), keys, i + 1);
          return false;
        }
        pins := if pins[k] == 1 then pins - {k} else pins[k := pins[k] - 1];
      }
      assert keys[..|keys|] == keys;
      return true;
    }

    method MarkRecent(keys: seq<Key>)
      modifies this`resident
      ensures View() == SemanticIndex.MarkRecent(old(View()), keys)
    {
      hide Drop;
      for i := 0 to |keys|
        invariant resident == Refresh(old(resident), keys[..i])
      {
        assert keys[..i + 1][..i] == keys[..i];
        if keys[i] in resident {
          resident := Touch(resident, keys[i]);
        }
      }
      assert keys[..|keys|] == keys;
    }

    method Restore(keys: seq<Key>)
      modifies this`resident, this`pending
      ensures View() == SemanticIndex.Restore(old(View()), keys)
    {
      for i := 0 to |keys|
        invariant View() == SemanticIndex.Restore(old(View()), keys[..i])
      {
        assert keys[..i + 1][..i] == keys[..i];
        pending := pending - {keys[i]};
        if keys[i] !in resident {
          resident := resident + [keys[i]];
        }
      }
      assert keys[..|keys|] == keys;
    }

    // Returns the keys that a pin kept in place.
    method Forget(keys: seq<Key>) returns (kept: seq<Key>)
      modifies this`resident
      ensures View() == SemanticIndex.Forget(old(View()), keys)
      ensures forall k :: k in kept <==> k in keys && k in Pinned(View())
    {
      hide Drop;
      kept := [];
      ghost var pinned := Pinned(View());
      DropNothing(resident, Elements(keys[..0]) - pinned);
      for i := 0 to |keys|
        invariant resident == Drop(old(resident), Elements(keys[..i]) - pinned)
        invariant forall k :: k in kept <==> k in keys[..i] && k in pinned
      {
        assert keys[..i + 1] == keys[..i] + [keys[i]];
        ElementsAppend(keys[..i], keys[i]);
        if keys[i] in pins && pins[keys[i]] > 0 {
          kept := kept + [keys[i]];
          assert Elements(keys[..i + 1]) - pinned == Elements(keys[..i]) - pinned;
        } else {
          DropTwice(old(resident), Elements(keys[..i]) - pinned, {keys[i]});
          assert Elements(keys[..i + 1]) - pinned == Elements(keys[..i]) - pinned + {keys[i]};
          resident := Drop(resident, {keys[i]});
        }
      }
      assert keys[..|keys|] == keys;
    }

    method ReclaimStalePending(maxAge: nat) returns (stale: set<Key>)
      modifies this`pending
      ensures stale == Stale(old(View()), maxAge) && View() == ReclaimStale(old(View()), maxAge)
    {
      stale := {};
      var rest := pending.Keys;
      while rest != {}
        invariant rest <= pending.Keys
        invariant stale == set k | k in pending && k !in rest && maxAge > 0 && pending[k] + maxAge <= epoch
        decreases rest
      {
        var k :| k in rest;
        rest := rest - {k};
        if maxAge > 0 && pending[k] + maxAge <= epoch {
          stale := stale + {k};
        }
      }
      pending := pending - stale;
    }

    // ---- lookup ----

    // Rolling the hash chunk by chunk finds exactly the longest resident
    // prefix of the chain, and refreshes it.
    method LookupPrefix(tokens: seq<Token>) returns (matched: nat)
      requires step > 0
      modifies this`resident
      ensures var chain := Chain(hash, step, namespace, tokens);
              && matched == Times(Hits(Elements(old(resident)), chain), step)
              && View() == Lookup(old(View()), chain)
    {
      hide Drop, Digest, Chain, Chunks, Times, Refresh, LastKey, Touch, Hits;
      ghost var chain := Chain(hash, step, namespace, tokens);
      ghost var j := 0;
      var parent := namespace;
      matched := 0;
      TimesIsProduct(0, step);
      NothingRefreshed(resident, namespace, chain);
      ChunksFit(|tokens|, step, 0);
      while matched + step <= |tokens|
        invariant matched == Times(j, step) <= |tokens| && j <= |chain|
        invariant parent == LastKey(namespace, chain[..j])
        invariant resident == Refresh(old(resident), chain[..j])
        invariant forall n :: 0 <= n < j ==> chain[n] in old(resident)
        decreases |tokens| - matched
      {
        TimesNext(j, step);
        ChunksFit(|tokens|, step, j + 1);
        ChainAt(hash, step, namespace, tokens, j);
        parent := Digest(hash, parent, tokens[matched..matched + step]);
        if parent !in resident {
          HitsAt(Elements(old(resident)), chain, j);
          return;
        }
        ChainNext(old(resident), namespace, chain, j);
        matched := matched + step;
        resident := Touch(resident, parent);
        j := j + 1;
      }
      TimesNext(j, step);
      ChunksFit(|tokens|, step, j + 1);
      HitsAt(Elements(old(resident)), chain, j);
    }
  }

  method Deduplicate(keys: seq<Key>) returns (r: seq<Key>)
    ensures r == Dedup(keys)
  {
    r := [];
    for i := 0 to |keys|
      invariant r == Dedup(keys[..i])
    {
      assert keys[..i + 1][..i] == keys[..i];
      if keys[i] !in r {
        r := r + [keys[i]];
      }
    }
    assert keys[..|keys|] == keys;
  }

  method KeysOutside(keys: seq<Key>, known: set<Key>) returns (r: seq<Key>)
    ensures r == Drop(keys, known)
  {
    r := [];
    for i := 0 to |keys|
      invariant r == Drop(keys[..i], known)
    {
      assert keys[..i + 1][..i] == keys[..i];
      if keys[i] !in known {
        r := r + [keys[i]];
      }
    }
    assert keys[..|keys|] == keys;
  }

  lemma SameElements(i: Idx, keys: seq<Key>)
    ensures Elements(Dedup(keys)) == Elements(keys) && InFlight(i, Dedup(keys)) == InFlight(i, keys)
  {
    hide Dedup;
  }

  lemma DropNext(s: seq<Key>, i: nat, gone: set<Key>)
    requires i < |s|
    ensures Drop(s[..i + 1], gone) == Drop(s[..i], gone) + (if s[i] in gone then [] else [s[i]])
  {
    assert s[..i + 1][..i] == s[..i];
  }

  lemma DropPrefix(s: seq<Key>, i: nat, gone: set<Key>)
    requires i <= |s|
    ensures Drop(s[..i], gone) <= Drop(s, gone)
  {
    DropAppend(s[..i], s[i..], gone);
    assert s == s[..i] + s[i..];
  }

  lemma {:induction false} UnpinStops(pins: map<Key, nat>, keys: seq<Key>, i: nat)
    requires i <= |keys| && !CountDown(pins, keys[..i]).ok
    ensures CountDown(pins, keys) == CountDown(pins, keys[..i])
  {
    if i == |keys| {
      assert keys[..i] == keys;
    } else {
      var n := |keys| - 1;
      assert keys[..n][..i] == keys[..i];
      UnpinStops(pins, keys[..n], i);
    }
  }

  lemma NothingRefreshed(resident: seq<Key>, parent: Key, chain: seq<Key>)
    ensures Refresh(resident, chain[..0]) == resident && LastKey(parent, chain[..0]) == parent
  {
  }

  // One more key of the chain.
  lemma ChainNext(resident: seq<Key>, parent: Key, chain: seq<Key>, j: nat)
    requires j < |chain| && chain[j] in resident
    ensures LastKey(parent, chain[..j + 1]) == chain[j]
    ensures Refresh(resident, chain[..j + 1]) == Touch(Refresh(resident, chain[..j]), chain[j])
  {
    hide Touch;
    assert chain[..j + 1][..j] == chain[..j];
  }

  lemma TimesNext(n: nat, step: nat)
    ensures Times(n + 1, step) == Times(n, step) + step
  {
  }

  // The j-th key of the chain is the j-th chunk hashed onto the key before.
  lemma ChainAt(hash: Hash, step: nat, parent: Key, tokens: seq<Token>, j: nat)
    requires step > 0 && Times(j, step) + step <= |tokens|
    ensures var chain, m := Chain(hash, step, parent, tokens), Times(j, step);
            && j < |chain|
            && chain[j] == Digest(hash, LastKey(parent, chain[..j]), tokens[m..m + step])
  {
    hide Digest;
    var m := Times(j, step);
    FoldInParts(hash, step, parent, tokens, j);
    var first := Chain(hash, step, parent, tokens[..m]);
    ChunksFit(m, step, j);
    ChunksFit(m, step, j + 1);
    assert |first| == j;
    var rest := tokens[m..];
    ChainUnfolds(hash, step, LastKey(parent, first), rest);
    assert rest[..step] == tokens[m..m + step];
    var chain := Chain(hash, step, parent, tokens);
    assert chain[..j] == first;
  }

  lemma {:induction false} HitsAt(resident: set<Key>, keys: seq<Key>, j: nat)
    requires j <= |keys| && (forall n :: 0 <= n < j ==> keys[n] in resident) && (j < |keys| ==> keys[j] !in resident)
    ensures Hits(resident, keys) == j
  {
    if j > 0 {
      assert forall n :: 0 <= n < j - 1 ==> keys[1..][n] == keys[n + 1];
      HitsAt(resident, keys[1..], j - 1);
    }
  }
}
