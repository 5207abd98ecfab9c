// What each call does to the index, said without its loop: which keys it
// admits, commits, drops, and what it leaves alone.
module StoreEffects {
  import opened Common
  import opened SpaceAllocator
  import opened ObjectStore

  // ---- reserve ----

  // Existing keys keep their placement; every grant names the placement now in
  // the index; new keys are uncommitted; and unless space ran out every
  // admissible key of the batch has been granted.
  ghost predicate Admitted(st: Store, keys: seq<Key>, r: ReserveRun) {
    && (forall k :: k in st.index ==> k in r.store.index && r.store.index[k] == st.index[k])
    && (forall k :: k in r.store.index && k !in st.index ==> k in keys && Admissible(k) && !r.store.index[k].committed)
    && (forall i :: 0 <= i < |r.accepted| ==> Granted(r.store, keys, r.accepted[i]))
    && (!r.exhausted ==> forall k :: k in keys && Admissible(k) ==> k in r.store.index)
    && r.store.dirty == st.dirty && r.store.isOpen == st.isOpen && r.store.pins == st.pins
  }

  ghost predicate Granted(st: Store, keys: seq<Key>, g: Grant) {
    g.key in keys && g.key in st.index && g.slot == st.index[g.key].slot && g.generation == st.index[g.key].generation
  }

  lemma {:induction false} ReserveEffect(st: Store, keys: seq<Key>)
    requires st.alloc.Valid()
    ensures Admitted(st, keys, ReserveKeys(st, keys))
  {
    hide ReserveStep;
    if keys != [] {
      var n := |keys| - 1;
      ReserveEffect(st, keys[..n]);
      ReserveStepEffect(st, keys[..n], ReserveKeys(st, keys[..n]), keys[n]);
      assert keys == keys[..n] + [keys[n]];
    }
  }

  lemma ReserveStepEffect(st: Store, keys: seq<Key>, r: ReserveRun, key: Key)
    requires r.store.alloc.Valid() && Admitted(st, keys, r)
    ensures Admitted(st, keys + [key], ReserveStep(r, key))
  {
    hide Alloc.Valid, ReserveOne;
    var all, r' := keys + [key], ReserveStep(r, key);
    forall i | 0 <= i < |r'.accepted|
      ensures Granted(r'.store, all, r'.accepted[i])
    {
      assert i < |r.accepted| ==> Granted(r.store, keys, r.accepted[i]) && r'.accepted[i] == r.accepted[i];
    }
  }

  // ---- commit ----

  ghost predicate NowCommitted(st: Store, st': Store, k: Key) {
    k in st.index && k in st'.index && !st.index[k].committed && st'.index[k].committed
  }

  ghost predicate BecameCommitted(st: Store, st': Store, s: nat) {
    exists k :: NowCommitted(st, st', k) && st.index[k].slot == s
  }

  // When the call succeeds every reserved key of the batch is committed; keys
  // outside the batch are untouched; and the slots handed to the allocator are
  // exactly those of the keys that became committed.
  ghost predicate CommitFacts(w: World, keys: seq<Key>, r: CommitRun) {
    var st, st' := w.store, r.w.store;
    && st'.index.Keys == st.index.Keys
    && (r.ok ==> forall k :: k in keys && k in st.index ==> st'.index[k].committed)
    && (forall k :: k in st.index && (k !in keys || st.index[k].committed) ==> st'.index[k] == st.index[k])
    && (forall k :: k in st.index ==>
          st'.index[k].slot == st.index[k].slot && st'.index[k].generation == st.index[k].generation)
    && (forall s :: s in r.slots <==> BecameCommitted(st, st', s))
    && (r.ok && r.slots == [] ==> r.w == w)
  }

  lemma {:induction false} CommitEffect(cfg: Config, w: World, keys: seq<Key>, outs: seq<WriteOutcome>)
    requires |outs| == |keys|
    ensures CommitFacts(w, keys, CommitKeys(cfg, w, keys, outs))
  {
    hide CommitOneKey, CommitFacts;
    if keys == [] {
      NothingToCommit(w);
    } else {
      var n := |keys| - 1;
      assert keys == keys[..n] + [keys[n]];
      CommitEffect(cfg, w, keys[..n], outs[..n]);
      CommitStepEffect(cfg, w, keys[..n], CommitKeys(cfg, w, keys[..n], outs[..n]), keys[n], outs[n]);
    }
  }

  lemma NothingToCommit(w: World)
    ensures CommitFacts(w, [], CommitRun(w, [], true, {}))
  {
  }

  lemma CommitStepEffect(cfg: Config, w: World, keys: seq<Key>, r: CommitRun, key: Key, o: WriteOutcome)
    requires CommitFacts(w, keys, r)
    ensures CommitFacts(w, keys + [key], if !r.ok || !Commits(r.w.store, key) then r else CommitOneKey(cfg, r, key, o))
  {
    hide HeaderFor, BecameCommitted;
    if r.ok && Commits(r.w.store, key) {
      var r' := CommitOneKey(cfg, r, key, o);
      forall s
        ensures s in r'.slots <==> BecameCommitted(w.store, r'.w.store, s)
      {
        CommitStepSlots(w.store, r.w.store, r'.w.store, key, o.Done?, s);
      }
    }
  }

  lemma CommitStepSlots(st: Store, mid: Store, st': Store, key: Key, done: bool, s: nat)
    requires mid.index.Keys == st.index.Keys && Commits(mid, key) && !st.index[key].committed
    requires st'.index.Keys == st.index.Keys
    requires forall k :: k in st.index && k != key ==> st'.index[k] == mid.index[k]
    requires st'.index[key].committed == done
    ensures BecameCommitted(st, st', s) <==> BecameCommitted(st, mid, s) || (done && st.index[key].slot == s)
  {
    if BecameCommitted(st, mid, s) {
      var k :| NowCommitted(st, mid, k) && st.index[k].slot == s;
      assert NowCommitted(st, st', k);
    }
    if done && st.index[key].slot == s {
      assert NowCommitted(st, st', key);
    }
    if BecameCommitted(st, st', s) {
      var k :| NowCommitted(st, st', k) && st.index[k].slot == s;
      assert k == key || NowCommitted(st, mid, k);
    }
  }

  // ---- abort and release ----

  predicate Droppable(st: Store, key: Key, release: bool) {
    if release then Releasable(st, key) else Commits(st, key)
  }

  ghost predicate DroppedSlot(st: Store, keys: seq<Key>, release: bool, s: nat) {
    exists k :: k in keys && Droppable(st, k, release) && st.index[k].slot == s
  }

  // Exactly the droppable keys of the batch disappear: for release the
  // committed unpinned ones, for abort the uncommitted ones.
  lemma {:induction false} DropEffect(st: Store, keys: seq<Key>, release: bool)
    ensures var r := DropKeys(st, keys, release);
            && (forall k :: k in r.store.index <==> k in st.index && !(k in keys && Droppable(st, k, release)))
            && (forall k :: k in r.store.index ==> r.store.index[k] == st.index[k])
            && (forall s :: s in r.slots <==> DroppedSlot(st, keys, release, s))
            && (forall s :: s in r.store.owner <==> s in st.owner && s !in r.slots)
            && (forall s :: s in r.store.owner ==> r.store.owner[s] == st.owner[s])
  {
    if keys != [] {
      var n := |keys| - 1;
      assert keys == keys[..n] + [keys[n]];
      DropEffect(st, keys[..n], release);
      var r, r', key := DropKeys(st, keys[..n], release), DropKeys(st, keys, release), keys[n];
      forall s
        ensures s in r'.slots <==> DroppedSlot(st, keys, release, s)
      {
        if s in r.slots {
          assert DroppedSlot(st, keys[..n], release, s);
          var k :| k in keys[..n] && Droppable(st, k, release) && st.index[k].slot == s;
          assert k in keys;
        }
        if s in r'.slots && s !in r.slots {
          assert key in keys && Droppable(st, key, release) && st.index[key].slot == s;
        }
        if k :| k in keys && Droppable(st, k, release) && st.index[k].slot == s {
          assert k == key || (k in keys[..n] && DroppedSlot(st, keys[..n], release, s));
        }
      }
    }
  }

  // A pinned key survives every release.
  lemma PinnedSurvivesRelease(st: Store, keys: seq<Key>, k: Key)
    requires st.alloc.Valid() && k in st.index && k in st.pins && st.pins[k] > 0
    ensures k in Release(st, keys).index && Release(st, keys).index[k] == st.index[k]
  {
    DropEffect(st, keys, true);
  }

  // A committed key survives every abort.
  lemma CommittedSurvivesAbort(st: Store, keys: seq<Key>, k: Key)
    requires st.alloc.Valid() && k in st.index && st.index[k].committed
    ensures k in Abort(st, keys).index && Abort(st, keys).index[k] == st.index[k]
  {
    DropEffect(st, keys, false);
  }
}
