// The invariant of the store together with its media, and its preservation
// by every entry point, every write outcome, and crash-then-open.
module StoreInvariant {
  import opened Common
  import opened HeaderCodec
  import opened CheckpointCodec
  import opened SpaceAllocator
  import opened ObjectStore

  datatype Snapshot = Snapshot(sequence: nat, entries: seq<Entry>)

  // The world, plus what only an observer of the whole run knows: the last
  // checkpoint whose write completed, and the slots on which a header write
  // was attempted under their current reservation.
  datatype System = System(w: World, newest: Option<Snapshot>, attempted: set<nat>)

  ghost predicate Matches(cfg: Config, m: Media, e: Entry) {
    HeaderVerdict(cfg, m, e).Accepted?
  }

  // A complete payload indistinguishable from key's is at slot.
  ghost predicate Holds(cfg: Config, m: Media, slot: nat, key: Key) {
    && slot < |m.payloads| && m.payloads[slot].Some?
    && FingerprintOf(cfg.digests, m.payloads[slot].value) == FingerprintOf(cfg.digests, key)
  }

  // ---- the invariant ----

  ghost predicate Entitled(cfg: Config, st: Store, k: Key, live: Live) {
    && Admissible(k) && live.generation < LE.U64 && live.commitSeq < LE.U64
    && live.slot in st.owner && st.owner[live.slot] == k
  }

  ghost predicate Occupied(cfg: Config, st: Store, s: nat, k: Key) {
    && k in st.index && st.index[k].slot == s
    && s < |st.alloc.states| && st.alloc.states[s] in {Reserved, Committed}
    && (!st.index[k].committed ==> st.alloc.states[s] == Reserved)
  }

  // index and owner are inverse maps, and an owned slot is never free, queued
  // or being zeroed.
  ghost predicate Owned(cfg: Config, st: Store) {
    && st.alloc.Valid() && st.alloc.total == cfg.total
    && (forall k :: k in st.index ==> Entitled(cfg, st, k, st.index[k]))
    && (forall s :: s in st.owner ==> Occupied(cfg, st, s, st.owner[s]))
  }

  ghost predicate BackedBy(cfg: Config, m: Media, k: Key, live: Live) {
    var v := HeaderVerdict(cfg, m, EntryFor(cfg, k, live));
    v.Accepted? && v.fields.commitSeq == live.commitSeq && Holds(cfg, m, live.slot, k)
  }

  // Every committed key has its own header and its own payload on media.
  ghost predicate Backed(cfg: Config, w: World) {
    && |w.media.headers| == |w.media.payloads| == cfg.total
    && forall k :: k in w.store.index && w.store.index[k].committed ==> BackedBy(cfg, w.media, k, w.store.index[k])
  }

  ghost predicate WellFormed(cfg: Config, es: seq<Entry>) {
    && (forall e :: e in es ==>
          Storable(e) && Admissible(e.key) && e.slot < cfg.total && e.payloadBytes == cfg.payloadBytes)
    && (forall i, j :: 0 <= i < j < |es| ==> es[i].key != es[j].key && es[i].slot != es[j].slot)
  }

  // The container that recovery would read is the last one completely written.
  ghost predicate Anchored(cfg: Config, m: Media, newest: Option<Snapshot>) {
    var seqs := Sequences(cfg.digests, m.containers);
    && |m.containers| == CONTAINER_COUNT && DistinctSequences(seqs)
    && (newest.None? ==> SelectContainer(seqs) == None)
    && (newest.Some? ==>
          && SelectContainer(seqs).Some?
          && DecodeCheckpoint(cfg.digests, m.containers[SelectContainer(seqs).value]) ==
             Checkpoint(newest.value.sequence, newest.value.entries)
          && WellFormed(cfg, newest.value.entries))
  }

  // An entry of the newest checkpoint that recovery would accept tells the
  // truth, and its slot cannot be handed out or overwritten.
  ghost predicate Guards(cfg: Config, w: World, attempted: set<nat>, e: Entry) {
    Matches(cfg, w.media, e) ==>
      && Holds(cfg, w.media, e.slot, e.key)
      && e.slot < |w.store.alloc.states| && w.store.alloc.states[e.slot] != Free
      && (e.slot in w.store.owner && Commits(w.store, w.store.owner[e.slot]) ==> e.slot in attempted)
  }

  ghost predicate Guarded(cfg: Config, w: World, newest: Option<Snapshot>, attempted: set<nat>) {
    newest.Some? ==> forall e :: e in newest.value.entries ==> Guards(cfg, w, attempted, e)
  }

  ghost predicate Inv(cfg: Config, sys: System) {
    && Owned(cfg, sys.w.store) && Backed(cfg, sys.w)
    && Anchored(cfg, sys.w.media, sys.newest) && Guarded(cfg, sys.w, sys.newest, sys.attempted)
  }

  lemma InvParts(cfg: Config, sys: System)
    requires Inv(cfg, sys)
    ensures Owned(cfg, sys.w.store) && sys.w.store.alloc.Valid() && sys.w.store.alloc.total == cfg.total
    ensures Anchored(cfg, sys.w.media, sys.newest)
  {
  }

  // ---- headers ----

  lemma UnreadableNeverMatches(cfg: Config, m: Media, e: Entry)
    requires e.slot < |m.headers| && Unreadable(cfg.digests, m.headers[e.slot])
    ensures !Matches(cfg, m, e)
  {
  }

  lemma SameHeaderSameVerdict(cfg: Config, m: Media, m': Media, e: Entry)
    requires |m.headers| == |m'.headers| && (e.slot < |m.headers| ==> m.headers[e.slot] == m'.headers[e.slot])
    ensures HeaderVerdict(cfg, m, e) == HeaderVerdict(cfg, m', e)
  {
  }

  // A slot whose header was written for `key` matches an entry only if the
  // two keys share a fingerprint; it matches key's own entry.
  lemma OwnHeaderVerdict(cfg: Config, m: Media, key: Key, live: Live, seqNo: nat, e: Entry)
    requires cfg.Valid() && Admissible(key) && live.generation < LE.U64 && seqNo < LE.U64
    requires live.slot < |m.headers| && m.headers[live.slot] == HeaderFor(cfg, key, live, seqNo)
    requires e.slot == live.slot && Admissible(e.key) && e.payloadBytes == cfg.payloadBytes
    ensures Matches(cfg, m, e) ==> FingerprintOf(cfg.digests, key) == FingerprintOf(cfg.digests, e.key)
    ensures e.key == key && e.generation == live.generation ==>
              Matches(cfg, m, e) && HeaderVerdict(cfg, m, e).fields.commitSeq == seqNo
  {
    DecodeOfImage(cfg.digests, key, cfg.payloadBytes, live.generation, seqNo, ExpectationOf(e));
  }

  // ---- reserve ----

  lemma ClaimKeeps(cfg: Config, w: World, newest: Option<Snapshot>, attempted: set<nat>, key: Key)
    requires Inv(cfg, System(w, newest, attempted)) && Admissible(key) && key !in w.store.index
    requires NextFree(w.store.alloc) < w.store.alloc.total
    requires w.store.alloc.generations[NextFree(w.store.alloc)] < LE.U64
    ensures Inv(cfg, System(w.(store := Claim(w.store, key)), newest, attempted))
  {
    hide HeaderVerdict, Holds, Anchored, ReserveOne;
    var st, a := w.store, w.store.alloc;
    var slot := NextFree(a);
    NextFreeIsFree(a);
    var st' := Claim(st, key);
    assert slot !in st.owner;
    hide Alloc.Valid;
    forall k | k in st'.index
      ensures Entitled(cfg, st', k, st'.index[k])
    {
      assert k != key ==> Entitled(cfg, st, k, st.index[k]);
    }
    forall s | s in st'.owner
      ensures Occupied(cfg, st', s, st'.owner[s])
    {
      assert s != slot ==> Occupied(cfg, st, s, st.owner[s]);
    }
    if newest.Some? {
      forall e | e in newest.value.entries
        ensures Guards(cfg, w.(store := st'), attempted, e)
      {
        assert Guards(cfg, w, attempted, e);
      }
    }
  }

  lemma NextFreeIsFree(a: Alloc)
    requires a.Valid() && NextFree(a) < a.total
    ensures a.states[NextFree(a)] == Free
  {
    assert a.freeList != [] ==> a.freeList[0] in a.freeList;
  }

  ghost predicate SmallGenerations(a: Alloc) {
    forall s :: 0 <= s < |a.generations| ==> a.generations[s] < LE.U64
  }

  lemma {:induction false} ReserveKeeps(cfg: Config, w: World, newest: Option<Snapshot>, attempted: set<nat>,
                                        keys: seq<Key>)
    requires Inv(cfg, System(w, newest, attempted)) && SmallGenerations(w.store.alloc)
    ensures var st := ReserveKeys(w.store, keys).store;
            Inv(cfg, System(w.(store := st), newest, attempted)) && st.alloc.generations == w.store.alloc.generations
            && st.isOpen == w.store.isOpen
  {
    hide Inv, Owned, Anchored, Claim, Alloc.Valid, NextFree;
    InvParts(cfg, System(w, newest, attempted));
    if keys == [] {
      assert w.(store := w.store) == w;
    } else {
      var front, key := keys[..|keys| - 1], keys[|keys| - 1];
      ReserveKeeps(cfg, w, newest, attempted, front);
      var r := ReserveKeys(w.store, front);
      InvParts(cfg, System(w.(store := r.store), newest, attempted));
      if !r.exhausted && Admissible(key) && key !in r.store.index && NextFree(r.store.alloc) < r.store.alloc.total {
        Sizes(r.store.alloc);
        ClaimKeeps(cfg, w.(store := r.store), newest, attempted, key);
        ClaimShape(r.store, key);
        assert w.(store := r.store).(store := Claim(r.store, key)) == w.(store := Claim(r.store, key));
      }
    }
  }

  lemma ClaimShape(st: Store, key: Key)
    requires st.alloc.Valid() && NextFree(st.alloc) < st.alloc.total
    ensures Claim(st, key).alloc.generations == st.alloc.generations && Claim(st, key).isOpen == st.isOpen
  {
  }

  // ---- payload writes ----

  function WritePayload(w: World, key: Key, complete: bool): World
    requires key in w.store.index
  {
    var slot := w.store.index[key].slot;
    w.(media := w.media.(payloads := SetAt(w.media.payloads, slot, if complete then Some(key) else None)))
  }

  // An entry of the newest checkpoint that the header on the slot satisfies.
  ghost predicate StaleMatch(cfg: Config, m: Media, newest: Option<Snapshot>, slot: nat) {
    newest.Some? && exists e :: e in newest.value.entries && e.slot == slot && Matches(cfg, m, e)
  }

  lemma PayloadKeeps(cfg: Config, sys: System, key: Key, complete: bool)
    requires Inv(cfg, sys) && Commits(sys.w.store, key)
    requires !StaleMatch(cfg, sys.w.media, sys.newest, sys.w.store.index[key].slot)
    ensures Inv(cfg, sys.(w := WritePayload(sys.w, key, complete)))
  {
    hide Decode, Anchored, Alloc.Valid, BackedBy, Guards;
    var st := sys.w.store;
    var slot := st.index[key].slot;
    var w' := WritePayload(sys.w, key, complete);
    assert Entitled(cfg, st, key, st.index[key]);
    SameContainers(cfg, sys.w.media, w'.media, sys.newest);
    forall k | k in st.index && st.index[k].committed
      ensures BackedBy(cfg, w'.media, k, st.index[k])
    {
      assert Entitled(cfg, st, k, st.index[k]);
      PayloadBacked(cfg, sys.w, key, complete, k);
    }
    if sys.newest.Some? {
      forall e | e in sys.newest.value.entries
        ensures Guards(cfg, w', sys.attempted, e)
      {
        PayloadGuards(cfg, sys, key, complete, e);
      }
    }
  }

  lemma PayloadBacked(cfg: Config, w: World, key: Key, complete: bool, k: Key)
    requires key in w.store.index && k in w.store.index && w.store.index[k].slot != w.store.index[key].slot
    requires BackedBy(cfg, w.media, k, w.store.index[k])
    ensures BackedBy(cfg, WritePayload(w, key, complete).media, k, w.store.index[k])
  {
    hide Decode, FingerprintOf;
  }

  lemma PayloadGuards(cfg: Config, sys: System, key: Key, complete: bool, e: Entry)
    requires Commits(sys.w.store, key) && !(e.slot == sys.w.store.index[key].slot && Matches(cfg, sys.w.media, e))
    requires sys.w.store.index[key].slot in sys.w.store.owner && sys.w.store.owner[sys.w.store.index[key].slot] == key
    requires Guards(cfg, sys.w, sys.attempted, e)
    ensures Guards(cfg, WritePayload(sys.w, key, complete), sys.attempted, e)
  {
    hide Decode, FingerprintOf;
  }

  lemma SameContainers(cfg: Config, m: Media, m': Media, newest: Option<Snapshot>)
    requires m.containers == m'.containers && Anchored(cfg, m, newest)
    ensures Anchored(cfg, m', newest)
  {
  }

  // ---- commit ----

  // The caller made key's payload durable before asking for its commit.
  ghost predicate OneReady(cfg: Config, w: World, key: Key, o: WriteOutcome) {
    && cfg.Valid() && Commits(w.store, key) && w.store.commitSeq + 1 < LE.U64
    && (o.Torn? ==> Unreadable(cfg.digests, o.junk))
    && w.store.index[key].slot < |w.media.payloads|
    && w.media.payloads[w.store.index[key].slot] == Some(key)
  }

  lemma CommitOneKeeps(cfg: Config, r: CommitRun, newest: Option<Snapshot>, attempted: set<nat>, key: Key,
                       o: WriteOutcome)
    requires Inv(cfg, System(r.w, newest, attempted)) && OneReady(cfg, r.w, key, o)
    ensures Inv(cfg, System(CommitOneKey(cfg, r, key, o).w, newest, attempted + {r.w.store.index[key].slot}))
  {
    hide Anchored, Owned, BackedBy, Guards, HeaderFor, Unreadable;
    var st := r.w.store;
    var w' := CommitOneKey(cfg, r, key, o).w;
    CommitOneOwned(cfg, r, newest, attempted, key, o);
    SameContainers(cfg, r.w.media, w'.media, newest);
    assert |w'.media.headers| == |w'.media.payloads| == cfg.total;
    hide CommitOneKey;
    forall k | k in w'.store.index && w'.store.index[k].committed
      ensures BackedBy(cfg, w'.media, k, w'.store.index[k])
    {
      CommitOneBacked(cfg, r, newest, attempted, key, o, k);
    }
    if newest.Some? {
      forall e | e in newest.value.entries
        ensures Guards(cfg, w', attempted + {st.index[key].slot}, e)
      {
        EntryWellFormed(cfg, r.w.media, newest, e);
        CommitOneGuards(cfg, r, newest, attempted, key, o, e);
      }
    }
  }

  lemma CommitOneOwned(cfg: Config, r: CommitRun, newest: Option<Snapshot>, attempted: set<nat>, key: Key,
                       o: WriteOutcome)
    requires Inv(cfg, System(r.w, newest, attempted)) && OneReady(cfg, r.w, key, o)
    ensures Owned(cfg, CommitOneKey(cfg, r, key, o).w.store)
  {
    hide HeaderFor, Alloc.Valid, Backed, Anchored, Guarded;
    var st, st' := r.w.store, CommitOneKey(cfg, r, key, o).w.store;
    forall k | k in st'.index
      ensures Entitled(cfg, st', k, st'.index[k])
    {
      assert Entitled(cfg, st, k, st.index[k]);
    }
    forall s | s in st'.owner
      ensures Occupied(cfg, st', s, st'.owner[s])
    {
      assert Occupied(cfg, st, s, st.owner[s]);
    }
  }

  lemma CommitOneBacked(cfg: Config, r: CommitRun, newest: Option<Snapshot>, attempted: set<nat>, key: Key,
                        o: WriteOutcome, k: Key)
    requires Inv(cfg, System(r.w, newest, attempted)) && OneReady(cfg, r.w, key, o)
    requires var st' := CommitOneKey(cfg, r, key, o).w.store; k in st'.index && st'.index[k].committed
    ensures var w' := CommitOneKey(cfg, r, key, o).w; BackedBy(cfg, w'.media, k, w'.store.index[k])
  {
    hide HeaderFor, Alloc.Valid, Anchored, Guarded, Decode, FingerprintOf, Unreadable;
    var st, m, live := r.w.store, r.w.media, r.w.store.index[key];
    var w' := CommitOneKey(cfg, r, key, o).w;
    assert Entitled(cfg, st, key, live) && Entitled(cfg, st, k, st.index[k]);
    if k == key {
      assert Occupied(cfg, st, live.slot, key);
      OwnHeaderVerdict(cfg, w'.media, key, live, st.commitSeq + 1, EntryFor(cfg, key, w'.store.index[key]));
    } else {
      assert BackedBy(cfg, m, k, st.index[k]);
    }
  }

  lemma EntryWellFormed(cfg: Config, m: Media, newest: Option<Snapshot>, e: Entry)
    requires Anchored(cfg, m, newest) && newest.Some? && e in newest.value.entries
    ensures Storable(e) && Admissible(e.key) && e.slot < cfg.total && e.payloadBytes == cfg.payloadBytes
  {
  }

  lemma CommitOneGuards(cfg: Config, r: CommitRun, newest: Option<Snapshot>, attempted: set<nat>, key: Key,
                        o: WriteOutcome, e: Entry)
    requires Inv(cfg, System(r.w, newest, attempted)) && OneReady(cfg, r.w, key, o)
    requires newest.Some? && e in newest.value.entries
    requires Admissible(e.key) && e.slot < cfg.total && e.payloadBytes == cfg.payloadBytes
    ensures Guards(cfg, CommitOneKey(cfg, r, key, o).w, attempted + {r.w.store.index[key].slot}, e)
  {
    hide Decode, Anchored, HeaderFor, Alloc.Valid, FingerprintOf, Unreadable;
    var st, m := r.w.store, r.w.media;
    var live, seqNo := st.index[key], st.commitSeq + 1;
    var w' := CommitOneKey(cfg, r, key, o).w;
    assert Guards(cfg, r.w, attempted, e);
    assert Entitled(cfg, st, key, live) && Occupied(cfg, st, live.slot, key);
    if e.slot != live.slot {
      SameHeaderSameVerdict(cfg, m, w'.media, e);
      if e.slot in st.owner {
        assert Occupied(cfg, st, e.slot, st.owner[e.slot]);
      }
    } else if o.Torn? {
      UnreadableNeverMatches(cfg, w'.media, e);
    } else if o.NotWritten? {
      SameHeaderSameVerdict(cfg, m, w'.media, e);
    } else {
      OwnHeaderVerdict(cfg, w'.media, key, live, seqNo, e);
    }
  }

  // Nothing but flags and sequence numbers changed in the index.
  ghost predicate SamePlaces(st: Store, st': Store) {
    && st'.index.Keys == st.index.Keys && st'.owner == st.owner && st'.alloc == st.alloc
    && st'.isOpen == st.isOpen && st'.dirty == st.dirty
    && forall k :: k in st.index ==>
         && st'.index[k].slot == st.index[k].slot && st'.index[k].generation == st.index[k].generation
         && (st.index[k].committed ==> st'.index[k] == st.index[k])
  }

  ghost predicate CommitReady(cfg: Config, w: World, keys: seq<Key>, outs: seq<WriteOutcome>) {
    && |outs| == |keys| && w.store.commitSeq + |keys| < LE.U64
    && (forall i :: 0 <= i < |outs| && outs[i].Torn? ==> Unreadable(cfg.digests, outs[i].junk))
    && (forall k :: k in keys && Commits(w.store, k) ==>
          w.store.index[k].slot < |w.media.payloads| && w.media.payloads[w.store.index[k].slot] == Some(k))
  }

  ghost predicate CommittedSlots(st: Store, slots: seq<nat>) {
    forall s :: s in slots ==> s in st.owner && st.owner[s] in st.index && st.index[st.owner[s]].committed
  }

  lemma {:induction false} CommitLoopKeeps(cfg: Config, sys: System, keys: seq<Key>, outs: seq<WriteOutcome>)
    requires cfg.Valid() && Inv(cfg, sys) && CommitReady(cfg, sys.w, keys, outs)
    ensures var r := CommitKeys(cfg, sys.w, keys, outs);
            && Inv(cfg, System(r.w, sys.newest, sys.attempted + r.tried))
            && SamePlaces(sys.w.store, r.w.store) && CommittedSlots(r.w.store, r.slots)
            && r.w.media.payloads == sys.w.media.payloads
            && r.w.store.commitSeq <= sys.w.store.commitSeq + |keys|
  {
    hide Owned, Backed, Anchored, Guarded, CommitOneKey;
    if keys == [] {
      assert sys == System(sys.w, sys.newest, sys.attempted + {});
    } else {
      var n := |keys| - 1;
      var r := CommitKeys(cfg, sys.w, keys[..n], outs[..n]);
      CommitLoopKeeps(cfg, sys, keys[..n], outs[..n]);
      if r.ok && Commits(r.w.store, keys[n]) {
        assert keys[n] in keys && Commits(sys.w.store, keys[n]);
        CommitOneKeeps(cfg, r, sys.newest, sys.attempted + r.tried, keys[n], outs[n]);
        CommitOneShape(cfg, r, keys[n], outs[n]);
        assert (sys.attempted + r.tried) + {r.w.store.index[keys[n]].slot} ==
               sys.attempted + (r.tried + {r.w.store.index[keys[n]].slot});
        OwnerOfKey(cfg, r.w, sys.newest, sys.attempted + r.tried, keys[n]);
      }
    }
  }

  lemma OwnerOfKey(cfg: Config, w: World, newest: Option<Snapshot>, attempted: set<nat>, k: Key)
    requires Inv(cfg, System(w, newest, attempted)) && k in w.store.index
    ensures w.store.index[k].slot in w.store.owner && w.store.owner[w.store.index[k].slot] == k
  {
    assert Entitled(cfg, w.store, k, w.store.index[k]);
  }

  lemma CommitOneShape(cfg: Config, r: CommitRun, key: Key, o: WriteOutcome)
    requires Commits(r.w.store, key)
    ensures var r' := CommitOneKey(cfg, r, key, o);
            var slot := r.w.store.index[key].slot;
            && SamePlaces(r.w.store, r'.w.store) && r'.tried == r.tried + {slot}
            && r'.w.store.commitSeq == r.w.store.commitSeq + 1
            && r'.w.media.payloads == r.w.media.payloads && r'.w.media.containers == r.w.media.containers
            && (r'.slots == if o.Done? then r.slots + [slot] else r.slots) && r'.ok == o.Done?
            && (o.Done? ==> r'.w.store.index[key].committed)
  {
    hide HeaderFor;
  }

  lemma MarkKeeps(cfg: Config, sys: System, slots: seq<nat>)
    requires Inv(cfg, sys) && CommittedSlots(sys.w.store, slots)
    ensures Inv(cfg, sys.(w := MarkCommitted(sys.w, slots)))
  {
    CommitAllStates(sys.w.store.alloc, slots);
    assert sys.w.store.alloc.Valid();
    hide Decode, Anchored, Alloc.Valid, CommitAll;
    StatesMoved(cfg, sys, CommitAll(sys.w.store.alloc, slots), true);
  }

  // Replacing the allocator is harmless when owned slots keep a live state
  // and nothing that matters becomes free.
  lemma StatesMoved(cfg: Config, sys: System, a': Alloc, dirty: bool)
    requires Inv(cfg, sys) && a'.Valid() && a'.total == cfg.total
    requires |a'.states| == |sys.w.store.alloc.states|
    requires forall s :: s in sys.w.store.owner && s < |a'.states| ==>
               && a'.states[s] in {Reserved, Committed}
               && (Commits(sys.w.store, sys.w.store.owner[s]) ==> a'.states[s] == Reserved)
    requires forall s :: 0 <= s < |a'.states| && sys.w.store.alloc.states[s] != Free ==> a'.states[s] != Free
    ensures Inv(cfg, sys.(w := sys.w.(store := sys.w.store.(alloc := a', dirty := dirty))))
  {
    hide Decode, Anchored, Alloc.Valid;
    var st := sys.w.store;
    var st' := st.(alloc := a', dirty := dirty);
    forall k | k in st'.index
      ensures Entitled(cfg, st', k, st'.index[k])
    {
      assert Entitled(cfg, st, k, st.index[k]);
    }
    forall s | s in st'.owner
      ensures Occupied(cfg, st', s, st'.owner[s])
    {
      assert Occupied(cfg, st, s, st.owner[s]);
    }
    if sys.newest.Some? {
      forall e | e in sys.newest.value.entries
        ensures Guards(cfg, sys.w.(store := st'), sys.attempted, e)
      {
        assert Guards(cfg, sys.w, sys.attempted, e);
      }
    }
  }

  // ---- abort and release ----

  lemma DropKeeps(cfg: Config, w: World, newest: Option<Snapshot>, attempted: set<nat>, slots: seq<nat>, key: Key)
    requires Inv(cfg, System(w, newest, attempted)) && key in w.store.index
    ensures var st' := Drop(DropRun(w.store, slots), key).store;
            Inv(cfg, System(w.(store := st'), newest, attempted)) && st'.owner.Keys <= w.store.owner.Keys
            && w.store.index[key].slot !in st'.owner
  {
    hide Matches, Holds, BackedBy, Anchored, Alloc.Valid;
    var st := w.store;
    var st' := Drop(DropRun(st, slots), key).store;
    assert Entitled(cfg, st, key, st.index[key]);
    forall k | k in st'.index
      ensures Entitled(cfg, st', k, st'.index[k])
    {
      assert Entitled(cfg, st, k, st.index[k]);
    }
    forall s | s in st'.owner
      ensures Occupied(cfg, st', s, st'.owner[s])
    {
      assert Occupied(cfg, st, s, st.owner[s]);
    }
    if newest.Some? {
      forall e | e in newest.value.entries
        ensures Guards(cfg, w.(store := st'), attempted, e)
      {
        assert Guards(cfg, w, attempted, e);
        assert e.slot in st'.owner ==> Occupied(cfg, st', e.slot, st'.owner[e.slot]);
      }
    }
  }

  lemma {:induction false} DropLoopKeeps(cfg: Config, w: World, newest: Option<Snapshot>, attempted: set<nat>,
                                         keys: seq<Key>, release: bool)
    requires Inv(cfg, System(w, newest, attempted))
    ensures var r := DropKeys(w.store, keys, release);
            && Inv(cfg, System(w.(store := r.store), newest, attempted))
            && r.store.owner.Keys <= w.store.owner.Keys
            && forall s :: s in r.slots ==> s !in r.store.owner
  {
    hide Owned, Backed, Anchored, Guarded;
    if keys == [] {
      assert w.(store := w.store) == w;
    } else {
      var r, key := DropKeys(w.store, keys[..|keys| - 1], release), keys[|keys| - 1];
      DropLoopKeeps(cfg, w, newest, attempted, keys[..|keys| - 1], release);
      if (if release then Releasable(r.store, key) else Commits(r.store, key)) {
        DropKeeps(cfg, w.(store := r.store), newest, attempted, r.slots, key);
        assert w.(store := r.store).(store := Drop(r, key).store) == w.(store := Drop(r, key).store);
      }
    }
  }

  lemma RetireKeeps(cfg: Config, sys: System, slots: seq<nat>, from: SlotState, dirty: bool)
    requires Inv(cfg, sys) && from in {Reserved, Committed}
    requires forall s :: s in slots ==> s !in sys.w.store.owner
    ensures var a := RetireAll(sys.w.store.alloc, slots, from);
            Inv(cfg, sys.(w := sys.w.(store := sys.w.store.(alloc := a, dirty := dirty))))
  {
    var st := sys.w.store;
    var a' := RetireAll(st.alloc, slots, from);
    RetireAllStates(st.alloc, slots, from);
    assert st.alloc.Valid() && a'.Valid() && a'.total == cfg.total;
    hide Decode, Anchored, Alloc.Valid, RetireAll;
    forall s | s in st.owner && s < |a'.states|
      ensures a'.states[s] in {Reserved, Committed} && (Commits(st, st.owner[s]) ==> a'.states[s] == Reserved)
    {
      assert Occupied(cfg, st, s, st.owner[s]);
    }
    StatesMoved(cfg, sys, a', dirty);
  }

  lemma AbortKeeps(cfg: Config, sys: System, keys: seq<Key>)
    requires Inv(cfg, sys)
    ensures Inv(cfg, sys.(w := sys.w.(store := Abort(sys.w.store, keys))))
  {
    assert sys.w.store.alloc.Valid();
    hide Owned, Backed, Anchored, Guarded, DropKeys, RetireAll;
    DropLoopKeeps(cfg, sys.w, sys.newest, sys.attempted, keys, false);
    var r := DropKeys(sys.w.store, keys, false);
    RetireKeeps(cfg, sys.(w := sys.w.(store := r.store)), r.slots, Reserved, r.store.dirty);
  }

  lemma ReleaseKeeps(cfg: Config, sys: System, keys: seq<Key>)
    requires Inv(cfg, sys)
    ensures Inv(cfg, sys.(w := sys.w.(store := Release(sys.w.store, keys))))
  {
    assert sys.w.store.alloc.Valid();
    hide Owned, Backed, Anchored, Guarded, DropKeys, RetireAll;
    DropLoopKeeps(cfg, sys.w, sys.newest, sys.attempted, keys, true);
    var r := DropKeys(sys.w.store, keys, true);
    RetireKeeps(cfg, sys.(w := sys.w.(store := r.store)), r.slots, Committed, sys.w.store.dirty || r.slots != []);
  }

  // ---- drain ----

  // Compared with before, a slot is intact or its header is unreadable.
  ghost predicate IntactOrDead(cfg: Config, m: Media, m': Media, s: nat)
    requires s < |m.headers| == |m'.headers| && s < |m.payloads| == |m'.payloads|
  {
    (m'.headers[s] == m.headers[s] && m'.payloads[s] == m.payloads[s]) || Unreadable(cfg.digests, m'.headers[s])
  }

  ghost predicate SameSizes(m: Media, m': Media) {
    |m'.headers| == |m.headers| && |m'.payloads| == |m.payloads| && m'.containers == m.containers
  }

  ghost predicate ZeroOutcomesReal(cfg: Config, outs: seq<ZeroOutcome>) {
    forall i :: 0 <= i < |outs| && outs[i].ZeroCutShort? ==> Unreadable(cfg.digests, outs[i].junk)
  }

  lemma ZerosUnreadable(cfg: Config)
    ensures Unreadable(cfg.digests, LE.Zeros(HEADER_BYTES))
  {
    assert LE.Zeros(HEADER_BYTES)[..8] == LE.Zeros(8);
  }

  lemma {:induction false} DrainLoop(cfg: Config, m: Media, taken: seq<nat>, outs: seq<ZeroOutcome>)
    requires |outs| == |taken| && |m.headers| == |m.payloads| && ZeroOutcomesReal(cfg, outs)
    requires forall s :: s in taken ==> s < |m.headers|
    ensures var r := DrainSlots(m, taken, outs);
            && SameSizes(m, r.media)
            && (forall s :: 0 <= s < |m.headers| ==> IntactOrDead(cfg, m, r.media, s))
            && (forall s :: 0 <= s < |m.headers| && s !in taken ==>
                  r.media.headers[s] == m.headers[s] && r.media.payloads[s] == m.payloads[s])
            && (forall s :: s in r.done ==> s in taken && Unreadable(cfg.digests, r.media.headers[s]))
            && (forall s :: s in r.failed ==> s in taken)
  {
    hide Unreadable;
    if taken != [] {
      var n := |taken| - 1;
      assert ZeroOutcomesReal(cfg, outs[..n]);
      assert taken == taken[..n] + [taken[n]];
      assert taken[n] in taken && forall s :: s in taken[..n] ==> s in taken;
      DrainLoop(cfg, m, taken[..n], outs[..n]);
      var r := DrainSlots(m, taken[..n], outs[..n]);
      ZeroSlotStep(cfg, r.media, taken[n], outs[n]);
      var m' := DrainSlots(m, taken, outs).media;
      forall s | 0 <= s < |m.headers|
        ensures IntactOrDead(cfg, m, m', s)
      {
        assert IntactOrDead(cfg, m, r.media, s) && IntactOrDead(cfg, r.media, m', s);
      }
    }
  }

  lemma ZeroSlotStep(cfg: Config, m: Media, slot: nat, o: ZeroOutcome)
    requires |m.headers| == |m.payloads| && slot < |m.headers|
    requires o.ZeroCutShort? ==> Unreadable(cfg.digests, o.junk)
    ensures var m' := ZeroSlot(m, slot, o);
            && SameSizes(m, m')
            && (forall s :: 0 <= s < |m.headers| ==> IntactOrDead(cfg, m, m', s))
            && (forall s :: 0 <= s < |m.headers| && s != slot ==>
                  m'.headers[s] == m.headers[s] && m'.payloads[s] == m.payloads[s])
            && (o.Zeroed? ==> Unreadable(cfg.digests, m'.headers[slot]))
  {
    hide Unreadable;
    ZerosUnreadable(cfg);
  }

  lemma DrainKeeps(cfg: Config, sys: System, max: nat, outs: seq<ZeroOutcome>)
    requires Inv(cfg, sys) && |outs| == |Taken(sys.w.store.alloc, max)| && ZeroOutcomesReal(cfg, outs)
    ensures Inv(cfg, sys.(w := Drain(sys.w, max, outs)))
  {
    hide Inv, Alloc.Valid, FinishAll, RequeueAll, TakeAll, DrainSlots, Anchored, Owned, Backed, Guarded, IntactOrDead,
         Taken;
    InvParts(cfg, sys);
    var w' := Drain(sys.w, max, outs);
    DrainParts(cfg, sys, max, outs);
    DrainOwned(cfg, sys, w'.store.alloc, w'.media);
    SameContainers(cfg, sys.w.media, w'.media, sys.newest);
    DrainGuards(cfg, sys, w'.store.alloc, w'.media);
    assert w' == World(sys.w.store.(alloc := w'.store.alloc), w'.media);
    InvFrom(cfg, sys.(w := w'));
  }

  lemma InvFrom(cfg: Config, sys: System)
    requires Owned(cfg, sys.w.store) && Backed(cfg, sys.w)
    requires Anchored(cfg, sys.w.media, sys.newest) && Guarded(cfg, sys.w, sys.newest, sys.attempted)
    ensures Inv(cfg, sys)
  {
  }

  // What draining does to states and media, slot by slot.
  lemma DrainParts(cfg: Config, sys: System, max: nat, outs: seq<ZeroOutcome>)
    requires Inv(cfg, sys) && |outs| == |Taken(sys.w.store.alloc, max)| && ZeroOutcomesReal(cfg, outs)
    ensures var a, m, w' := sys.w.store.alloc, sys.w.media, Drain(sys.w, max, outs);
            var a', m' := w'.store.alloc, w'.media;
            && a'.Valid() && a'.total == cfg.total && SameSizes(m, m') && m'.containers == m.containers
            && |a'.states| == |a.states| == |m'.headers| == |m'.payloads|
            && (forall s :: 0 <= s < |m'.headers| ==> IntactOrDead(cfg, m, m', s))
            && (forall s :: 0 <= s < |a'.states| && a.states[s] != Reclaiming ==>
                  a'.states[s] == a.states[s] && m'.headers[s] == m.headers[s] && m'.payloads[s] == m.payloads[s])
            && (forall s :: 0 <= s < |m'.headers| && a.states[s] != Free && a'.states[s] == Free ==>
                  Unreadable(cfg.digests, m'.headers[s]))
  {
    var m, a := sys.w.media, sys.w.store.alloc;
    var taken := Taken(a, max);
    assert forall s :: s in taken ==> s in a.queue;
    hide IntactOrDead, Unreadable;
    var r := DrainSlots(m, taken, outs);
    DrainLoop(cfg, m, taken, outs);
    var mid := RequeueAll(TakeAll(a, max), r.failed);
    FinishAllStates(mid, r.done);
    assert forall s :: s in mid.inFlight ==> a.states[s] == Reclaiming;
    Sizes(a);
    Sizes(FinishAll(mid, r.done));
  }

  lemma DrainOwned(cfg: Config, sys: System, a': Alloc, m': Media)
    requires Inv(cfg, sys) && a'.Valid() && a'.total == cfg.total && SameSizes(sys.w.media, m')
    requires |a'.states| == |sys.w.store.alloc.states| == |m'.headers| == |m'.payloads|
    requires forall s :: 0 <= s < |a'.states| && sys.w.store.alloc.states[s] != Reclaiming ==>
               && a'.states[s] == sys.w.store.alloc.states[s]
               && m'.headers[s] == sys.w.media.headers[s] && m'.payloads[s] == sys.w.media.payloads[s]
    ensures Owned(cfg, sys.w.store.(alloc := a')) && Backed(cfg, World(sys.w.store.(alloc := a'), m'))
  {
    hide Alloc.Valid, Anchored, Guarded, Decode, FingerprintOf;
    var st := sys.w.store;
    var st' := st.(alloc := a');
    forall k | k in st'.index
      ensures Entitled(cfg, st', k, st'.index[k])
    {
      assert Entitled(cfg, st, k, st.index[k]);
    }
    forall s | s in st'.owner
      ensures Occupied(cfg, st', s, st'.owner[s])
    {
      assert Occupied(cfg, st, s, st.owner[s]);
    }
    forall k | k in st'.index && st'.index[k].committed
      ensures BackedBy(cfg, m', k, st'.index[k])
    {
      assert Entitled(cfg, st, k, st.index[k]) && BackedBy(cfg, sys.w.media, k, st.index[k]);
      assert Occupied(cfg, st, st.index[k].slot, k);
    }
  }

  lemma DrainGuards(cfg: Config, sys: System, a': Alloc, m': Media)
    requires Inv(cfg, sys) && SameSizes(sys.w.media, m')
    requires |a'.states| == |sys.w.store.alloc.states| == |m'.headers| == |m'.payloads|
    requires forall s :: 0 <= s < |m'.headers| ==> IntactOrDead(cfg, sys.w.media, m', s)
    requires forall s :: 0 <= s < |m'.headers| && sys.w.store.alloc.states[s] != Free && a'.states[s] == Free ==>
               Unreadable(cfg.digests, m'.headers[s])
    ensures Guarded(cfg, World(sys.w.store.(alloc := a'), m'), sys.newest, sys.attempted)
  {
    hide Alloc.Valid, Anchored, Owned, Backed, Decode, FingerprintOf, Unreadable;
    var w' := World(sys.w.store.(alloc := a'), m');
    if sys.newest.Some? {
      forall e | e in sys.newest.value.entries
        ensures Guards(cfg, w', sys.attempted, e)
      {
        assert Guards(cfg, sys.w, sys.attempted, e);
        if e.slot < |m'.headers| {
          if Unreadable(cfg.digests, m'.headers[e.slot]) {
            UnreadableNeverMatches(cfg, m', e);
          } else {
            assert IntactOrDead(cfg, sys.w.media, m', e.slot);
            SameHeaderSameVerdict(cfg, sys.w.media, m', e);
          }
        }
      }
    }
  }
}
