// Checkpoint writing and recovery: what they preserve, and that the container
// recovery reads is always the last one completely written.
module StoreRecovery {
  import opened Common
  import opened HeaderCodec
  import opened CheckpointCodec
  import opened SpaceAllocator
  import opened ObjectStore
  import opened StoreInvariant

  // ---- writing a checkpoint ----

  ghost predicate PersistReady(cfg: Config, w: World, order: seq<Key>, o: WriteOutcome)
    ensures PersistReady(cfg, w, order, o) ==> forall k :: k in order ==> k in w.store.index
  {
    && Lists(w.store, order) && NextSequence(cfg, w) < LE.U64
    && (o.Torn? ==> DecodeCheckpoint(cfg.digests, o.junk).Refused?)
  }

  lemma OrderKnown(st: Store, order: seq<Key>)
    requires Lists(st, order)
    ensures forall k :: k in order ==> k in st.index
  {
  }

  lemma EntryOfOrder(cfg: Config, st: Store, order: seq<Key>, e: Entry)
    requires Owned(cfg, st) && Lists(st, order) && e in EntriesFor(cfg, st, order)
    ensures e.key in st.index && st.index[e.key].committed && e == EntryFor(cfg, e.key, st.index[e.key])
    ensures e.key in order && Entitled(cfg, st, e.key, st.index[e.key])
    ensures e.slot in st.owner && Occupied(cfg, st, e.slot, e.key)
  {
    var es := EntriesFor(cfg, st, order);
    var i :| 0 <= i < |es| && es[i] == e;
    assert order[i] in order;
    assert Entitled(cfg, st, e.key, st.index[e.key]);
  }

  lemma EntriesWellFormed(cfg: Config, st: Store, order: seq<Key>)
    requires cfg.Valid() && Owned(cfg, st) && Lists(st, order)
    ensures WellFormed(cfg, EntriesFor(cfg, st, order)) && |order| <= cfg.total
  {
    hide Alloc.Valid;
    var es := EntriesFor(cfg, st, order);
    assert st.alloc.total == cfg.total;
    Sizes(st.alloc);
    forall e | e in es
      ensures Storable(e) && Admissible(e.key) && e.slot < cfg.total && e.payloadBytes == cfg.payloadBytes
    {
      EntryOfOrder(cfg, st, order, e);
    }
    forall i, j | 0 <= i < j < |es|
      ensures es[i].key != es[j].key && es[i].slot != es[j].slot
    {
      EntryOfOrder(cfg, st, order, es[i]);
      EntryOfOrder(cfg, st, order, es[j]);
    }
    var slots := seq(|es|, i requires 0 <= i < |es| => es[i].slot);
    assert Distinct(slots);
    DistinctSetSize(slots);
    BoundedSetSize(Elements(slots), cfg.total);
  }

  // The size error of the writer never happens: every reachable index fits.
  lemma CheckpointAlwaysFits(cfg: Config, st: Store, order: seq<Key>, seqNo: nat)
    requires cfg.Valid() && Owned(cfg, st) && Lists(st, order)
    ensures |ContainerImage(cfg.digests, EntriesFor(cfg, st, order), seqNo)| <= cfg.ContainerSize()
  {
    EntriesWellFormed(cfg, st, order);
    hide ContainerImage, ContainerBytes;
    ImageFits(cfg.digests, EntriesFor(cfg, st, order), seqNo, cfg.total, MAX_KEY_BYTES);
  }

  lemma PersistedDecodes(cfg: Config, st: Store, order: seq<Key>, seqNo: nat)
    requires cfg.Valid() && Owned(cfg, st) && Lists(st, order) && seqNo < LE.U64
    ensures var es := EntriesFor(cfg, st, order);
            DecodeCheckpoint(cfg.digests, Padded(ContainerImage(cfg.digests, es, seqNo), cfg.ContainerSize())) ==
            Checkpoint(seqNo, es)
  {
    hide ContainerImage, Body, ContainerBytes, DecodeCheckpoint, Owned;
    var es := EntriesFor(cfg, st, order);
    EntriesWellFormed(cfg, st, order);
    CheckpointAlwaysFits(cfg, st, order, seqNo);
    var image := ContainerImage(cfg.digests, es, seqNo);
    BodyInside(cfg.digests, es, seqNo);
    CheckpointRoundTrip(cfg.digests, es, seqNo, LE.Zeros(cfg.ContainerSize() - |image|));
  }

  lemma BodyInside(d: Digests, es: seq<Entry>, seqNo: nat)
    ensures |Body(es)| <= |ContainerImage(d, es, seqNo)|
  {
    hide Body, HeaderOf;
  }

  // The containers after a write that ended with `content` in the target.
  lemma ContainersAfter(cfg: Config, m: Media, newest: Option<Snapshot>, content: seq<byte>, newest': Option<Snapshot>)
    requires Anchored(cfg, m, newest)
    requires var seqs := Sequences(cfg.digests, m.containers);
             var decoded := DecodeCheckpoint(cfg.digests, content);
             || (content == m.containers[NextContainer(seqs)] && newest' == newest)
             || (decoded.Refused? && newest' == newest)
             || (decoded.Checkpoint? && newest' == Some(Snapshot(decoded.sequence, decoded.entries)) &&
                 Highest(seqs) < decoded.sequence && WellFormed(cfg, decoded.entries))
    ensures var target := NextContainer(Sequences(cfg.digests, m.containers));
            Anchored(cfg, m.(containers := SetAt(m.containers, target, content)), newest')
  {
    hide DecodeCheckpoint, WellFormed, NextContainer, SelectContainer;
    var d, seqs := cfg.digests, Sequences(cfg.digests, m.containers);
    var target := NextContainer(seqs);
    var m' := m.(containers := SetAt(m.containers, target, content));
    var seqs' := Sequences(d, m'.containers);
    if content == m.containers[target] {
      assert m'.containers == m.containers;
    } else {
      var s := SequenceOf(d, content);
      AfterWrite(seqs, s);
      WriteSparesNewest(seqs);
      assert seqs' == seqs[target := s];
    }
  }

  lemma PersistAnchored(cfg: Config, sys: System, order: seq<Key>, o: WriteOutcome)
    requires cfg.Valid() && Inv(cfg, sys) && PersistReady(cfg, sys.w, order, o)
    ensures forall k :: k in order ==> k in sys.w.store.index
    ensures Anchored(cfg, Persist(cfg, sys.w, order, o).media, NewestAfter(cfg, sys, order, o))
  {
    hide DecodeCheckpoint, ContainerImage, Padded, WellFormed, Owned, Backed, Guarded, NextContainer, EntriesFor, Lists,
         SelectContainer, Alloc.Valid, Persist;
    var st, m, d := sys.w.store, sys.w.media, cfg.digests;
    var es, seqNo := EntriesFor(cfg, st, order), NextSequence(cfg, sys.w);
    CheckpointAlwaysFits(cfg, st, order, seqNo);
    PersistedDecodes(cfg, st, order, seqNo);
    EntriesWellFormed(cfg, st, order);
    PersistWrites(cfg, sys.w, order, o);
    var target := NextContainer(Sequences(d, m.containers));
    var content := Written(m.containers[target], Padded(ContainerImage(d, es, seqNo), cfg.ContainerSize()), o);
    ContainersAfter(cfg, m, sys.newest, content, NewestAfter(cfg, sys, order, o));
  }

  // The one container that a checkpoint write touches.
  lemma PersistWrites(cfg: Config, w: World, order: seq<Key>, o: WriteOutcome)
    requires (forall k :: k in order ==> k in w.store.index) && |w.media.containers| > 0
    requires |ContainerImage(cfg.digests, EntriesFor(cfg, w.store, order), NextSequence(cfg, w))| <= cfg.ContainerSize()
    ensures var target := NextContainer(Sequences(cfg.digests, w.media.containers));
            var image := ContainerImage(cfg.digests, EntriesFor(cfg, w.store, order), NextSequence(cfg, w));
            && target < |w.media.containers|
            && Persist(cfg, w, order, o).media ==
               w.media.(containers := SetAt(w.media.containers, target,
                          Written(w.media.containers[target], Padded(image, cfg.ContainerSize()), o)))
  {
    hide ContainerImage, Padded, NextContainer, EntriesFor, NextSequence, DecodeCheckpoint;
  }

  // The last completed write, once this one has ended.
  ghost function NewestAfter(cfg: Config, sys: System, order: seq<Key>, o: WriteOutcome): Option<Snapshot>
    requires forall k :: k in order ==> k in sys.w.store.index
  {
    if o.Done? || o.LandedButFailed?
    then Some(Snapshot(NextSequence(cfg, sys.w), EntriesFor(cfg, sys.w.store, order)))
    else sys.newest
  }

  lemma PersistKeeps(cfg: Config, sys: System, order: seq<Key>, o: WriteOutcome)
    requires cfg.Valid() && Inv(cfg, sys) && PersistReady(cfg, sys.w, order, o)
    ensures forall k :: k in order ==> k in sys.w.store.index
    ensures Inv(cfg, System(Persist(cfg, sys.w, order, o), NewestAfter(cfg, sys, order, o), sys.attempted))
  {
    OrderKnown(sys.w.store, order);
    hide Persist, Anchored, Owned, Backed, Guards, EntriesFor, NextSequence;
    PersistAnchored(cfg, sys, order, o);
    PersistShape(cfg, sys.w, order, o);
    var w' := Persist(cfg, sys.w, order, o);
    StoreFlags(cfg, sys, w');
    var newest' := NewestAfter(cfg, sys, order, o);
    if newest'.Some? {
      forall e | e in newest'.value.entries
        ensures Guards(cfg, w', sys.attempted, e)
      {
        PersistGuards(cfg, sys, order, o, w', e);
      }
    }
  }

  lemma PersistGuards(cfg: Config, sys: System, order: seq<Key>, o: WriteOutcome, w': World, e: Entry)
    requires Inv(cfg, sys) && PersistReady(cfg, sys.w, order, o)
    requires w'.store == sys.w.store.(checkpointSeq := w'.store.checkpointSeq, dirty := w'.store.dirty)
    requires w'.media == sys.w.media.(containers := w'.media.containers)
    requires forall k :: k in order ==> k in sys.w.store.index
    requires var newest' := NewestAfter(cfg, sys, order, o); newest'.Some? && e in newest'.value.entries
    ensures Guards(cfg, w', sys.attempted, e)
  {
    hide Anchored, Alloc.Valid, EntriesFor, NextSequence, Holds, HeaderVerdict;
    SameHeaderSameVerdict(cfg, sys.w.media, w'.media, e);
    SameHolds(cfg, sys.w.media, w'.media, e.slot, e.key);
    if o.Done? || o.LandedButFailed? {
      EntryOfOrder(cfg, sys.w.store, order, e);
      assert BackedBy(cfg, sys.w.media, e.key, sys.w.store.index[e.key]);
    } else {
      assert Guards(cfg, sys.w, sys.attempted, e);
    }
  }

  lemma SameHolds(cfg: Config, m: Media, m': Media, slot: nat, key: Key)
    requires m.payloads == m'.payloads
    ensures Holds(cfg, m, slot, key) == Holds(cfg, m', slot, key)
  {
  }

  lemma PersistShape(cfg: Config, w: World, order: seq<Key>, o: WriteOutcome)
    requires forall k :: k in order ==> k in w.store.index
    ensures var w' := Persist(cfg, w, order, o);
            && w'.store == w.store.(checkpointSeq := w'.store.checkpointSeq, dirty := w'.store.dirty)
            && w'.media == w.media.(containers := w'.media.containers)
            && (w'.store.dirty == w.store.dirty || (o.Done? && !w'.store.dirty))
  {
    hide ContainerImage, Padded;
  }

  // Flags and counters outside the invariant may change freely.
  lemma StoreFlags(cfg: Config, sys: System, w': World)
    requires Inv(cfg, sys)
    requires w'.store.index == sys.w.store.index && w'.store.owner == sys.w.store.owner &&
             w'.store.alloc == sys.w.store.alloc
    requires w'.media.headers == sys.w.media.headers && w'.media.payloads == sys.w.media.payloads
    ensures Owned(cfg, w'.store) && Backed(cfg, w')
  {
    hide Alloc.Valid, Decode, FingerprintOf, Anchored, Guarded;
    var st, st' := sys.w.store, w'.store;
    forall k | k in st'.index
      ensures Entitled(cfg, st', k, st'.index[k])
    {
      assert Entitled(cfg, st, k, st.index[k]);
    }
    forall s | s in st'.owner
      ensures Occupied(cfg, st', s, st'.owner[s])
    {
      assert Occupied(cfg, st, s, st.owner[s]);
    }
    forall k | k in st'.index && st'.index[k].committed
      ensures BackedBy(cfg, w'.media, k, st'.index[k])
    {
      assert BackedBy(cfg, sys.w.media, k, st.index[k]);
    }
  }

  // ---- recovery ----

  const EMPTY_LOAD: LoadRun := LoadRun(map[], map[], [], 0)

  ghost function LiveFor(cfg: Config, m: Media, e: Entry): Live
    requires Matches(cfg, m, e)
  {
    Live(e.slot, e.generation, HeaderVerdict(cfg, m, e).fields.commitSeq, true)
  }

  // Some matching entry gives the key, or the slot.
  ghost predicate KeyFrom(cfg: Config, m: Media, es: seq<Entry>, k: Key) {
    exists e :: e in es && Matches(cfg, m, e) && e.key == k
  }

  ghost predicate SlotFrom(cfg: Config, m: Media, es: seq<Entry>, s: nat) {
    exists e :: e in es && Matches(cfg, m, e) && e.slot == s
  }

  ghost predicate Adopted(cfg: Config, m: Media, r: LoadRun, e: Entry)
    requires Matches(cfg, m, e)
  {
    e.key in r.index && r.index[e.key] == LiveFor(cfg, m, e) && e.slot in r.owner && r.owner[e.slot] == e.key
  }

  // Recovery accepts exactly the entries whose header agrees.
  ghost predicate Accepts(cfg: Config, m: Media, es: seq<Entry>, r: LoadRun) {
    && (forall e :: e in es && Matches(cfg, m, e) ==> Adopted(cfg, m, r, e))
    && (forall k :: k in r.index ==> KeyFrom(cfg, m, es, k))
    && (forall s :: s in r.owner ==> SlotFrom(cfg, m, es, s))
    && (forall s: nat :: s in r.slots <==> s in r.owner)
  }

  lemma {:induction false} LoadAccepts(cfg: Config, m: Media, es: seq<Entry>)
    requires WellFormed(cfg, es)
    ensures Accepts(cfg, m, es, LoadEntries(cfg, m, EMPTY_LOAD, es))
  {
    hide Accepts, LoadOne;
    if es == [] {
      NothingAccepted(cfg, m);
    } else {
      var n := |es| - 1;
      assert es == es[..n] + [es[n]] && forall e :: e in es[..n] ==> e in es;
      LoadAccepts(cfg, m, es[..n]);
      LoadOneAccepts(cfg, m, es[..n], LoadEntries(cfg, m, EMPTY_LOAD, es[..n]), es[n]);
    }
  }

  lemma NothingAccepted(cfg: Config, m: Media)
    ensures Accepts(cfg, m, [], EMPTY_LOAD)
  {
  }

  lemma LoadOneAccepts(cfg: Config, m: Media, es: seq<Entry>, r: LoadRun, last: Entry)
    requires Accepts(cfg, m, es, r) && last.slot < cfg.total && last.payloadBytes == cfg.payloadBytes
    requires forall i :: 0 <= i < |es| ==> es[i].key != last.key && es[i].slot != last.slot
    ensures Accepts(cfg, m, es + [last], LoadOne(cfg, m, r, last))
  {
    hide HeaderVerdict, KeyFrom, SlotFrom;
    var all, r' := es + [last], LoadOne(cfg, m, r, last);
    assert last in all;
    FreshCandidate(cfg, m, es, r, last);
    forall e | e in all && Matches(cfg, m, e)
      ensures Adopted(cfg, m, r', e)
    {
      assert e == last || (e in es && Adopted(cfg, m, r, e) && e.key != last.key && e.slot != last.slot);
    }
    forall k | k in r'.index
      ensures KeyFrom(cfg, m, all, k)
    {
      FromLonger(cfg, m, es, last, k, 0);
    }
    forall s | s in r'.owner
      ensures SlotFrom(cfg, m, all, s)
    {
      FromLonger(cfg, m, es, last, [], s);
    }
  }

  lemma FreshCandidate(cfg: Config, m: Media, es: seq<Entry>, r: LoadRun, last: Entry)
    requires Accepts(cfg, m, es, r)
    requires forall i :: 0 <= i < |es| ==> es[i].key != last.key && es[i].slot != last.slot
    ensures last.key !in r.index && last.slot !in r.owner
  {
    hide HeaderVerdict;
    assert !KeyFrom(cfg, m, es, last.key) && !SlotFrom(cfg, m, es, last.slot);
  }

  lemma FromLonger(cfg: Config, m: Media, es: seq<Entry>, last: Entry, k: Key, s: nat)
    ensures KeyFrom(cfg, m, es, k) || (Matches(cfg, m, last) && last.key == k) ==> KeyFrom(cfg, m, es + [last], k)
    ensures SlotFrom(cfg, m, es, s) || (Matches(cfg, m, last) && last.slot == s) ==> SlotFrom(cfg, m, es + [last], s)
  {
    hide HeaderVerdict;
    assert last in es + [last] && forall e :: e in es ==> e in es + [last];
  }

  lemma GapsOfFresh(issued: seq<Issue>, n: nat, slots: seq<nat>, s: nat)
    requires |issued| == n && forall i :: 0 <= i < n ==> issued[i].slot == i
    ensures s in Gaps(issued, slots) <==> s < n && s !in slots
  {
    if s < n {
      assert issued[s] in issued;
    }
  }

  lemma HighestBelow(slots: seq<nat>, total: nat)
    requires slots != [] && forall s :: s in slots ==> s < total
    ensures Highest(slots) < total
  {
    assert slots[0] in slots;
  }

  lemma SlotsBelowHighest(slots: seq<nat>)
    ensures forall s :: s in slots ==> s <= Highest(slots)
  {
  }

  // After adoption: recovered slots below the limit are committed, the gaps
  // below them are on their way to be zeroed, everything else is untouched.
  lemma AdoptStates(total: nat, limit: nat, slots: seq<nat>)
    requires slots != []
    ensures var r := AdoptSlots(Configured(total, limit), slots);
            var n := Min(Highest(slots) + 1, Min(total, limit));
            && r.total == total && |r.states| == total
            && forall s :: 0 <= s < total ==>
                 r.states[s] == if s >= n then Free else if s in slots then Committed else Reclaiming
  {
    hide *;
    var wanted := Highest(slots) + 1;
    var n := Min(wanted, Min(total, limit));
    ClaimFresh(total, limit, wanted, n);
    var (claimed, issued) := ReserveUpTo(Configured(total, limit), wanted);
    AdoptClaimed(claimed, issued, n, slots);
    assert AdoptSlots(Configured(total, limit), slots) ==
           RetireAll(CommitAll(claimed, slots), Gaps(issued, slots), Reserved) by {
      AdoptUnfolds(Configured(total, limit), slots);
    }
  }

  lemma AdoptTotal(total: nat, limit: nat, slots: seq<nat>)
    ensures AdoptSlots(Configured(total, limit), slots).total == total
    ensures |AdoptSlots(Configured(total, limit), slots).states| == total
  {
    hide Alloc.Valid, ReserveUpTo, CommitAll, RetireAll, Gaps, Highest;
    if slots != [] {
      AdoptStates(total, limit, slots);
    }
  }

  // Reserving from a fresh allocator stops at its size or its ready limit.
  lemma ClaimFresh(total: nat, limit: nat, wanted: nat, n: nat)
    requires n == Min(wanted, Min(total, limit))
    ensures var (claimed, issued) := ReserveUpTo(Configured(total, limit), wanted);
            && claimed.Valid() && claimed.total == total && |claimed.states| == total
            && claimed.highWater == n && claimed.freeList == []
            && |issued| == n && (forall i :: 0 <= i < n ==> issued[i].slot == i)
            && (forall s :: 0 <= s < total ==> claimed.states[s] == if s < n then Reserved else Free)
  {
    hide Alloc.Valid, ReserveUpTo, Configured;
    FreshReserve(total, limit, n);
    Sizes(ReserveUpTo(Configured(total, limit), n).0);
    if n < wanted {
      ReserveStops(Configured(total, limit), n, wanted);
    }
  }

  lemma AdoptUnfolds(a: Alloc, slots: seq<nat>)
    requires a.Valid() && slots != []
    ensures var (claimed, issued) := ReserveUpTo(a, Highest(slots) + 1);
            AdoptSlots(a, slots) == RetireAll(CommitAll(claimed, slots), Gaps(issued, slots), Reserved)
  {
    hide Alloc.Valid, ReserveUpTo, CommitAll, RetireAll, Gaps, Highest;
  }

  lemma AdoptClaimed(claimed: Alloc, issued: seq<Issue>, n: nat, slots: seq<nat>)
    requires claimed.Valid() && |issued| == n && forall i :: 0 <= i < n ==> issued[i].slot == i
    requires forall s :: 0 <= s < |claimed.states| ==> claimed.states[s] == if s < n then Reserved else Free
    ensures var r := RetireAll(CommitAll(claimed, slots), Gaps(issued, slots), Reserved);
            && r.total == claimed.total && |r.states| == |claimed.states|
            && forall s :: 0 <= s < |claimed.states| ==>
                 r.states[s] == if s >= n then Free else if s in slots then Committed else Reclaiming
  {
    CommitAllStates(claimed, slots);
    var mid := CommitAll(claimed, slots);
    var gaps := Gaps(issued, slots);
    RetireAllStates(mid, gaps, Reserved);
    hide CommitAll, RetireAll, Gaps, Alloc.Valid;
    var r := RetireAll(mid, gaps, Reserved);
    forall s | 0 <= s < |claimed.states|
      ensures r.states[s] == if s >= n then Free else if s in slots then Committed else Reclaiming
    {
      GapsOfFresh(issued, n, slots, s);
      assert mid.states[s] == if s in slots && s < n then Committed else claimed.states[s];
    }
  }

  lemma VerdictBounds(cfg: Config, m: Media, e: Entry)
    requires Matches(cfg, m, e)
    ensures HeaderVerdict(cfg, m, e).fields.commitSeq < LE.U64
  {
    LE.Spans();
  }

  // What media must satisfy for recovery to be safe, whoever owned what.
  ghost predicate Truthful(cfg: Config, m: Media, newest: Option<Snapshot>) {
    && |m.headers| == |m.payloads| == cfg.total && Anchored(cfg, m, newest)
    && (newest.Some? ==> forall e :: e in newest.value.entries && Matches(cfg, m, e) ==> Holds(cfg, m, e.slot, e.key))
  }

  lemma LoadFresh(cfg: Config, m: Media, newest: Option<Snapshot>, ready: nat)
    requires Anchored(cfg, m, newest)
    ensures var st := OpenFresh(cfg, m, ready);
            if newest.None? then st.index == map[] && st.owner == map[] && st.alloc == Configured(cfg.total, ready)
            else
              var r := LoadEntries(cfg, m, EMPTY_LOAD, newest.value.entries);
              && st.index == r.index && st.owner == r.owner
              && st.alloc == AdoptSlots(Configured(cfg.total, UNLIMITED), r.slots).(readyLimit := ready)
    ensures var st := OpenFresh(cfg, m, ready);
            !st.dirty && st.isOpen && st.pins == map[] && (newest.None? ==> st.commitSeq == 0)
  {
    hide LoadEntries, AdoptSlots, DecodeCheckpoint, WellFormed;
  }

  lemma AnchoredWellFormed(cfg: Config, m: Media, newest: Option<Snapshot>)
    requires Anchored(cfg, m, newest) && newest.Some?
    ensures WellFormed(cfg, newest.value.entries)
  {
  }

  lemma ReadyLimitKeepsValid(a: Alloc, ready: nat)
    requires a.Valid()
    ensures a.(readyLimit := ready).Valid()
  {
  }

  // The allocator that recovery leaves, for any set of recovered slots.
  ghost predicate AdoptedAlloc(total: nat, a: Alloc, slots: seq<nat>) {
    && a.Valid() && a.total == total && |a.states| == total
    && forall s: nat :: s < total ==>
         if s in slots then a.states[s] == Committed else a.states[s] in {Free, Reclaiming}
  }

  lemma Adoption(total: nat, slots: seq<nat>, ready: nat)
    requires total < LE.U64 && forall s :: s in slots ==> s < total
    ensures AdoptedAlloc(total, AdoptSlots(Configured(total, UNLIMITED), slots).(readyLimit := ready), slots)
  {
    hide AdoptSlots, Alloc.Valid, Highest, Configured;
    var a := AdoptSlots(Configured(total, UNLIMITED), slots);
    ReadyLimitKeepsValid(a, ready);
    if slots != [] {
      HighestBelow(slots, total);
      SlotsBelowHighest(slots);
      AdoptStates(total, UNLIMITED, slots);
    } else {
      EmptyAdoption(total);
    }
  }

  lemma EmptyAdoption(total: nat)
    ensures var r := AdoptSlots(Configured(total, UNLIMITED), []);
            r.total == total && |r.states| == total && forall s :: 0 <= s < total ==> r.states[s] == Free
  {
  }

  lemma SlotsInRange(cfg: Config, m: Media, es: seq<Entry>, r: LoadRun)
    requires WellFormed(cfg, es) && Accepts(cfg, m, es, r)
    ensures forall s :: s in r.slots <==> s in r.owner
    ensures forall s :: s in r.slots ==> s < cfg.total
  {
    hide HeaderVerdict;
    forall s | s in r.slots
      ensures s < cfg.total
    {
      assert SlotFrom(cfg, m, es, s);
    }
  }

  // Crash-then-open from truthful media establishes the whole invariant.
  lemma OpenKeeps(cfg: Config, m: Media, newest: Option<Snapshot>, ready: nat)
    requires cfg.Valid() && Truthful(cfg, m, newest)
    ensures Inv(cfg, System(World(OpenFresh(cfg, m, ready), m), newest, {}))
  {
    var st := OpenFresh(cfg, m, ready);
    LoadFresh(cfg, m, newest, ready);
    if newest.None? {
      assert Configured(cfg.total, ready).Valid();
    } else {
      hide LoadEntries, AdoptSlots, OpenFresh, Holds, Accepts, AdoptedAlloc, Matches, Owned, Backed, Guards;
      var es := newest.value.entries;
      var r := LoadEntries(cfg, m, EMPTY_LOAD, es);
      LoadAccepts(cfg, m, es);
      SlotsInRange(cfg, m, es, r);
      Adoption(cfg.total, r.slots, ready);
      hide Anchored, WellFormed;
      OpenOwned(cfg, m, newest, r, st);
      OpenBacked(cfg, m, newest, r, st);
      OpenGuarded(cfg, m, newest, r, st);
    }
  }

  ghost predicate OpenedAs(cfg: Config, m: Media, newest: Option<Snapshot>, r: LoadRun, st: Store) {
    && Truthful(cfg, m, newest) && newest.Some? && Accepts(cfg, m, newest.value.entries, r)
    && st.index == r.index && st.owner == r.owner && AdoptedAlloc(cfg.total, st.alloc, r.slots)
  }

  lemma OpenOwned(cfg: Config, m: Media, newest: Option<Snapshot>, r: LoadRun, st: Store)
    requires OpenedAs(cfg, m, newest, r, st)
    ensures Owned(cfg, st)
  {
    hide Alloc.Valid, Anchored, HeaderVerdict, Holds, LiveFor;
    var es := newest.value.entries;
    forall k | k in st.index
      ensures Entitled(cfg, st, k, st.index[k])
    {
      assert KeyFrom(cfg, m, es, k);
      var e :| e in es && Matches(cfg, m, e) && e.key == k;
      assert Adopted(cfg, m, r, e);
      EntryWellFormed(cfg, m, newest, e);
      RecoveredIsBacked(cfg, m, e);
    }
    forall s | s in st.owner
      ensures Occupied(cfg, st, s, st.owner[s])
    {
      assert SlotFrom(cfg, m, es, s);
      var e :| e in es && Matches(cfg, m, e) && e.slot == s;
      assert Adopted(cfg, m, r, e);
      EntryWellFormed(cfg, m, newest, e);
      RecoveredIsBacked(cfg, m, e);
    }
  }

  lemma OpenBacked(cfg: Config, m: Media, newest: Option<Snapshot>, r: LoadRun, st: Store)
    requires OpenedAs(cfg, m, newest, r, st)
    ensures Backed(cfg, World(st, m))
  {
    hide Alloc.Valid, Anchored, HeaderVerdict, Holds, LiveFor, BackedBy;
    var es := newest.value.entries;
    forall k | k in st.index
      ensures BackedBy(cfg, m, k, st.index[k])
    {
      assert KeyFrom(cfg, m, es, k);
      var e :| e in es && Matches(cfg, m, e) && e.key == k;
      assert Adopted(cfg, m, r, e);
      EntryWellFormed(cfg, m, newest, e);
      RecoveredIsBacked(cfg, m, e);
    }
  }

  lemma OpenGuarded(cfg: Config, m: Media, newest: Option<Snapshot>, r: LoadRun, st: Store)
    requires OpenedAs(cfg, m, newest, r, st)
    ensures Guarded(cfg, World(st, m), newest, {})
  {
    hide Alloc.Valid, Anchored, HeaderVerdict, Holds, LiveFor;
    forall e | e in newest.value.entries
      ensures Guards(cfg, World(st, m), {}, e)
    {
      EntryWellFormed(cfg, m, newest, e);
      if Matches(cfg, m, e) {
        assert Adopted(cfg, m, r, e);
        RecoveredIsBacked(cfg, m, e);
      }
    }
  }

  lemma RecoveredIsBacked(cfg: Config, m: Media, e: Entry)
    requires Matches(cfg, m, e) && Holds(cfg, m, e.slot, e.key) && e.payloadBytes == cfg.payloadBytes
    ensures var live := LiveFor(cfg, m, e);
            && BackedBy(cfg, m, e.key, live) && live.committed && live.commitSeq < LE.U64
            && live.slot == e.slot && live.generation == e.generation
  {
    VerdictBounds(cfg, m, e);
    hide Decode, FingerprintOf;
  }
}
