// Where the store's promises stop, and exactly when: reopening the same
// object, rewriting a payload after a commit attempt, and a commit call that
// fails half way.
module StoreLimits {
  import opened Common
  import opened HeaderCodec
  import opened CheckpointCodec
  import opened SpaceAllocator
  import opened ObjectStore
  import opened StoreInvariant
  import opened StoreRecovery
  import opened StoreRuns
  import opened StoreEffects
  import opened StoreRestart

  // ---- open() on an object that was open before ----

  // Recovery never touches what the object already owned.
  lemma {:induction false} LoadExtends(cfg: Config, m: Media, index: map<Key, Live>, owner: map<nat, Key>,
                                       es: seq<Entry>)
    ensures var r := LoadEntries(cfg, m, LoadRun(index, owner, [], 0), es);
            && (forall s :: s in owner ==> s in r.owner && r.owner[s] == owner[s] && s !in r.slots)
            && (forall k :: k in index ==> k in r.index && r.index[k] == index[k])
  {
    hide HeaderVerdict;
    if es != [] {
      LoadExtends(cfg, m, index, owner, es[..|es| - 1]);
    }
  }

  lemma ReopenShape(cfg: Config, st: Store, m: Media, newest: Option<Snapshot>, ready: nat)
    requires Anchored(cfg, m, newest)
    ensures var st' := ReopenSame(cfg, st, m, ready);
            var a := Configured(cfg.total, st.alloc.readyLimit);
            if newest.None? then st'.index == st.index && st'.owner == st.owner && st'.alloc == a.(readyLimit := ready)
            else
              var r := LoadEntries(cfg, m, LoadRun(st.index, st.owner, [], 0), newest.value.entries);
              st'.index == r.index && st'.owner == r.owner && st'.alloc == AdoptSlots(a, r.slots).(readyLimit := ready)
  {
    hide LoadEntries, AdoptSlots, DecodeCheckpoint, WellFormed;
  }

  // A slot that recovery did not adopt is free or about to be zeroed.
  lemma UnadoptedSlots(total: nat, limit: nat, slots: seq<nat>, s: nat)
    requires s < total
    ensures var a := AdoptSlots(Configured(total, limit), slots);
            && |a.states| == total
            && (s !in slots ==> a.states[s] in {Free, Reclaiming})
            && (s in slots ==> (a.states[s] == Committed <==> s < limit))
            && (s in slots && s >= limit ==> a.states[s] == Free)
  {
    hide Alloc.Valid, ReserveUpTo, CommitAll, RetireAll, Gaps;
    if slots != [] {
      AdoptStates(total, limit, slots);
      SlotsBelowHighest(slots);
    }
  }

  // What the newest checkpoint would bring back fits below the ready limit
  // that the first opening left behind.
  ghost predicate RecoverableBelow(cfg: Config, m: Media, newest: Option<Snapshot>, limit: nat) {
    newest.Some? ==> forall e :: e in newest.value.entries && Matches(cfg, m, e) ==> e.slot < limit
  }

  // REOPENING. close() keeps the index and the owners, and open() then starts
  // a fresh allocator under them: the slots of everything still in the index
  // become free. Ownership survives exactly when nothing was left in the index
  // (and what is recovered lies below the old ready limit).
  lemma ReopenKeepsOwnershipIff(cfg: Config, sys: System, ready: nat)
    requires cfg.Valid() && Inv(cfg, sys)
    ensures Owned(cfg, ReopenSame(cfg, sys.w.store, sys.w.media, ready)) <==>
              && sys.w.store.index == map[]
              && RecoverableBelow(cfg, sys.w.media, sys.newest, sys.w.store.alloc.readyLimit)
  {
    hide ReopenSame, AdoptSlots, LoadEntries, Backed, Guarded, Anchored, Alloc.Valid, HeaderVerdict, WellFormed, Owned,
         RecoverableBelow;
    var st, m := sys.w.store, sys.w.media;
    ReopenShape(cfg, st, m, sys.newest, ready);
    if st.index != map[] {
      ReopenFreesLiveSlots(cfg, sys, ready);
    } else {
      EmptyIndexEmptyOwner(cfg, st);
      ReopenEmpty(cfg, sys, ready);
    }
  }

  lemma EmptyIndexEmptyOwner(cfg: Config, st: Store)
    requires Owned(cfg, st) && st.index == map[]
    ensures st.owner == map[]
  {
    hide Alloc.Valid;
    assert forall s :: s in st.owner ==> Occupied(cfg, st, s, st.owner[s]);
  }

  // Every key left in the index keeps a slot that is now free or queued for
  // zeroing.
  lemma ReopenFreesLiveSlots(cfg: Config, sys: System, ready: nat)
    requires cfg.Valid() && Inv(cfg, sys) && sys.w.store.index != map[]
    ensures var st' := ReopenSame(cfg, sys.w.store, sys.w.media, ready);
            && !Owned(cfg, st')
            && forall k :: k in sys.w.store.index ==>
                 var s := sys.w.store.index[k].slot;
                 && k in st'.index && st'.index[k].slot == s
                 && s < |st'.alloc.states| && st'.alloc.states[s] in {Free, Reclaiming}
  {
    hide ReopenSame, AdoptSlots, LoadEntries, Backed, Guarded, Anchored, HeaderVerdict, WellFormed, Configured,
         Alloc.Valid;
    var st, m := sys.w.store, sys.w.media;
    ReopenShape(cfg, st, m, sys.newest, ready);
    var st' := ReopenSame(cfg, st, m, ready);
    Sizes(st.alloc);
    if sys.newest.Some? {
      LoadExtends(cfg, m, st.index, st.owner, sys.newest.value.entries);
    }
    forall k | k in st.index
      ensures var s := st.index[k].slot;
              && k in st'.index && st'.index[k].slot == s && s in st'.owner && st'.owner[s] == k
              && s < |st'.alloc.states| && st'.alloc.states[s] in {Free, Reclaiming}
    {
      assert Entitled(cfg, st, k, st.index[k]);
      assert Occupied(cfg, st, st.index[k].slot, k);
      ReopenedSlot(cfg, sys, ready, st.index[k].slot);
    }
    var k :| k in st.index;
    assert !Occupied(cfg, st', st.index[k].slot, k);
  }

  lemma ReopenedSlot(cfg: Config, sys: System, ready: nat, s: nat)
    requires Anchored(cfg, sys.w.media, sys.newest) && s in sys.w.store.owner && s < cfg.total
    ensures var st' := ReopenSame(cfg, sys.w.store, sys.w.media, ready);
            s < |st'.alloc.states| && st'.alloc.states[s] in {Free, Reclaiming}
  {
    hide ReopenSame, AdoptSlots, LoadEntries, Anchored, HeaderVerdict, WellFormed, Alloc.Valid;
    var st, m := sys.w.store, sys.w.media;
    ReopenShape(cfg, st, m, sys.newest, ready);
    if sys.newest.Some? {
      LoadExtends(cfg, m, st.index, st.owner, sys.newest.value.entries);
      var r := LoadEntries(cfg, m, LoadRun(st.index, st.owner, [], 0), sys.newest.value.entries);
      UnadoptedSlots(cfg.total, st.alloc.readyLimit, r.slots, s);
    }
  }

  lemma ReopenEmpty(cfg: Config, sys: System, ready: nat)
    requires cfg.Valid() && Inv(cfg, sys) && sys.w.store.index == map[] && sys.w.store.owner == map[]
    ensures Owned(cfg, ReopenSame(cfg, sys.w.store, sys.w.media, ready)) <==>
              RecoverableBelow(cfg, sys.w.media, sys.newest, sys.w.store.alloc.readyLimit)
  {
    hide ReopenSame, AdoptSlots, LoadEntries, Backed, Guarded, Anchored, Alloc.Valid, HeaderVerdict, WellFormed,
         Accepts, Owned;
    var st, m, newest, limit := sys.w.store, sys.w.media, sys.newest, sys.w.store.alloc.readyLimit;
    ReopenShape(cfg, st, m, newest, ready);
    var st' := ReopenSame(cfg, st, m, ready);
    if newest.None? {
      ConfiguredOwned(cfg, st', limit, ready);
    } else {
      var es := newest.value.entries;
      AnchoredWellFormed(cfg, m, newest);
      LoadAccepts(cfg, m, es);
      assert LoadRun(st.index, st.owner, [], 0) == EMPTY_LOAD;
      var r := LoadEntries(cfg, m, EMPTY_LOAD, es);
      SlotsInRange(cfg, m, es, r);
      InvIsTruthful(cfg, sys);
      ReadyLimitKeepsValid(AdoptSlots(Configured(cfg.total, limit), r.slots), ready);
      AdoptTotal(cfg.total, limit, r.slots);
      if RecoverableBelow(cfg, m, newest, limit) {
        forall s: nat | s < cfg.total
          ensures if s in r.slots then st'.alloc.states[s] == Committed else st'.alloc.states[s] in {Free, Reclaiming}
        {
          UnadoptedSlots(cfg.total, limit, r.slots, s);
          RecoveredBelow(cfg, m, newest, r, limit, s);
        }
        OpenOwned(cfg, m, newest, r, st');
      } else {
        var e :| e in es && Matches(cfg, m, e) && e.slot >= limit;
        AcceptedEntry(cfg, m, es, r, e);
        UnadoptedSlots(cfg.total, limit, r.slots, e.slot);
        FreeOwned(cfg, st', e.slot);
      }
    }
  }

  lemma ConfiguredOwned(cfg: Config, st: Store, limit: nat, ready: nat)
    requires st.index == map[] && st.owner == map[] && st.alloc == Configured(cfg.total, limit).(readyLimit := ready)
    ensures Owned(cfg, st)
  {
  }

  lemma RecoveredBelow(cfg: Config, m: Media, newest: Option<Snapshot>, r: LoadRun, limit: nat, s: nat)
    requires newest.Some? && Accepts(cfg, m, newest.value.entries, r) && RecoverableBelow(cfg, m, newest, limit)
    ensures s in r.slots ==> s < limit
  {
    hide HeaderVerdict;
    if s in r.slots {
      assert SlotFrom(cfg, m, newest.value.entries, s);
    }
  }

  lemma AcceptedEntry(cfg: Config, m: Media, es: seq<Entry>, r: LoadRun, e: Entry)
    requires WellFormed(cfg, es) && Accepts(cfg, m, es, r) && e in es && Matches(cfg, m, e)
    ensures e.slot in r.slots && e.slot in r.owner && e.slot < cfg.total
  {
    hide HeaderVerdict;
    assert Adopted(cfg, m, r, e);
  }

  lemma FreeOwned(cfg: Config, st: Store, s: nat)
    requires s in st.owner && s < |st.alloc.states| && st.alloc.states[s] == Free
    ensures !Owned(cfg, st)
  {
    hide Alloc.Valid;
    assert !Occupied(cfg, st, s, st.owner[s]);
  }

  // ---- payload writes after a commit attempt ----

  // A header write may land and still report failure. Starting to rewrite the
  // payload under that reservation keeps recovery truthful exactly when the
  // newest checkpoint has no entry that the header on the slot satisfies; a
  // slot on which no commit was attempted never has one.
  lemma RewriteIsSafeIff(cfg: Config, sys: System, key: Key)
    requires cfg.Valid() && Inv(cfg, sys) && Commits(sys.w.store, key)
    ensures var slot := sys.w.store.index[key].slot;
            && (Truthful(cfg, WritePayload(sys.w, key, false).media, sys.newest) <==>
                  !StaleMatch(cfg, sys.w.media, sys.newest, slot))
            && (slot !in sys.attempted ==> !StaleMatch(cfg, sys.w.media, sys.newest, slot))
  {
    hide Anchored, Backed, Decode, Alloc.Valid;
    var st, m := sys.w.store, sys.w.media;
    var slot, m' := st.index[key].slot, WritePayload(sys.w, key, false).media;
    assert Entitled(cfg, st, key, st.index[key]) && Occupied(cfg, st, slot, key);
    SameHeaders(cfg, m, m');
    SameContainers(cfg, m, m', sys.newest);
    BackedSizes(cfg, sys.w);
    if sys.newest.Some? {
      forall e | e in sys.newest.value.entries && Matches(cfg, m, e)
        ensures Holds(cfg, m, e.slot, e.key) && Holds(cfg, m', e.slot, e.key) == (e.slot != slot)
        ensures e.slot == slot ==> slot in sys.attempted
      {
        assert Guards(cfg, sys.w, sys.attempted, e);
      }
    }
  }

  lemma BackedSizes(cfg: Config, w: World)
    requires Backed(cfg, w)
    ensures |w.media.headers| == |w.media.payloads| == cfg.total
  {
  }

  // ---- a commit call that fails half way ----

  // A clean close keeps exactly the committed keys if and only if there was a
  // checkpoint to write or the one on media already says so.
  lemma CloseIsExactIff(cfg: Config, sys: System, order: seq<Key>, o: WriteOutcome, ready: nat)
    requires cfg.Valid() && Inv(cfg, sys) && sys.w.store.isOpen && PersistReady(cfg, sys.w, order, o)
    requires sys.w.store.dirty ==> o.Done?
    ensures forall k :: k in order ==> k in sys.w.store.index
    ensures OpenFresh(cfg, Close(cfg, sys.w, order, o).media, ready).index == CommittedPart(sys.w.store.index) <==>
              sys.w.store.dirty || Synced(cfg, sys.w.store.index, sys.w.media, sys.newest, {})
  {
    hide Inv, OpenFresh, Synced, Persist, PersistReady, CommittedPart;
    var st, m := sys.w.store, sys.w.media;
    if st.dirty || Synced(cfg, st.index, m, sys.newest, {}) {
      CloseIsExact(cfg, sys, order, o, ready);
    } else {
      InvIsTruthful(cfg, sys);
      OpenSynced(cfg, m, sys.newest, ready);
      var recovered := OpenFresh(cfg, m, ready).index;
      if recovered == CommittedPart(st.index) {
        SameCommitted(st.index);
        SyncedFrame(cfg, recovered, m, sys.newest, {}, st.index, m);
      }
    }
  }

  // RESTARTS, EXACTLY. In every run, a successful close followed by open gives
  // back exactly the committed keys if and only if there was something to write,
  // or the newest checkpoint is in step with the index on the slots that failed
  // commit calls have touched since it was written. No other slot needs a look.
  lemma RestartIsExactIff(cfg: Config, m: Media, ready: nat, ops: seq<Op>, end: System, loose: set<nat>,
                          order: seq<Key>, o: WriteOutcome, ready': nat)
    requires cfg.Valid() && FirstOpen(cfg, m) && Tracks(cfg, Initial(cfg, m, ready), ops, end, loose)
    requires end.w.store.isOpen && PersistReady(cfg, end.w, order, o) && (end.w.store.dirty ==> o.Done?)
    ensures forall k :: k in order ==> k in end.w.store.index
    ensures OpenFresh(cfg, Close(cfg, end.w, order, o).media, ready').index == CommittedPart(end.w.store.index) <==>
              end.w.store.dirty || InStep(cfg, end.w.store.index, end.w.media, end.newest, iset s: nat | s in loose)
  {
    hide Inv, Tracks, Initial, FirstOpen, OpenFresh, Close, InStep, PersistReady;
    InitialClean(cfg, m, ready);
    TrackKeeps(cfg, Initial(cfg, m, ready), ops, end, loose);
    CloseIsExactIff(cfg, end, order, o, ready');
    if !end.w.store.dirty {
      InStepEverywhere(cfg, end.w.store.index, end.w.media, end.newest, loose);
    }
  }

  lemma InStepEverywhere(cfg: Config, index: map<Key, Live>, m: Media, newest: Option<Snapshot>, loose: set<nat>)
    requires Synced(cfg, index, m, newest, loose)
    ensures Synced(cfg, index, m, newest, {}) <==> InStep(cfg, index, m, newest, iset s: nat | s in loose)
  {
    hide Matches, Recorded, StoreRestart.Covered;
  }

  lemma SameCommitted(index: map<Key, Live>)
    ensures CommittedPart(CommittedPart(index)) == CommittedPart(index)
  {
  }

  lemma ReachStep(cfg: Config, start: System, ops: seq<Op>, mid: System, op: Op)
    requires Reaches(cfg, start, ops, mid) && mid.w.store.alloc.Valid() && Allowed(cfg, mid, op)
    ensures Reaches(cfg, start, ops + [op], Apply(cfg, mid, op))
  {
    hide Apply, Allowed;
    assert (ops + [op])[..|ops + [op]| - 1] == ops && (ops + [op])[|ops + [op]| - 1] == op;
  }

  function HalfCommit(a: Key, b: Key): seq<Op> {
    [OpReserve([a, b])] + [OpPayload(a, true)] + [OpPayload(b, true)] + [OpCommit([a, b], [Done, NotWritten])]
  }

  lemma TwoReserved(st: Store, total: nat, ready: nat, a: Key, b: Key)
    requires total >= 2 && ready >= 2 && Admissible(a) && Admissible(b) && a != b
    requires st.index == map[] && st.owner == map[] && st.alloc == Configured(total, ready)
    ensures var r := ReserveKeys(st, [a, b]).store;
            && r.index == map[a := Live(0, 0, 0, false), b := Live(1, 0, 0, false)] && r.owner == map[0 := a, 1 := b]
            && r == st.(index := r.index, owner := r.owner, alloc := r.alloc)
  {
    hide ReserveKeys, ReserveStep;
    assert [a, b][..1] == [a] && [a][..0] == [];
    ReserveUnfolds(st, [a]);
    ReserveUnfolds(st, [a, b]);
    NothingReserved(st);
    ClaimStep(ReserveRun(st, [], 0, false), a, 0);
    ClaimStep(ReserveKeys(st, [a]), b, 1);
  }

  lemma NothingReserved(st: Store)
    requires st.alloc.Valid()
    ensures ReserveKeys(st, []) == ReserveRun(st, [], 0, false)
  {
  }

  // The next never-used slot goes to a new key.
  lemma ClaimStep(r: ReserveRun, key: Key, slot: nat)
    requires r.store.alloc.Valid() && !r.exhausted && Admissible(key) && key !in r.store.index
    requires r.store.alloc.freeList == [] &&
             r.store.alloc.highWater == slot < Min(r.store.alloc.total, r.store.alloc.readyLimit)
    requires slot < |r.store.alloc.generations| && r.store.alloc.generations[slot] == 0
    ensures var r' := ReserveStep(r, key);
            && !r'.exhausted && r'.store.alloc.Valid()
            && r'.store == r.store.(index := r.store.index[key := Live(slot, 0, 0, false)],
                                    owner := r.store.owner[slot := key], alloc := r'.store.alloc)
            && r'.store.alloc.freeList == [] && r'.store.alloc.highWater == slot + 1
            && r'.store.alloc.total == r.store.alloc.total && r'.store.alloc.readyLimit == r.store.alloc.readyLimit
            && r'.store.alloc.generations == r.store.alloc.generations
  {
  }

  lemma TwoCommits(cfg: Config, w: World, a: Key, b: Key)
    requires a != b && Commits(w.store, a) && Commits(w.store, b)
    ensures var r := CommitKeys(cfg, w, [a, b], [Done, NotWritten]);
            && !r.ok && r.w.store.index.Keys == w.store.index.Keys && r.w.store.index[a].committed
            && r.w.store.isOpen == w.store.isOpen && r.w.media.containers == w.media.containers
            && r.w.store.index[a].slot == w.store.index[a].slot && r.w.store.pins == w.store.pins
  {
    hide HeaderFor;
    assert [a, b][..1] == [a] && [a][..0] == [];
    assert [Done, NotWritten][..1] == [Done] && [Done][..0] == [];
    assert CommitKeys(cfg, w, [], []) == CommitRun(w, [], true, {});
    assert CommitKeys(cfg, w, [a], [Done]) == CommitOneKey(cfg, CommitRun(w, [], true, {}), a, Done);
  }

  // A HALF-COMMITTED BATCH IS FORGOTTEN. On every newly created pool: the
  // header of a is durable and a is reported committed, the header write of b
  // fails, close() has nothing to write and succeeds, and the next open()
  // finds nothing. Released instead, a leaves its slot an orphan.
  lemma HalfCommitIsForgotten(cfg: Config, m: Media, ready: nat, a: Key, b: Key, ready': nat) returns (end: System)
    requires cfg.Valid() && FirstOpen(cfg, m) && cfg.total >= 2 && ready >= 2
    requires Admissible(a) && Admissible(b) && a != b
    ensures Reaches(cfg, Initial(cfg, m, ready), HalfCommit(a, b), end)
    ensures a in end.w.store.index && end.w.store.index[a].committed && end.w.store.isOpen && !end.w.store.dirty
    ensures var w' := Close(cfg, end.w, [], Done); OpenFresh(cfg, w'.media, ready').index == map[]
    ensures end.w.store.alloc.Valid() && Orphan(Release(end.w.store, [a]), end.w.store.index[a].slot)
  {
    hide OpenFresh, Reaches, Alloc.Valid, Inv, Owned, Anchored, Release, Orphan, Initial, FirstOpen, HalfCommit;
    end := ReachHalfCommit(cfg, m, ready, a, b);
    InitialInv(cfg, m, ready);
    RunKeeps(cfg, Initial(cfg, m, ready), HalfCommit(a, b), end);
    HalfCommitOrphans(cfg, end, a);
    LoadFresh(cfg, end.w.media, None, ready');
  }

  lemma ReachHalfCommit(cfg: Config, m: Media, ready: nat, a: Key, b: Key) returns (end: System)
    requires cfg.Valid() && FirstOpen(cfg, m) && cfg.total >= 2 && ready >= 2
    requires Admissible(a) && Admissible(b) && a != b
    ensures Reaches(cfg, Initial(cfg, m, ready), HalfCommit(a, b), end) && Anchored(cfg, end.w.media, None)
    ensures end.w.store.isOpen && !end.w.store.dirty && Releasable(end.w.store, a)
    ensures end.w.store.index[a].slot < |end.w.store.alloc.states|
    ensures end.w.store.alloc.states[end.w.store.index[a].slot] == Reserved
  {
    hide OpenFresh, Reaches, ReserveKeys, CommitKeys, Alloc.Valid, Inv, Owned, Anchored;
    var s0 := Initial(cfg, m, ready);
    InitialInv(cfg, m, ready);
    NothingOnMedia(cfg, m);
    LoadFresh(cfg, m, None, ready);
    InvParts(cfg, s0);
    TwoReserved(s0.w.store, cfg.total, ready, a, b);
    NoOps(cfg, s0);
    var reserve, first, second := OpReserve([a, b]), OpPayload(a, true), OpPayload(b, true);
    ReachStep(cfg, s0, [], s0, reserve);
    var s1 := Apply(cfg, s0, reserve);
    StepKeeps(cfg, s0, reserve);
    InvParts(cfg, s1);
    ReservedSlot(cfg, s1, a);
    assert [] + [reserve] == [reserve];
    ReachStep(cfg, s0, [reserve], s1, first);
    var s2 := Apply(cfg, s1, first);
    ReachStep(cfg, s0, [reserve] + [first], s2, second);
    var s3 := Apply(cfg, s2, second);
    var commit := OpCommit([a, b], [Done, NotWritten]);
    ReachStep(cfg, s0, [reserve] + [first] + [second], s3, commit);
    end := Apply(cfg, s3, commit);
    TwoCommits(cfg, s3.w, a, b);
    SameContainers(cfg, m, end.w.media, None);
  }

  lemma ReservedSlot(cfg: Config, sys: System, k: Key)
    requires Inv(cfg, sys) && Commits(sys.w.store, k)
    ensures var st := sys.w.store; st.index[k].slot < |st.alloc.states| && st.alloc.states[st.index[k].slot] == Reserved
  {
    hide Alloc.Valid, Anchored, BackedBy;
    assert Entitled(cfg, sys.w.store, k, sys.w.store.index[k]);
    assert Occupied(cfg, sys.w.store, sys.w.store.index[k].slot, k);
  }

  lemma HalfCommitOrphans(cfg: Config, sys: System, a: Key)
    requires Inv(cfg, sys) && Releasable(sys.w.store, a) && sys.w.store.index[a].slot < |sys.w.store.alloc.states|
    requires sys.w.store.alloc.states[sys.w.store.index[a].slot] == Reserved
    ensures sys.w.store.alloc.Valid() && Orphan(Release(sys.w.store, [a]), sys.w.store.index[a].slot)
  {
    hide Inv, Orphan;
    assert a in [a];
    ReleaseOrphansIff(cfg, sys, [a], a);
  }

  lemma NoOps(cfg: Config, sys: System)
    ensures Reaches(cfg, sys, [], sys)
  {
  }

  lemma NothingOnMedia(cfg: Config, m: Media)
    requires |m.containers| == CONTAINER_COUNT
    requires forall i :: 0 <= i < |m.containers| ==> SequenceOf(cfg.digests, m.containers[i]) == 0
    ensures Anchored(cfg, m, None)
  {
    hide DecodeCheckpoint;
  }

  // A slot the allocator thinks is reserved and nobody owns.
  ghost predicate Orphan(st: Store, s: nat) {
    s < |st.alloc.states| && st.alloc.states[s] == Reserved && s !in st.owner
  }

  // Releasing a committed key gives its slot back exactly when the allocator
  // was told of the commit; otherwise the slot is orphaned.
  lemma ReleaseOrphansIff(cfg: Config, sys: System, keys: seq<Key>, k: Key)
    requires Inv(cfg, sys) && k in keys && Releasable(sys.w.store, k)
    ensures sys.w.store.alloc.Valid()
    ensures var s := sys.w.store.index[k].slot;
            && s < |sys.w.store.alloc.states|
            && (Orphan(Release(sys.w.store, keys), s) <==> sys.w.store.alloc.states[s] == Reserved)
            && (!Orphan(Release(sys.w.store, keys), s) ==> Release(sys.w.store, keys).alloc.states[s] == Reclaiming)
  {
    InvParts(cfg, sys);
    hide Backed, Anchored, Guarded, Alloc.Valid, DropKeys, RetireAll;
    var st := sys.w.store;
    var s, r := st.index[k].slot, DropKeys(st, keys, true);
    assert Entitled(cfg, st, k, st.index[k]) && Occupied(cfg, st, s, k);
    DropEffect(st, keys, true);
    assert DroppedSlot(st, keys, true, s);
    RetireAllStates(st.alloc, r.slots, Committed);
  }

  // An orphaned slot is never given back: no call but a restart touches it.
  lemma OrphanStays(cfg: Config, sys: System, op: Op, s: nat)
    requires cfg.Valid() && Inv(cfg, sys) && Allowed(cfg, sys, op) && Orphan(sys.w.store, s) && !op.OpCrashOpen?
    ensures sys.w.store.alloc.Valid() && Orphan(Apply(cfg, sys, op).w.store, s)
  {
    hide Inv, Alloc.Valid, Owned, Anchored, CommitKeys, CommitAll, DropKeys, RetireAll, Persist, ReserveKeys,
         PersistReady, DrainSlots, FinishAll, RequeueAll, TakeAll, StaleMatch;
    InvParts(cfg, sys);
    var st := sys.w.store;
    match op {
      case OpReserve(keys) => ReserveKeepsOrphan(st, keys, s);
      case OpCommit(keys, outs) =>
        CommitReadySizes(cfg, sys.w, keys, outs);
        CommitKeepsOrphan(cfg, sys, keys, outs, s);
      case OpAbort(keys) => DropKeepsOrphan(cfg, st, keys, false, s);
      case OpRelease(keys) => DropKeepsOrphan(cfg, st, keys, true, s);
      case OpDrain(max, outs) => DrainStates(cfg, sys, max, outs);
      case _ => SamePlacement(cfg, sys, op);
    }
  }

  lemma {:induction false} ReserveKeepsOrphan(st: Store, keys: seq<Key>, s: nat)
    requires st.alloc.Valid() && Orphan(st, s)
    ensures Orphan(ReserveKeys(st, keys).store, s)
  {
    hide Alloc.Valid;
    if keys != [] {
      var front := keys[..|keys| - 1];
      ReserveKeepsOrphan(st, front, s);
      var r := ReserveKeys(st, front);
      Sizes(r.store.alloc);
      if NextFree(r.store.alloc) < r.store.alloc.total {
        NextFreeIsFree(r.store.alloc);
      }
    }
  }

  lemma CommitKeepsOrphan(cfg: Config, sys: System, keys: seq<Key>, outs: seq<WriteOutcome>, s: nat)
    requires Inv(cfg, sys) && |outs| == |keys| && Orphan(sys.w.store, s) && sys.w.store.alloc.Valid()
    ensures Orphan(Commit(cfg, sys.w, keys, outs).store, s)
  {
    hide Alloc.Valid, Backed, Anchored, Guarded, CommitKeys, CommitAll, BecameCommitted;
    var st, r := sys.w.store, CommitKeys(cfg, sys.w, keys, outs);
    CommitEffect(cfg, sys.w, keys, outs);
    CommitKeepsOwners(cfg, sys.w, keys, outs);
    CommitSlotsOfKeys(cfg, st, r.w.store, r.slots, s);
    CommitAllStates(st.alloc, r.slots);
  }

  lemma {:induction false} CommitKeepsOwners(cfg: Config, w: World, keys: seq<Key>, outs: seq<WriteOutcome>)
    requires |outs| == |keys|
    ensures CommitKeys(cfg, w, keys, outs).w.store.owner == w.store.owner
  {
    hide HeaderFor;
    if keys != [] {
      CommitKeepsOwners(cfg, w, keys[..|keys| - 1], outs[..|keys| - 1]);
    }
  }

  lemma DropKeepsOrphan(cfg: Config, st: Store, keys: seq<Key>, release: bool, s: nat)
    requires Owned(cfg, st) && st.alloc.Valid() && Orphan(st, s)
    ensures var r := DropKeys(st, keys, release);
            Orphan(r.store.(alloc := RetireAll(st.alloc, r.slots, if release then Committed else Reserved)), s)
  {
    hide Alloc.Valid, DropKeys, RetireAll, DroppedSlot;
    var r := DropKeys(st, keys, release);
    DropEffect(st, keys, release);
    DropSlotsOfKeys(cfg, st, keys, release, r.slots, s);
    RetireAllStates(st.alloc, r.slots, if release then Committed else Reserved);
  }
}
