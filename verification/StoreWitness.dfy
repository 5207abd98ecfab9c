// A run of the store that reaches the one state in which a payload must not be
// rewritten: a header that landed although its write failed, under a checkpoint
// that already lists the same key, slot and generation.
module StoreWitness {
  import opened Common
  import opened HeaderCodec
  import opened CheckpointCodec
  import opened SpaceAllocator
  import opened ObjectStore
  import opened StoreInvariant
  import opened StoreRecovery
  import opened StoreRuns
  import opened StoreRestart
  import opened StoreLimits

  // An open store with nothing in it.
  ghost predicate Empty(cfg: Config, sys: System, ready: nat) {
    var st := sys.w.store;
    && st.index == map[] && st.owner == map[] && st.pins == map[] && st.alloc == Configured(cfg.total, ready)
    && st.commitSeq == 0 && st.isOpen && 0 < ready && 0 < cfg.total
    && |sys.w.media.headers| == |sys.w.media.payloads| == cfg.total
  }

  // The header of the first key on the first slot.
  function FirstHeader(cfg: Config, k: Key): seq<byte> { HeaderFor(cfg, k, Live(0, 0, 0, false), 1) }

  // The store after the first key was reserved, written, and its commit tried.
  ghost predicate Tried(cfg: Config, sys: System, k: Key, done: bool) {
    var st, m := sys.w.store, sys.w.media;
    && st.index == map[k := Live(0, 0, if done then 1 else 0, done)] && st.owner == map[0 := k] && st.pins == map[]
    && st.isOpen && st.alloc.queue == [] && st.alloc.inFlight == {}
    && |m.headers| == |m.payloads| == cfg.total && 0 < cfg.total
    && m.headers[0] == FirstHeader(cfg, k) && m.payloads[0] == Some(k)
    && 0 < st.alloc.total && 0 < |st.alloc.states| && st.alloc.states[0] == if done then Committed else Reserved
  }

  lemma OneReserved(st: Store, total: nat, ready: nat, k: Key)
    requires total > 0 && ready > 0 && Admissible(k)
    requires st.index == map[] && st.owner == map[] && st.alloc == Configured(total, ready)
    ensures ReserveKeys(st, [k]).store ==
            st.(index := map[k := Live(0, 0, 0, false)], owner := map[0 := k],
                alloc := ReserveOne(Configured(total, ready)))
    ensures var a := ReserveOne(Configured(total, ready));
            a.queue == [] && a.inFlight == {} && 0 < a.total == |a.states| && a.states[0] == Reserved
  {
    hide ReserveKeys, Alloc.Valid;
    assert [k][..0] == [];
    ReserveUnfolds(st, [k]);
    NothingReserved(st);
  }

  lemma OneCommit(cfg: Config, w: World, k: Key, o: WriteOutcome)
    requires Commits(w.store, k)
    ensures CommitKeys(cfg, w, [k], [o]) == CommitOneKey(cfg, CommitRun(w, [], true, {}), k, o)
  {
    hide CommitOneKey;
    assert [k][..0] == [] && [o][..0] == [];
    assert CommitKeys(cfg, w, [], []) == CommitRun(w, [], true, {});
  }

  // Reserve, write, commit, on an empty store.
  lemma TryFirst(cfg: Config, start: System, ops: seq<Op>, sys: System, ready: nat, k: Key, done: bool)
    returns (more: seq<Op>, end: System)
    requires cfg.Valid() && Reaches(cfg, start, ops, sys) && Inv(cfg, sys) && Empty(cfg, sys, ready) && Admissible(k)
    requires !StaleMatch(cfg, sys.w.media, sys.newest, 0)
    ensures Reaches(cfg, start, more, end) && Inv(cfg, end) && Tried(cfg, end, k, done)
    ensures end.newest == sys.newest && end.w.media.containers == sys.w.media.containers
    ensures end.w.store.checkpointSeq == sys.w.store.checkpointSeq
  {
    hide Reaches, Inv, CommitKeys, ReserveKeys, FirstHeader, StaleMatch;
    OneReserved(sys.w.store, cfg.total, ready, k);
    var reserve, write := OpReserve([k]), OpPayload(k, true);
    ReachStep(cfg, start, ops, sys, reserve);
    StepKeeps(cfg, sys, reserve);
    var s1 := Apply(cfg, sys, reserve);
    ReachStep(cfg, start, ops + [reserve], s1, write);
    StepKeeps(cfg, s1, write);
    var s2 := Apply(cfg, s1, write);
    more, end := CommitFirst(cfg, start, ops + [reserve] + [write], s2, k, done);
  }

  lemma CommitFirst(cfg: Config, start: System, ops: seq<Op>, sys: System, k: Key, done: bool)
    returns (more: seq<Op>, end: System)
    requires cfg.Valid() && Reaches(cfg, start, ops, sys) && Inv(cfg, sys) && sys.w.store.isOpen &&
             sys.w.store.commitSeq == 0
    requires sys.w.store.index == map[k := Live(0, 0, 0, false)] && sys.w.store.owner == map[0 := k] &&
             sys.w.store.pins == map[]
    requires |sys.w.media.headers| == |sys.w.media.payloads| == cfg.total && 0 < cfg.total &&
             sys.w.media.payloads[0] == Some(k)
    requires sys.w.store.alloc.Valid() && sys.w.store.alloc.queue == [] && sys.w.store.alloc.inFlight == {}
    requires 0 < sys.w.store.alloc.total == |sys.w.store.alloc.states| && sys.w.store.alloc.states[0] == Reserved
    ensures Reaches(cfg, start, more, end) && Inv(cfg, end) && Tried(cfg, end, k, done)
    ensures end.newest == sys.newest && end.w.media.containers == sys.w.media.containers
    ensures end.w.store.checkpointSeq == sys.w.store.checkpointSeq
  {
    hide Reaches, Inv, CommitKeys, HeaderFor, Alloc.Valid;
    var o := if done then Done else LandedButFailed;
    var commit := OpCommit([k], [o]);
    OneCommit(cfg, sys.w, k, o);
    ReachStep(cfg, start, ops, sys, commit);
    StepKeeps(cfg, sys, commit);
    more, end := ops + [commit], Apply(cfg, sys, commit);
    assert HeaderFor(cfg, k, sys.w.store.index[k], 1) == FirstHeader(cfg, k);
    if done {
      CommitOnly(sys.w.store.alloc, 0);
    }
  }

  lemma CommitOnly(a: Alloc, s: nat)
    requires a.Valid() && s < a.total == |a.states| && a.states[s] == Reserved
    ensures CommitAll(a, [s]) == a.(states := a.states[s := Committed])
  {
    assert [s][..0] == [];
  }

  lemma RetireOnly(a: Alloc, s: nat)
    requires a.Valid() && s < a.total == |a.states| && a.states[s] == Committed
    ensures RetireAll(a, [s], Committed) == a.(states := a.states[s := Reclaiming], queue := a.queue + [s])
  {
    assert [s][..0] == [];
  }

  // The newest checkpoint lists the first key, and nothing else.
  ghost predicate Listed(cfg: Config, sys: System, k: Key) {
    sys.newest.Some? && sys.newest.value.entries == [Entry(k, 0, cfg.payloadBytes, 0, 1)]
  }

  lemma SaveFirst(cfg: Config, start: System, ops: seq<Op>, sys: System, k: Key) returns (more: seq<Op>, end: System)
    requires cfg.Valid() && Reaches(cfg, start, ops, sys) && Inv(cfg, sys) && Tried(cfg, sys, k, true)
    requires sys.w.store.checkpointSeq == 0
    requires forall i :: 0 <= i < |sys.w.media.containers| ==> SequenceOf(cfg.digests, sys.w.media.containers[i]) == 0
    ensures Reaches(cfg, start, more, end) && Inv(cfg, end) && Tried(cfg, end, k, true) && Listed(cfg, end, k)
  {
    hide Reaches, Inv, Owned, Anchored, Persist, DecodeCheckpoint, FirstHeader, Alloc.Valid;
    var save := OpCheckpoint([k], Done);
    FirstSequence(cfg, sys.w);
    InvParts(cfg, sys);
    ReachStep(cfg, start, ops, sys, save);
    StepKeeps(cfg, sys, save);
    PersistShape(cfg, sys.w, [k], Done);
    more, end := ops + [save], Apply(cfg, sys, save);
  }

  // Released: the slot waits to be zeroed.
  ghost predicate Dropped(cfg: Config, sys: System) {
    sys.w.store.alloc.queue == [0] && 0 < |sys.w.media.headers| == |sys.w.media.payloads| == cfg.total
  }

  lemma DropFirst(cfg: Config, start: System, ops: seq<Op>, sys: System, k: Key) returns (more: seq<Op>, end: System)
    requires cfg.Valid() && Reaches(cfg, start, ops, sys) && Inv(cfg, sys) && Tried(cfg, sys, k, true) &&
             Listed(cfg, sys, k)
    ensures Reaches(cfg, start, more, end) && Inv(cfg, end) && Dropped(cfg, end) && Listed(cfg, end, k)
  {
    hide Reaches, Inv, Owned, Anchored, FirstHeader, Alloc.Valid;
    var drop := OpRelease([k]);
    InvParts(cfg, sys);
    Sizes(sys.w.store.alloc);
    ReachStep(cfg, start, ops, sys, drop);
    StepKeeps(cfg, sys, drop);
    DropOnly(sys.w.store, k);
    RetireOnly(sys.w.store.alloc, 0);
    more, end := ops + [drop], Apply(cfg, sys, drop);
  }

  lemma ZeroFirst(cfg: Config, start: System, ops: seq<Op>, sys: System, k: Key) returns (more: seq<Op>, end: System)
    requires cfg.Valid() && Reaches(cfg, start, ops, sys) && Inv(cfg, sys) && Dropped(cfg, sys) && Listed(cfg, sys, k)
    ensures Reaches(cfg, start, more, end) && Inv(cfg, end) && Listed(cfg, end, k)
    ensures |end.w.media.headers| == |end.w.media.payloads| == cfg.total > 0 &&
            Unreadable(cfg.digests, end.w.media.headers[0])
  {
    hide Reaches, Inv, Owned, Anchored, Drain, Unreadable, Alloc.Valid;
    var zero := OpDrain(1, [Zeroed]);
    InvParts(cfg, sys);
    ZeroOnly(cfg, sys.w);
    ReachStep(cfg, start, ops, sys, zero);
    StepKeeps(cfg, sys, zero);
    more, end := ops + [zero], Apply(cfg, sys, zero);
  }

  // A checkpoint of the committed key, its release, its zeroing, a restart: the
  // checkpoint still lists the key, and the store is empty again.
  lemma RecycleFirst(cfg: Config, start: System, ops: seq<Op>, sys: System, k: Key, ready: nat)
    returns (more: seq<Op>, end: System)
    requires cfg.Valid() && Reaches(cfg, start, ops, sys) && Inv(cfg, sys) && Tried(cfg, sys, k, true) && 0 < ready
    requires sys.w.store.checkpointSeq == 0
    requires forall i :: 0 <= i < |sys.w.media.containers| ==> SequenceOf(cfg.digests, sys.w.media.containers[i]) == 0
    ensures Reaches(cfg, start, more, end) && Inv(cfg, end) && Empty(cfg, end, ready) && Listed(cfg, end, k)
    ensures Unreadable(cfg.digests, end.w.media.headers[0])
  {
    hide Reaches, Inv, OpenFresh, Unreadable, Tried, Dropped, Anchored, SequenceOf;
    var ops1, s1 := SaveFirst(cfg, start, ops, sys, k);
    var ops2, s2 := DropFirst(cfg, start, ops1, s1, k);
    var ops3, s3 := ZeroFirst(cfg, start, ops2, s2, k);
    var open := OpCrashOpen(ready);
    InvParts(cfg, s3);
    ReachStep(cfg, start, ops3, s3, open);
    StepKeeps(cfg, s3, open);
    more, end := ops3 + [open], Apply(cfg, s3, open);
    var e := s3.newest.value.entries[0];
    UnreadableNeverMatches(cfg, s3.w.media, e);
    OpensEmpty(cfg, s3.w.media, s3.newest, e, ready);
  }

  lemma FirstSequence(cfg: Config, w: World)
    requires w.store.checkpointSeq == 0
    requires forall i :: 0 <= i < |w.media.containers| ==> SequenceOf(cfg.digests, w.media.containers[i]) == 0
    ensures NextSequence(cfg, w) == 1
  {
    hide SequenceOf;
    var seqs := Sequences(cfg.digests, w.media.containers);
    assert Highest(seqs) == 0 || Highest(seqs) in seqs;
  }

  lemma DropOnly(st: Store, k: Key)
    requires st.index.Keys == {k} && st.index[k].committed && st.owner == map[0 := k] && st.index[k].slot == 0 &&
             st.pins == map[]
    ensures DropKeys(st, [k], true) == DropRun(st.(index := map[], owner := map[]), [0])
  {
    assert [k][..0] == [];
    assert DropKeys(st, [], true) == DropRun(st, []);
    assert st.index - {k} == map[] && st.owner - {0} == map[];
  }

  lemma ZeroOnly(cfg: Config, w: World)
    requires w.store.alloc.Valid() && w.store.alloc.queue == [0] && 0 < |w.media.headers|
    ensures |Taken(w.store.alloc, 1)| == 1
    ensures var m := Drain(w, 1, [Zeroed]).media;
            && |m.headers| == |w.media.headers| && |m.payloads| == |w.media.payloads|
            && m.containers == w.media.containers && Unreadable(cfg.digests, m.headers[0])
  {
    hide Alloc.Valid, Unreadable, TakeAll, FinishAll, RequeueAll;
    assert Taken(w.store.alloc, 1) == [0];
    assert [0][..0] == [] && [Zeroed][..0] == [];
    assert DrainSlots(w.media, [], []) == DrainRun(w.media, [], []);
    ZerosUnreadable(cfg);
  }

  // A checkpoint whose only entry does not match recovers nothing.
  lemma OpensEmpty(cfg: Config, m: Media, newest: Option<Snapshot>, e: Entry, ready: nat)
    requires Anchored(cfg, m, newest) && newest.Some? && newest.value.entries == [e] && !Matches(cfg, m, e)
    ensures var st := OpenFresh(cfg, m, ready);
            && st.index == map[] && st.owner == map[] && st.pins == map[] && st.alloc == Configured(cfg.total, ready)
            && st.commitSeq == 0 && st.isOpen
  {
    hide DecodeCheckpoint, WellFormed, HeaderVerdict;
    assert [e][..0] == [];
    assert LoadEntries(cfg, m, EMPTY_LOAD, []) == EMPTY_LOAD;
    assert LoadEntries(cfg, m, EMPTY_LOAD, [e]) == EMPTY_LOAD;
  }

  // A REWRITE THAT IS NOT SAFE. On every new pool and for every key there is a
  // run after which the key's reservation is uncommitted, its landed header
  // still satisfies the newest checkpoint, and beginning to rewrite the payload
  // makes the next open offer the key without its payload.
  lemma UnsafeRewriteReached(cfg: Config, m: Media, ready: nat, k: Key, ready': nat) returns (ops: seq<Op>, end: System)
    requires cfg.Valid() && FirstOpen(cfg, m) && Admissible(k) && 0 < ready
    ensures Reaches(cfg, Initial(cfg, m, ready), ops, end) && Commits(end.w.store, k)
    ensures var slot := end.w.store.index[k].slot; StaleMatch(cfg, end.w.media, end.newest, slot)
    ensures var m' := WritePayload(end.w, k, false).media;
            k in OpenFresh(cfg, m', ready').index && !Holds(cfg, m', OpenFresh(cfg, m', ready').index[k].slot, k)
  {
    hide Reaches, OpenFresh, Inv, Matches, FirstHeader, Alloc.Valid, Anchored;
    var s0 := Initial(cfg, m, ready);
    InitialInv(cfg, m, ready);
    NothingOnMedia(cfg, m);
    LoadFresh(cfg, m, None, ready);
    FreshSequence(cfg, m, ready);
    NoOps(cfg, s0);
    var ops1, s1 := TryFirst(cfg, s0, [], s0, ready, k, true);
    var ops2, s2 := RecycleFirst(cfg, s0, ops1, s1, k, ready);
    var e := s2.newest.value.entries[0];
    UnreadableNeverMatches(cfg, s2.w.media, e);
    ops, end := TryFirst(cfg, s0, ops2, s2, ready, k, false);
    FirstMatches(cfg, end.w.media, k);
    assert e in end.newest.value.entries;
    var m' := WritePayload(end.w, k, false).media;
    InvParts(cfg, end);
    SameContainers(cfg, end.w.media, m', end.newest);
    SameHeaders(cfg, end.w.media, m');
    OffersOnly(cfg, m', end.newest, e, ready');
  }

  // REOPENING LOSES SLOTS. On every new pool a run reaches a closed store whose
  // reopening leaves a key in the index on a slot that is free or about to be
  // zeroed.
  lemma LostSlotReached(cfg: Config, m: Media, ready: nat, k: Key, ready': nat) returns (ops: seq<Op>, end: System)
    requires cfg.Valid() && FirstOpen(cfg, m) && Admissible(k) && 0 < ready
    ensures Reaches(cfg, Initial(cfg, m, ready), ops, end) && !end.w.store.isOpen && k in end.w.store.index
    ensures var s, st' := end.w.store.index[k].slot, ReopenSame(cfg, end.w.store, end.w.media, ready');
            && k in st'.index && st'.index[k].slot == s
            && s < |st'.alloc.states| && st'.alloc.states[s] in {Free, Reclaiming}
  {
    hide Reaches, OpenFresh, ReopenSame, Inv, Owned, FirstHeader, Alloc.Valid, Anchored, Persist;
    var s0 := Initial(cfg, m, ready);
    InitialInv(cfg, m, ready);
    NothingOnMedia(cfg, m);
    LoadFresh(cfg, m, None, ready);
    FreshSequence(cfg, m, ready);
    NoOps(cfg, s0);
    var ops1, s1 := TryFirst(cfg, s0, [], s0, ready, k, false);
    var close := OpClose([], NotWritten);
    FirstSequence(cfg, s1.w);
    InvParts(cfg, s1);
    ReachStep(cfg, s0, ops1, s1, close);
    StepKeeps(cfg, s1, close);
    ops, end := ops1 + [close], Apply(cfg, s1, close);
    PersistShape(cfg, s1.w, [], NotWritten);
    assert k in end.w.store.index;
    ReopenFreesLiveSlots(cfg, end, ready');
  }

  lemma FreshSequence(cfg: Config, m: Media, ready: nat)
    requires FirstOpen(cfg, m)
    ensures OpenFresh(cfg, m, ready).checkpointSeq == 0
  {
    hide DecodeCheckpoint;
  }

  lemma FirstMatches(cfg: Config, m: Media, k: Key)
    requires cfg.Valid() && Admissible(k) && 0 < |m.headers| && m.headers[0] == FirstHeader(cfg, k)
    ensures Matches(cfg, m, Entry(k, 0, cfg.payloadBytes, 0, 1))
  {
    OwnHeaderVerdict(cfg, m, k, Live(0, 0, 0, false), 1, Entry(k, 0, cfg.payloadBytes, 0, 1));
  }

  lemma OffersOnly(cfg: Config, m: Media, newest: Option<Snapshot>, e: Entry, ready: nat)
    requires Anchored(cfg, m, newest) && newest.Some? && newest.value.entries == [e] && Matches(cfg, m, e)
    ensures e.key in OpenFresh(cfg, m, ready).index && OpenFresh(cfg, m, ready).index[e.key].slot == e.slot
  {
    hide OpenFresh, HeaderVerdict;
    LoadFresh(cfg, m, newest, ready);
    AnchoredWellFormed(cfg, m, newest);
    LoadAccepts(cfg, m, [e]);
    assert Adopted(cfg, m, LoadEntries(cfg, m, EMPTY_LOAD, [e]), e);
  }
}
