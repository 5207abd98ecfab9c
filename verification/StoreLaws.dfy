// What the store's calls promise their caller beyond keeping the invariant:
// who is granted space, how far a failing commit got, in which order commits
// are numbered, and what a pin is worth.
module StoreLaws {
  import opened Common
  import opened CheckpointCodec
  import opened SpaceAllocator
  import opened ObjectStore
  import opened StoreEffects
  import opened StoreInvariant
  import opened StoreLoad
  import opened StoreRuns

  // ---- reserve ----

  // The keys that may be stored at all, in the order given.
  function AdmissibleOf(keys: seq<Key>): seq<Key> {
    if keys == [] then []
    else
      var front, k := AdmissibleOf(keys[..|keys| - 1]), keys[|keys| - 1];
      if Admissible(k) then front + [k] else front
  }

  function KeysOf(grants: seq<Grant>): (r: seq<Key>)
    ensures |r| == |grants| && forall i :: 0 <= i < |r| ==> r[i] == grants[i].key
  {
    seq(|grants|, i requires 0 <= i < |grants| => grants[i].key)
  }

  // The batch is granted in order up to position m: all of it, or up to the
  // first new key for which there was no slot left.
  ghost predicate GrantedUpTo(st: Store, keys: seq<Key>, r: ReserveRun, m: nat) {
    && m <= |keys| && KeysOf(r.accepted) == AdmissibleOf(keys[..m]) && r.rejected == |keys| - |r.accepted|
    && (r.exhausted <==> m < |keys|)
    && (r.exhausted ==>
          && Admissible(keys[m]) && keys[m] !in r.store.index
          && NextFree(r.store.alloc) >= r.store.alloc.total)
  }

  // WHO IS GRANTED. Every admissible key is, in batch order, until a key that
  // is not in the index finds no free slot; from there on all are rejected.
  lemma {:induction false} ReserveGrants(st: Store, keys: seq<Key>) returns (m: nat)
    requires st.alloc.Valid()
    ensures GrantedUpTo(st, keys, ReserveKeys(st, keys), m)
  {
    hide ReserveStep, AdmissibleOf, GrantedUpTo;
    if keys == [] {
      m := 0;
      NothingGranted(st);
    } else {
      var n := |keys| - 1;
      var front := ReserveGrants(st, keys[..n]);
      var r := ReserveKeys(st, keys[..n]);
      GrantStep(st, keys, r, front);
      m := if r.exhausted || ReserveStep(r, keys[n]).exhausted then front else |keys|;
    }
  }

  lemma NothingGranted(st: Store)
    ensures GrantedUpTo(st, [], ReserveRun(st, [], 0, false), 0)
  {
  }

  lemma GrantStep(st: Store, keys: seq<Key>, r: ReserveRun, m: nat)
    requires keys != [] && r.store.alloc.Valid() && GrantedUpTo(st, keys[..|keys| - 1], r, m)
    ensures var r' := ReserveStep(r, keys[|keys| - 1]);
            GrantedUpTo(st, keys, r', if r.exhausted || r'.exhausted then m else |keys|)
  {
    hide Alloc.Valid, ReserveOne, AdmissibleOf;
    var n := |keys| - 1;
    var front, k := keys[..n], keys[n];
    assert keys[..n] == front && keys[..|keys|] == keys;
    if r.exhausted {
      assert front[..m] == keys[..m] && front[m] == keys[m];
    } else {
      assert front[..m] == front;
      AdmissibleLast(keys);
    }
  }

  lemma AdmissibleLast(keys: seq<Key>)
    requires keys != []
    ensures var front, k := AdmissibleOf(keys[..|keys| - 1]), keys[|keys| - 1];
            AdmissibleOf(keys) == if Admissible(k) then front + [k] else front
  {
  }

  // ---- commit ----

  // HOW FAR A FAILING COMMIT GOT. The keys before the failed header write are
  // committed, the one whose write failed is not, and nothing after it was
  // touched.
  lemma {:induction false} CommitStops(cfg: Config, w: World, keys: seq<Key>, outs: seq<WriteOutcome>) returns (m: nat)
    requires |outs| == |keys| && !CommitKeys(cfg, w, keys, outs).ok
    ensures m < |keys| && !outs[m].Done?
    ensures var st, st' := w.store, CommitKeys(cfg, w, keys, outs).w.store;
            && keys[m] in st.index && !st.index[keys[m]].committed && st'.index.Keys == st.index.Keys
            && st'.index[keys[m]] == st.index[keys[m]] && keys[m] !in keys[..m]
            && (forall k :: k in keys[..m] && k in st.index ==> st'.index[k].committed)
            && (forall k :: k in st.index && k !in keys[..m] ==> st'.index[k] == st.index[k])
  {
    hide HeaderFor, CommitFacts;
    var n := |keys| - 1;
    var r := CommitKeys(cfg, w, keys[..n], outs[..n]);
    CommitEffect(cfg, w, keys[..n], outs[..n]);
    CommitKept(w, keys[..n], r);
    if r.ok {
      m := n;
    } else {
      m := CommitStops(cfg, w, keys[..n], outs[..n]);
      assert keys[..n][..m] == keys[..m] && keys[..n][m] == keys[m];
    }
  }

  lemma CommitKept(w: World, keys: seq<Key>, r: CommitRun)
    requires CommitFacts(w, keys, r)
    ensures r.w.store.index.Keys == w.store.index.Keys
    ensures r.ok ==> forall k :: k in keys && k in w.store.index ==> r.w.store.index[k].committed
    ensures forall k :: k in w.store.index && (k !in keys || w.store.index[k].committed) ==>
              r.w.store.index[k] == w.store.index[k]
  {
  }

  ghost predicate Numbered(st: Store, st': Store) {
    && st.commitSeq <= st'.commitSeq
    && (forall k :: NowCommitted(st, st', k) ==> st.commitSeq < st'.index[k].commitSeq <= st'.commitSeq)
    && (forall j, k :: NowCommitted(st, st', j) && NowCommitted(st, st', k) && j != k ==>
          st'.index[j].commitSeq != st'.index[k].commitSeq)
  }

  // Every key a call commits gets a sequence number of its own, above all
  // numbers used before the call.
  lemma {:induction false} CommitNumbers(cfg: Config, w: World, keys: seq<Key>, outs: seq<WriteOutcome>)
    requires |outs| == |keys|
    ensures Numbered(w.store, CommitKeys(cfg, w, keys, outs).w.store)
  {
    hide HeaderFor, CommitFacts;
    if keys != [] {
      var n := |keys| - 1;
      var r := CommitKeys(cfg, w, keys[..n], outs[..n]);
      CommitNumbers(cfg, w, keys[..n], outs[..n]);
      CommitEffect(cfg, w, keys[..n], outs[..n]);
      CommitKept(w, keys[..n], r);
      if r.ok && Commits(r.w.store, keys[n]) {
        NumberNext(w.store, r.w.store, CommitOneKey(cfg, r, keys[n], outs[n]).w.store, keys[n]);
      }
    }
  }

  lemma NumberNext(st: Store, mid: Store, st': Store, key: Key)
    requires Numbered(st, mid) && st'.commitSeq == mid.commitSeq + 1
    requires mid.index.Keys == st.index.Keys == st'.index.Keys && key in mid.index && !mid.index[key].committed
    requires forall k :: k in mid.index && k != key ==> st'.index[k] == mid.index[k]
    requires st'.index[key].committed ==> st'.index[key].commitSeq == st'.commitSeq
    ensures Numbered(st, st')
  {
    forall k | NowCommitted(st, st', k) && k != key
      ensures NowCommitted(st, mid, k)
    {
    }
  }

  // ---- pins ----

  function PinsOn(st: Store, k: Key): nat { if k in st.pins then st.pins[k] else 0 }

  ghost predicate PinsPositive(st: Store) { forall k :: k in st.pins ==> st.pins[k] > 0 }

  // Neither keeps a count of zero.
  lemma {:induction false} PinsStayPositive(st: Store, keys: seq<Key>)
    requires PinsPositive(st)
    ensures PinsPositive(Pin(st, keys)) && PinsPositive(Unpin(st, keys))
  {
    if keys != [] {
      PinsStayPositive(st, keys[..|keys| - 1]);
    }
  }

  // Each pin of a key counts once.
  lemma {:induction false} PinCounts(st: Store, keys: seq<Key>, k: Key)
    ensures PinsOn(Pin(st, keys), k) == PinsOn(st, k) + multiset(keys)[k]
  {
    if keys != [] {
      var n := |keys| - 1;
      PinCounts(st, keys[..n], k);
      assert keys == keys[..n] + [keys[n]];
    }
  }

  // Each unpin takes one pin off, and a key without a pin is passed over.
  lemma {:induction false} UnpinCounts(st: Store, keys: seq<Key>, k: Key)
    requires PinsPositive(st)
    ensures PinsOn(Unpin(st, keys), k) ==
            if multiset(keys)[k] >= PinsOn(st, k) then 0 else PinsOn(st, k) - multiset(keys)[k]
  {
    if keys != [] {
      var n := |keys| - 1;
      UnpinCounts(st, keys[..n], k);
      PinsStayPositive(st, keys[..n]);
      assert keys == keys[..n] + [keys[n]];
    }
  }

  // Pins nest: unpinning a batch undoes pinning it, and nothing else.
  lemma UnpinUndoesPin(st: Store, keys: seq<Key>)
    requires PinsPositive(st)
    ensures Unpin(Pin(st, keys), keys) == st
  {
    hide Pin, Unpin;
    PinsOnly(st, keys);
    PinsOnly(Pin(st, keys), keys);
    PinsStayPositive(st, keys);
    PinsStayPositive(Pin(st, keys), keys);
    var back := Unpin(Pin(st, keys), keys);
    forall k
      ensures k in back.pins <==> k in st.pins
      ensures k in st.pins ==> back.pins[k] == st.pins[k]
    {
      PinCounts(st, keys, k);
      UnpinCounts(Pin(st, keys), keys, k);
      assert PinsOn(back, k) == PinsOn(st, k);
    }
    assert back.pins == st.pins;
  }

  // A pinned key survives every release until it has been unpinned as often.
  lemma PinProtects(st: Store, pinned: seq<Key>, unpinned: seq<Key>, released: seq<Key>, k: Key)
    requires st.alloc.Valid() && PinsPositive(st) && k in st.index
    requires multiset(unpinned)[k] < PinsOn(st, k) + multiset(pinned)[k]
    ensures Unpin(Pin(st, pinned), unpinned).alloc == st.alloc
    ensures var r := Release(Unpin(Pin(st, pinned), unpinned), released); k in r.index && r.index[k] == st.index[k]
  {
    hide Pin, Unpin, Release, Alloc.Valid;
    PinsOnly(st, pinned);
    PinsOnly(Pin(st, pinned), unpinned);
    PinsStayPositive(st, pinned);
    PinCounts(st, pinned, k);
    UnpinCounts(Pin(st, pinned), unpinned, k);
    PinnedSurvivesRelease(Unpin(Pin(st, pinned), unpinned), released, k);
  }

  // ---- over runs ----

  // No committed key is numbered above the counter, and no pin count is zero.
  ghost predicate Counted(st: Store) {
    && (forall k :: k in st.index && st.index[k].committed ==> st.index[k].commitSeq <= st.commitSeq)
    && PinsPositive(st)
  }

  lemma {:induction false} ReserveCounts(st: Store, keys: seq<Key>)
    requires st.alloc.Valid()
    ensures ReserveKeys(st, keys).store.commitSeq == st.commitSeq
  {
    hide Alloc.Valid, ReserveOne;
    if keys != [] {
      ReserveCounts(st, keys[..|keys| - 1]);
    }
  }

  lemma ReserveStaysCounted(st: Store, keys: seq<Key>)
    requires st.alloc.Valid() && Counted(st)
    ensures Counted(Reserve(st, keys))
  {
    hide Alloc.Valid, ReserveKeys;
    ReserveCounts(st, keys);
    ReserveEffect(st, keys);
  }

  lemma CommitStaysCounted(cfg: Config, w: World, keys: seq<Key>, outs: seq<WriteOutcome>)
    requires w.store.alloc.Valid() && |outs| == |keys| && Counted(w.store)
    ensures Counted(Commit(cfg, w, keys, outs).store)
  {
    hide Alloc.Valid, CommitKeys, CommitAll, CommitFacts;
    var st, st' := w.store, CommitKeys(cfg, w, keys, outs).w.store;
    CommitNumbers(cfg, w, keys, outs);
    CommitEffect(cfg, w, keys, outs);
    CommitKept(w, keys, CommitKeys(cfg, w, keys, outs));
    CommitPins(cfg, w, keys, outs);
    forall k | k in st'.index && st'.index[k].committed
      ensures st'.index[k].commitSeq <= st'.commitSeq
    {
      assert st.index[k].committed || NowCommitted(st, st', k);
    }
  }

  lemma {:induction false} CommitPins(cfg: Config, w: World, keys: seq<Key>, outs: seq<WriteOutcome>)
    requires |outs| == |keys|
    ensures CommitKeys(cfg, w, keys, outs).w.store.pins == w.store.pins
  {
    hide HeaderFor;
    if keys != [] {
      CommitPins(cfg, w, keys[..|keys| - 1], outs[..|keys| - 1]);
    }
  }

  lemma DropStaysCounted(st: Store, keys: seq<Key>)
    requires st.alloc.Valid() && Counted(st)
    ensures Counted(Abort(st, keys)) && Counted(Release(st, keys))
  {
    hide Alloc.Valid, DropKeys, RetireAll;
    DropEffect(st, keys, false);
    DropEffect(st, keys, true);
  }

  lemma PinStaysCounted(st: Store, keys: seq<Key>)
    requires Counted(st)
    ensures Counted(Pin(st, keys)) && Counted(Unpin(st, keys))
  {
    hide Pin, Unpin;
    PinsOnly(st, keys);
    PinsStayPositive(st, keys);
  }

  lemma OpenIsCounted(cfg: Config, m: Media, ready: nat)
    requires cfg.Valid()
    ensures Counted(OpenFresh(cfg, m, ready))
  {
    OpenAnyMedia(cfg, m, ready);
    OpenHasNoPins(cfg, m, ready);
    hide OpenFresh;
  }

  lemma OpenHasNoPins(cfg: Config, m: Media, ready: nat)
    ensures OpenFresh(cfg, m, ready).pins == map[]
  {
    hide LoadEntries, AdoptSlots, DecodeCheckpoint, Alloc.Valid, Sequences, SelectContainer;
  }

  lemma PersistStaysCounted(cfg: Config, w: World, order: seq<Key>, o: WriteOutcome)
    requires Counted(w.store) && forall k :: k in order ==> k in w.store.index
    ensures Counted(CheckpointCall(cfg, w, order, o).store) && Counted(Close(cfg, w, order, o).store)
  {
    hide NextSequence, ContainerImage, Sequences, NextContainer, EntriesFor;
  }

  lemma StepStaysCounted(cfg: Config, sys: System, op: Op)
    requires cfg.Valid() && sys.w.store.alloc.Valid() && Possible(cfg, sys, op) && Counted(sys.w.store)
    ensures Counted(Apply(cfg, sys, op).w.store)
  {
    hide Alloc.Valid, Counted, Reserve, Commit, Abort, Release, Pin, Unpin, Close, CheckpointCall, OpenFresh;
    match op {
      case OpReserve(keys) => ReserveStaysCounted(sys.w.store, keys);
      case OpCommit(keys, outs) => CommitStaysCounted(cfg, sys.w, keys, outs);
      case OpAbort(keys) => DropStaysCounted(sys.w.store, keys);
      case OpRelease(keys) => DropStaysCounted(sys.w.store, keys);
      case OpPin(keys) => PinStaysCounted(sys.w.store, keys);
      case OpUnpin(keys) => PinStaysCounted(sys.w.store, keys);
      case OpCheckpoint(order, o) => PersistStaysCounted(cfg, sys.w, order, o);
      case OpClose(order, o) => PersistStaysCounted(cfg, sys.w, order, o);
      case OpCrashOpen(ready) => OpenIsCounted(cfg, sys.w.media, ready);
      case _ => SameCounters(sys.w.store, Apply(cfg, sys, op).w.store);
    }
  }

  lemma SameCounters(st: Store, st': Store)
    requires Counted(st) && st'.index == st.index && st'.commitSeq == st.commitSeq && st'.pins == st.pins
    ensures Counted(st')
  {
  }

  lemma {:induction false} RunsStayCounted(cfg: Config, m: Media, ready: nat, ops: seq<Op>, end: System)
    requires cfg.Valid() && Reaches(cfg, Initial(cfg, m, ready), ops, end)
    ensures Counted(end.w.store)
  {
    hide Counted, Allowed, Possible, Apply, OpenFresh;
    if ops == [] {
      OpenIsCounted(cfg, m, ready);
    } else {
      var front, op := ops[..|ops| - 1], ops[|ops| - 1];
      var mid :| Reaches(cfg, Initial(cfg, m, ready), front, mid) && mid.w.store.alloc.Valid() &&
                 Allowed(cfg, mid, op) && end == Apply(cfg, mid, op);
      RunsStayCounted(cfg, m, ready, front, mid);
      StepStaysCounted(cfg, mid, op);
    }
  }

  // COMMIT ORDER. In every run, crashes and restarts included, a key that a
  // call commits is numbered above every key committed before it.
  lemma CommitsAreOrdered(cfg: Config, m: Media, ready: nat, ops: seq<Op>, end: System, keys: seq<Key>,
                          outs: seq<WriteOutcome>, j: Key, k: Key)
    requires cfg.Valid() && Reaches(cfg, Initial(cfg, m, ready), ops, end) && |outs| == |keys|
    requires k in end.w.store.index && end.w.store.index[k].committed
    ensures var st' := CommitKeys(cfg, end.w, keys, outs).w.store;
            NowCommitted(end.w.store, st', j) ==> end.w.store.index[k].commitSeq < st'.index[j].commitSeq
  {
    hide Reaches, CommitKeys;
    RunsStayCounted(cfg, m, ready, ops, end);
    CommitNumbers(cfg, end.w, keys, outs);
  }
}
