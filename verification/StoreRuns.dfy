// Whole runs of the store: any sequence of calls with any write outcomes,
// crashes included. A crash inside a call is that call with the remaining
// writes not performed (or torn), followed by a crash.
module StoreRuns {
  import opened Common
  import opened HeaderCodec
  import opened CheckpointCodec
  import opened SpaceAllocator
  import opened ObjectStore
  import opened StoreInvariant
  import opened StoreRecovery

  datatype Op =
    | OpReserve(keys: seq<Key>)
    | OpPayload(key: Key, complete: bool)
    | OpCommit(keys: seq<Key>, outs: seq<WriteOutcome>)
    | OpAbort(keys: seq<Key>)
    | OpRelease(keys: seq<Key>)
    | OpPin(keys: seq<Key>)
    | OpUnpin(keys: seq<Key>)
    | OpDrain(max: nat, zeroed: seq<ZeroOutcome>)
    | OpCheckpoint(order: seq<Key>, out: WriteOutcome)
    | OpClose(order: seq<Key>, out: WriteOutcome)
    | OpPublish(ready: nat)
    | OpCrashOpen(ready: nat)

  // What the environment guarantees of any call, whoever makes it: keys and
  // outcomes match the state, torn containers do not decode, and no counter
  // wraps at 64 bits.
  ghost predicate Possible(cfg: Config, sys: System, op: Op)
    requires sys.w.store.alloc.Valid()
  {
    match op
    case OpReserve(_) => SmallGenerations(sys.w.store.alloc)
    case OpPayload(key, _) => key in sys.w.store.index
    case OpCommit(keys, outs) => |outs| == |keys| && sys.w.store.commitSeq + |keys| < LE.U64
    case OpDrain(max, outs) => |outs| == |Taken(sys.w.store.alloc, max)|
    case OpCheckpoint(order, o) => PersistReady(cfg, sys.w, order, o)
    case OpClose(order, o) => PersistReady(cfg, sys.w, order, o)
    case _ => true
  }

  // Beyond that, torn headers do not decode, and the caller keeps its side:
  // a payload is written only under an uncommitted reservation and is durable
  // before the commit. It may be rewritten after a failed commit unless the
  // header on the slot still satisfies an entry of the newest checkpoint.
  ghost predicate Allowed(cfg: Config, sys: System, op: Op)
    requires sys.w.store.alloc.Valid()
    ensures Allowed(cfg, sys, op) ==> Possible(cfg, sys, op)
  {
    match op
    case OpPayload(key, _) =>
      Commits(sys.w.store, key) && !StaleMatch(cfg, sys.w.media, sys.newest, sys.w.store.index[key].slot)
    case OpCommit(keys, outs) => CommitReady(cfg, sys.w, keys, outs)
    case OpDrain(max, outs) => |outs| == |Taken(sys.w.store.alloc, max)| && ZeroOutcomesReal(cfg, outs)
    case _ => Possible(cfg, sys, op)
  }

  ghost function Apply(cfg: Config, sys: System, op: Op): System
    requires sys.w.store.alloc.Valid() && Possible(cfg, sys, op)
  {
    var w, st := sys.w, sys.w.store;
    match op
    case OpReserve(keys) => System(w.(store := Reserve(st, keys)), sys.newest, sys.attempted * st.owner.Keys)
    case OpPayload(key, complete) => sys.(w := WritePayload(w, key, complete))
    case OpCommit(keys, outs) =>
      System(Commit(cfg, w, keys, outs), sys.newest,
             if st.isOpen then sys.attempted + CommitKeys(cfg, w, keys, outs).tried else sys.attempted)
    case OpAbort(keys) => sys.(w := w.(store := Abort(st, keys)))
    case OpRelease(keys) => sys.(w := w.(store := Release(st, keys)))
    case OpPin(keys) => sys.(w := w.(store := Pin(st, keys)))
    case OpUnpin(keys) => sys.(w := w.(store := Unpin(st, keys)))
    case OpDrain(max, outs) => sys.(w := Drain(w, max, outs))
    case OpCheckpoint(order, o) =>
      System(CheckpointCall(cfg, w, order, o),
             if st.isOpen then NewestAfter(cfg, sys, order, o) else sys.newest, sys.attempted)
    case OpClose(order, o) =>
      System(Close(cfg, w, order, o),
             if st.isOpen && st.dirty then NewestAfter(cfg, sys, order, o) else sys.newest, sys.attempted)
    case OpPublish(ready) => sys.(w := w.(store := st.(alloc := st.alloc.(readyLimit := ready))))
    case OpCrashOpen(ready) => System(World(OpenFresh(cfg, w.media, ready), w.media), sys.newest, {})
  }

  // ---- one step ----

  lemma SmallerAttempted(cfg: Config, sys: System)
    requires Inv(cfg, sys)
    ensures Inv(cfg, sys.(attempted := sys.attempted * sys.w.store.owner.Keys))
  {
    hide Owned, Backed, Anchored, Matches, Holds;
    if sys.newest.Some? {
      forall e | e in sys.newest.value.entries
        ensures Guards(cfg, sys.w, sys.attempted * sys.w.store.owner.Keys, e)
      {
        assert Guards(cfg, sys.w, sys.attempted, e);
      }
    }
  }

  lemma PinsOnly(st: Store, keys: seq<Key>)
    ensures Pin(st, keys) == st.(pins := Pin(st, keys).pins) && Unpin(st, keys) == st.(pins := Unpin(st, keys).pins)
  {
  }

  // Fields outside the invariant, and the ready limit, may change freely.
  lemma OtherFields(cfg: Config, sys: System, st': Store)
    requires Inv(cfg, sys)
    requires st'.index == sys.w.store.index && st'.owner == sys.w.store.owner
    requires st'.alloc == sys.w.store.alloc.(readyLimit := st'.alloc.readyLimit)
    ensures Inv(cfg, sys.(w := sys.w.(store := st')))
  {
    ReadyLimitKeepsValid(sys.w.store.alloc, st'.alloc.readyLimit);
    var mid := sys.w.store.(alloc := st'.alloc);
    assert forall s :: s in sys.w.store.owner ==> Occupied(cfg, sys.w.store, s, sys.w.store.owner[s]);
    hide Matches, Holds, BackedBy, Anchored, Alloc.Valid;
    StatesMoved(cfg, sys, st'.alloc, sys.w.store.dirty);
    var sys' := sys.(w := sys.w.(store := mid.(dirty := sys.w.store.dirty)));
    assert Inv(cfg, sys');
    StoreFlags(cfg, sys', sys.w.(store := st'));
    if sys.newest.Some? {
      forall e | e in sys.newest.value.entries
        ensures Guards(cfg, sys.w.(store := st'), sys.attempted, e)
      {
        assert Guards(cfg, sys'.w, sys.attempted, e);
      }
    }
  }

  lemma InvIsTruthful(cfg: Config, sys: System)
    requires Inv(cfg, sys)
    ensures Truthful(cfg, sys.w.media, sys.newest)
  {
    hide Owned, Anchored, Matches, Holds, BackedBy;
    if sys.newest.Some? {
      forall e | e in sys.newest.value.entries && Matches(cfg, sys.w.media, e)
        ensures Holds(cfg, sys.w.media, e.slot, e.key)
      {
        assert Guards(cfg, sys.w, sys.attempted, e);
      }
    }
  }

  lemma CommitStep(cfg: Config, sys: System, keys: seq<Key>, outs: seq<WriteOutcome>)
    requires cfg.Valid() && Inv(cfg, sys) && CommitReady(cfg, sys.w, keys, outs) && sys.w.store.isOpen
    ensures var r := CommitKeys(cfg, sys.w, keys, outs);
            Inv(cfg, System(Commit(cfg, sys.w, keys, outs), sys.newest, sys.attempted + r.tried))
  {
    assert sys.w.store.alloc.Valid();
    hide Owned, Backed, Anchored, Guarded, CommitKeys, MarkCommitted;
    CommitLoopKeeps(cfg, sys, keys, outs);
    var r := CommitKeys(cfg, sys.w, keys, outs);
    if r.ok && r.slots != [] {
      MarkKeeps(cfg, System(r.w, sys.newest, sys.attempted + r.tried), r.slots);
    }
  }

  lemma CloseStep(cfg: Config, sys: System, order: seq<Key>, o: WriteOutcome)
    requires cfg.Valid() && Inv(cfg, sys) && PersistReady(cfg, sys.w, order, o) && sys.w.store.isOpen
    ensures forall k :: k in order ==> k in sys.w.store.index
    ensures Inv(cfg, System(Close(cfg, sys.w, order, o),
                            if sys.w.store.dirty then NewestAfter(cfg, sys, order, o) else sys.newest, sys.attempted))
  {
    OrderKnown(sys.w.store, order);
    hide Owned, Backed, Anchored, Guarded, Persist;
    if sys.w.store.dirty {
      PersistKeeps(cfg, sys, order, o);
      var w' := Persist(cfg, sys.w, order, o);
      OtherFields(cfg, System(w', NewestAfter(cfg, sys, order, o), sys.attempted), w'.store.(isOpen := false));
    } else {
      OtherFields(cfg, sys, sys.w.store.(isOpen := false));
    }
  }

  // Every call, with every outcome, keeps the invariant.
  lemma StepKeeps(cfg: Config, sys: System, op: Op)
    requires cfg.Valid() && Inv(cfg, sys) && Allowed(cfg, sys, op)
    ensures Inv(cfg, Apply(cfg, sys, op))
  {
    assert sys.w.store.alloc.Valid();
    hide Owned, Backed, Anchored, Guarded, Commit, CommitKeys, Close, Persist, Drain, Abort, Release, OpenFresh,
         ReserveKeys,
         WritePayload, CommitReady, PersistReady, Pin, Unpin;
    match op {
      case OpReserve(keys) =>
        SmallerAttempted(cfg, sys);
        ReserveKeeps(cfg, sys.w, sys.newest, sys.attempted * sys.w.store.owner.Keys, keys);
        assert sys.w.(store := sys.w.store) == sys.w;
      case OpPayload(key, complete) => PayloadKeeps(cfg, sys, key, complete);
      case OpCommit(keys, outs) =>
        if sys.w.store.isOpen {
          CommitStep(cfg, sys, keys, outs);
        } else {
          ClosedCommit(cfg, sys.w, keys, outs);
        }
      case OpAbort(keys) => AbortKeeps(cfg, sys, keys);
      case OpRelease(keys) => ReleaseKeeps(cfg, sys, keys);
      case OpPin(keys) =>
        PinsOnly(sys.w.store, keys);
        OtherFields(cfg, sys, Pin(sys.w.store, keys));
      case OpUnpin(keys) =>
        PinsOnly(sys.w.store, keys);
        OtherFields(cfg, sys, Unpin(sys.w.store, keys));
      case OpDrain(max, outs) => DrainKeeps(cfg, sys, max, outs);
      case OpCheckpoint(order, o) =>
        if sys.w.store.isOpen {
          PersistKeeps(cfg, sys, order, o);
        }
      case OpClose(order, o) =>
        if sys.w.store.isOpen {
          CloseStep(cfg, sys, order, o);
        } else {
          ClosedClose(cfg, sys.w, order, o);
        }
      case OpPublish(ready) => OtherFields(cfg, sys, sys.w.store.(alloc := sys.w.store.alloc.(readyLimit := ready)));
      case OpCrashOpen(ready) =>
        InvIsTruthful(cfg, sys);
        OpenKeeps(cfg, sys.w.media, sys.newest, ready);
    }
  }

  lemma ClosedCommit(cfg: Config, w: World, keys: seq<Key>, outs: seq<WriteOutcome>)
    requires |outs| == |keys| && w.store.alloc.Valid() && !w.store.isOpen
    ensures Commit(cfg, w, keys, outs) == w
  {
  }

  lemma ClosedClose(cfg: Config, w: World, order: seq<Key>, o: WriteOutcome)
    requires !w.store.isOpen && forall k :: k in order ==> k in w.store.index
    ensures Close(cfg, w, order, o) == w
  {
  }

  // ---- every run ----

  // The first open of a pool: no container decodes; slots may hold anything.
  ghost predicate FirstOpen(cfg: Config, m: Media) {
    && |m.headers| == |m.payloads| == cfg.total && |m.containers| == CONTAINER_COUNT
    && forall i :: 0 <= i < |m.containers| ==> SequenceOf(cfg.digests, m.containers[i]) == 0
  }

  ghost function Initial(cfg: Config, m: Media, ready: nat): System {
    System(World(OpenFresh(cfg, m, ready), m), None, {})
  }

  lemma InitialInv(cfg: Config, m: Media, ready: nat)
    requires cfg.Valid() && FirstOpen(cfg, m)
    ensures Inv(cfg, Initial(cfg, m, ready))
  {
    hide OpenFresh, DecodeCheckpoint;
    assert Anchored(cfg, m, None);
    OpenKeeps(cfg, m, None, ready);
  }

  // The system is reached by the ops, each allowed where it is taken.
  ghost predicate Reaches(cfg: Config, start: System, ops: seq<Op>, end: System) {
    if ops == [] then end == start
    else exists mid ::
      && Reaches(cfg, start, ops[..|ops| - 1], mid) && mid.w.store.alloc.Valid()
      && Allowed(cfg, mid, ops[|ops| - 1]) && end == Apply(cfg, mid, ops[|ops| - 1])
  }

  lemma {:induction false} RunKeeps(cfg: Config, start: System, ops: seq<Op>, end: System)
    requires cfg.Valid() && Inv(cfg, start) && Reaches(cfg, start, ops, end)
    ensures Inv(cfg, end)
  {
    hide Inv, Apply, Allowed;
    if ops != [] {
      var mid :| Reaches(cfg, start, ops[..|ops| - 1], mid) && mid.w.store.alloc.Valid() &&
                 Allowed(cfg, mid, ops[|ops| - 1]) && end == Apply(cfg, mid, ops[|ops| - 1]);
      RunKeeps(cfg, start, ops[..|ops| - 1], mid);
      StepKeeps(cfg, mid, ops[|ops| - 1]);
    }
  }

  // CRASH SAFETY. Crash anywhere in any run and open: every key the store then
  // offers sits on a slot holding a complete payload with that key's
  // fingerprint.
  lemma CrashSafety(cfg: Config, m: Media, ready: nat, ops: seq<Op>, end: System, ready': nat, k: Key)
    requires cfg.Valid() && FirstOpen(cfg, m) && Reaches(cfg, Initial(cfg, m, ready), ops, end)
    requires k in OpenFresh(cfg, end.w.media, ready').index
    ensures var st := OpenFresh(cfg, end.w.media, ready');
            && st.index[k].committed && st.index[k].slot < |end.w.media.payloads|
            && Holds(cfg, end.w.media, st.index[k].slot, k)
  {
    hide OpenFresh, Anchored, Owned, HeaderVerdict;
    InitialInv(cfg, m, ready);
    RunKeeps(cfg, Initial(cfg, m, ready), ops, end);
    InvIsTruthful(cfg, end);
    OpenKeeps(cfg, end.w.media, end.newest, ready');
    var st := OpenFresh(cfg, end.w.media, ready');
    OpenAllCommitted(cfg, end, ready', k);
    assert BackedBy(cfg, end.w.media, k, st.index[k]);
  }

  // ---- whose payload it is ----

  ghost predicate PayloadsAmong(m: Media, used: set<Key>) {
    forall s :: 0 <= s < |m.payloads| && m.payloads[s].Some? ==> m.payloads[s].value in used
  }

  ghost predicate WritesAmong(ops: seq<Op>, used: set<Key>) {
    forall i :: 0 <= i < |ops| && ops[i].OpPayload? ==> ops[i].key in used
  }

  // No two of these keys share a fingerprint.
  ghost predicate NoCollisionAmong(d: Digests, used: set<Key>) {
    forall a, b :: a in used && b in used && FingerprintOf(d, a) == FingerprintOf(d, b) ==> a == b
  }

  lemma {:induction false} CommitPayloads(cfg: Config, w: World, keys: seq<Key>, outs: seq<WriteOutcome>)
    requires |outs| == |keys|
    ensures CommitKeys(cfg, w, keys, outs).w.media.payloads == w.media.payloads
  {
    hide HeaderFor;
    if keys != [] {
      CommitPayloads(cfg, w, keys[..|keys| - 1], outs[..|keys| - 1]);
    }
  }

  lemma {:induction false} DrainPayloads(m: Media, taken: seq<nat>, outs: seq<ZeroOutcome>, used: set<Key>)
    requires |outs| == |taken| && PayloadsAmong(m, used)
    ensures PayloadsAmong(DrainSlots(m, taken, outs).media, used)
  {
    if taken != [] {
      DrainPayloads(m, taken[..|taken| - 1], outs[..|taken| - 1], used);
    }
  }

  lemma StepPayloads(cfg: Config, sys: System, op: Op, used: set<Key>)
    requires sys.w.store.alloc.Valid() && Allowed(cfg, sys, op) && PayloadsAmong(sys.w.media, used)
    requires op.OpPayload? ==> op.key in used
    ensures PayloadsAmong(Apply(cfg, sys, op).w.media, used)
  {
    hide CommitKeys, DrainSlots, ContainerImage, Padded, OpenFresh, Alloc.Valid;
    match op {
      case OpCommit(keys, outs) => CommitPayloads(cfg, sys.w, keys, outs);
      case OpDrain(max, outs) => DrainPayloads(sys.w.media, Taken(sys.w.store.alloc, max), outs, used);
      case _ =>
    }
  }

  lemma {:induction false} RunPayloads(cfg: Config, start: System, ops: seq<Op>, end: System, used: set<Key>)
    requires Reaches(cfg, start, ops, end) && PayloadsAmong(start.w.media, used) && WritesAmong(ops, used)
    ensures PayloadsAmong(end.w.media, used)
  {
    hide Apply, Allowed, PayloadsAmong;
    if ops != [] {
      var n := |ops| - 1;
      var mid :| Reaches(cfg, start, ops[..n], mid) && mid.w.store.alloc.Valid() && Allowed(cfg, mid, ops[n]) &&
                 end == Apply(cfg, mid, ops[n]);
      RunPayloads(cfg, start, ops[..n], mid, used);
      StepPayloads(cfg, mid, ops[n], used);
    }
  }

  // CRASH SAFETY, EXACTLY. When the digests tell k apart from the keys whose
  // payloads were on media or were written, the payload found is k's own.
  lemma CrashSafetyExact(cfg: Config, m: Media, ready: nat, ops: seq<Op>, end: System, ready': nat, k: Key,
                         used: set<Key>)
    requires cfg.Valid() && FirstOpen(cfg, m) && Reaches(cfg, Initial(cfg, m, ready), ops, end)
    requires k in OpenFresh(cfg, end.w.media, ready').index
    requires PayloadsAmong(m, used) && WritesAmong(ops, used) && NoCollisionAmong(cfg.digests, used + {k})
    ensures var slot := OpenFresh(cfg, end.w.media, ready').index[k].slot;
            slot < |end.w.media.payloads| && end.w.media.payloads[slot] == Some(k)
  {
    hide OpenFresh, Reaches, FirstOpen, FingerprintOf, WritesAmong;
    CrashSafety(cfg, m, ready, ops, end, ready', k);
    RunPayloads(cfg, Initial(cfg, m, ready), ops, end, used);
  }

  lemma OpenAllCommitted(cfg: Config, sys: System, ready: nat, k: Key)
    requires cfg.Valid() && Inv(cfg, sys) && k in OpenFresh(cfg, sys.w.media, ready).index
    ensures OpenFresh(cfg, sys.w.media, ready).index[k].committed
  {
    LoadFresh(cfg, sys.w.media, sys.newest, ready);
    if sys.newest.Some? {
      var es := sys.newest.value.entries;
      LoadAccepts(cfg, sys.w.media, es);
      assert KeyFrom(cfg, sys.w.media, es, k);
      var e :| e in es && Matches(cfg, sys.w.media, e) && e.key == k;
      assert Adopted(cfg, sys.w.media, LoadEntries(cfg, sys.w.media, EMPTY_LOAD, es), e);
    }
  }

  // Draining leaves every owned slot's header and payload alone.
  lemma DrainSpares(cfg: Config, sys: System, max: nat, outs: seq<ZeroOutcome>, s: nat)
    requires Owned(cfg, sys.w.store) && |sys.w.media.headers| == |sys.w.media.payloads| == cfg.total
    requires s in sys.w.store.owner && |outs| == |Taken(sys.w.store.alloc, max)|
    ensures var st := sys.w.store;
            && st.owner[s] in st.index && st.index[st.owner[s]].slot == s
            && s !in st.alloc.freeList && s !in st.alloc.queue && s !in st.alloc.inFlight
    ensures var m' := Drain(sys.w, max, outs).media;
            && s < |m'.headers| == |sys.w.media.headers| && s < |m'.payloads| == |sys.w.media.payloads|
            && m'.headers[s] == sys.w.media.headers[s] && m'.payloads[s] == sys.w.media.payloads[s]
  {
    hide Alloc.Valid, Owned, DrainSlots, FinishAll, RequeueAll, TakeAll;
    OwnedPlace(cfg, sys.w.store, max, s);
    DrainOthers(sys.w.media, Taken(sys.w.store.alloc, max), outs, s);
  }

  lemma {:induction false} DrainOthers(m: Media, taken: seq<nat>, outs: seq<ZeroOutcome>, s: nat)
    requires |outs| == |taken| && s !in taken && s < |m.headers| && s < |m.payloads|
    ensures var m' := DrainSlots(m, taken, outs).media;
            && |m'.headers| == |m.headers| && |m'.payloads| == |m.payloads| && m'.containers == m.containers
            && m'.headers[s] == m.headers[s] && m'.payloads[s] == m.payloads[s]
  {
    if taken != [] {
      DrainOthers(m, taken[..|taken| - 1], outs[..|taken| - 1], s);
      assert taken[|taken| - 1] in taken;
    }
  }

  lemma OwnedPlace(cfg: Config, st: Store, max: nat, s: nat)
    requires Owned(cfg, st) && s in st.owner
    ensures st.owner[s] in st.index && st.index[st.owner[s]].slot == s && s < cfg.total
    ensures s !in st.alloc.freeList && s !in st.alloc.queue && s !in st.alloc.inFlight
    ensures forall t :: t in Taken(st.alloc, max) ==> t < cfg.total && t != s
  {
    assert Occupied(cfg, st, s, st.owner[s]);
    assert forall t :: t in Taken(st.alloc, max) ==> t in st.alloc.queue;
  }
}
