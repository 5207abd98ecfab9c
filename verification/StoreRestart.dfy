// Clean restart: as long as no commit call fails, a clean dirty flag means
// that recovery would reproduce the committed index exactly, and allocator
// and index agree slot by slot.
module StoreRestart {
  import opened Common
  import opened HeaderCodec
  import opened CheckpointCodec
  import opened SpaceAllocator
  import opened ObjectStore
  import opened StoreInvariant
  import opened StoreRecovery
  import opened StoreRuns
  import opened StoreEffects

  // ---- recovery reproduces the index ----

  ghost predicate Recorded(index: map<Key, Live>, e: Entry) {
    && e.key in index && index[e.key].committed
    && index[e.key].slot == e.slot && index[e.key].generation == e.generation
  }

  ghost predicate Covered(index: map<Key, Live>, entries: seq<Entry>, k: Key) {
    exists e :: e in entries && e.key == k && Recorded(index, e)
  }

  ghost function Entries(newest: Option<Snapshot>): seq<Entry> { if newest.Some? then newest.value.entries else [] }

  // On these slots the newest checkpoint's acceptable entries are the
  // committed index.
  ghost predicate InStep(cfg: Config, index: map<Key, Live>, m: Media, newest: Option<Snapshot>, slots: iset<nat>) {
    && (forall e :: e in Entries(newest) && e.slot in slots ==> (Matches(cfg, m, e) <==> Recorded(index, e)))
    && (forall k :: k in index && index[k].committed && index[k].slot in slots ==> Covered(index, Entries(newest), k))
  }

  // On all slots but the loose ones.
  ghost predicate Synced(cfg: Config, index: map<Key, Live>, m: Media, newest: Option<Snapshot>, loose: set<nat>) {
    InStep(cfg, index, m, newest, iset s: nat | s !in loose)
  }

  ghost function CommittedPart(index: map<Key, Live>): map<Key, Live> {
    map k | k in index && index[k].committed :: index[k]
  }

  // Same committed keys, same headers where it matters: still synced.
  lemma SyncedFrame(cfg: Config, index: map<Key, Live>, m: Media, newest: Option<Snapshot>, loose: set<nat>,
                    index': map<Key, Live>, m': Media)
    requires Synced(cfg, index, m, newest, loose)
    requires CommittedPart(index') == CommittedPart(index)
    requires forall e :: e in Entries(newest) && e.slot !in loose ==> (Matches(cfg, m, e) <==> Matches(cfg, m', e))
    ensures Synced(cfg, index', m', newest, loose)
  {
    hide Matches;
    assert forall k :: k in CommittedPart(index) <==> k in index && index[k].committed;
    assert forall k :: k in CommittedPart(index') <==> k in index' && index'[k].committed;
    assert forall e :: Recorded(index, e) <==> Recorded(index', e);
    forall k | k in index' && index'[k].committed && index'[k].slot !in loose
      ensures Covered(index', Entries(newest), k)
    {
      assert k in CommittedPart(index) && index[k] == index'[k];
      assert Covered(index, Entries(newest), k);
    }
  }

  lemma SameHeaders(cfg: Config, m: Media, m': Media)
    requires m.headers == m'.headers
    ensures forall e :: Matches(cfg, m, e) <==> Matches(cfg, m', e)
  {
    hide Decode;
  }

  // Opening a synced system gives back exactly the committed part.
  lemma SyncedRecovery(cfg: Config, sys: System, ready: nat)
    requires cfg.Valid() && Inv(cfg, sys) && Synced(cfg, sys.w.store.index, sys.w.media, sys.newest, {})
    ensures OpenFresh(cfg, sys.w.media, ready).index == CommittedPart(sys.w.store.index)
  {
    hide LoadEntries, OpenFresh, AdoptSlots, Owned, Backed, Guarded, Anchored, Accepts, Synced, WellFormed;
    var m, index := sys.w.media, sys.w.store.index;
    LoadFresh(cfg, m, sys.newest, ready);
    var st := OpenFresh(cfg, m, ready);
    if sys.newest.None? {
      NothingCommitted(cfg, index, m);
    } else {
      AnchoredWellFormed(cfg, m, sys.newest);
      LoadAccepts(cfg, m, sys.newest.value.entries);
      forall k
        ensures k in st.index <==> k in index && index[k].committed
        ensures k in st.index ==> st.index[k] == index[k]
      {
        RecoveredKey(cfg, sys, LoadEntries(cfg, m, EMPTY_LOAD, sys.newest.value.entries), k);
      }
    }
  }

  lemma NothingCommitted(cfg: Config, index: map<Key, Live>, m: Media)
    requires Synced(cfg, index, m, None, {})
    ensures CommittedPart(index) == map[]
  {
    assert forall k :: k in index && index[k].committed ==> Covered(index, [], k);
  }

  lemma RecoveredKey(cfg: Config, sys: System, r: LoadRun, k: Key)
    requires Inv(cfg, sys) && Synced(cfg, sys.w.store.index, sys.w.media, sys.newest, {})
    requires sys.newest.Some? && Accepts(cfg, sys.w.media, sys.newest.value.entries, r)
    ensures k in r.index <==> k in sys.w.store.index && sys.w.store.index[k].committed
    ensures k in r.index ==> r.index[k] == sys.w.store.index[k]
  {
    hide Anchored, Owned, Guarded, HeaderVerdict, Holds;
    var m, index, es := sys.w.media, sys.w.store.index, sys.newest.value.entries;
    if k in r.index {
      assert KeyFrom(cfg, m, es, k);
      var e :| e in es && Matches(cfg, m, e) && e.key == k;
      assert Adopted(cfg, m, r, e) && Recorded(index, e);
      assert BackedBy(cfg, m, k, index[k]);
      EntryWellFormed(cfg, m, sys.newest, e);
      SameVerdict(cfg, m, e, EntryFor(cfg, k, index[k]));
    }
    if k in index && index[k].committed {
      assert Covered(index, es, k);
      var e :| e in es && e.key == k && Recorded(index, e);
      assert Matches(cfg, m, e) && Adopted(cfg, m, r, e);
    }
  }

  lemma SameVerdict(cfg: Config, m: Media, e: Entry, f: Entry)
    requires e.key == f.key && e.slot == f.slot && e.payloadBytes == f.payloadBytes && e.generation == f.generation
    ensures HeaderVerdict(cfg, m, e) == HeaderVerdict(cfg, m, f)
  {
    hide Decode;
  }

  // Opening establishes the synced state again.
  lemma OpenSynced(cfg: Config, m: Media, newest: Option<Snapshot>, ready: nat)
    requires cfg.Valid() && Truthful(cfg, m, newest)
    ensures Synced(cfg, OpenFresh(cfg, m, ready).index, m, newest, {})
  {
    hide OpenFresh, AdoptSlots, LoadEntries, Anchored, WellFormed, Matches, Holds, Accepts, Recorded;
    LoadFresh(cfg, m, newest, ready);
    if newest.Some? {
      var es := newest.value.entries;
      AnchoredWellFormed(cfg, m, newest);
      LoadAccepts(cfg, m, es);
      var r := LoadEntries(cfg, m, EMPTY_LOAD, es);
      forall e | e in es
        ensures Matches(cfg, m, e) <==> Recorded(r.index, e)
      {
        AcceptedIffRecorded(cfg, m, es, r, e);
      }
      forall k | k in r.index && r.index[k].committed
        ensures Covered(r.index, es, k)
      {
        AcceptedIsCovered(cfg, m, es, r, k);
      }
    }
  }

  lemma AcceptedIffRecorded(cfg: Config, m: Media, es: seq<Entry>, r: LoadRun, e: Entry)
    requires WellFormed(cfg, es) && Accepts(cfg, m, es, r) && e in es
    ensures Matches(cfg, m, e) <==> Recorded(r.index, e)
  {
    hide HeaderVerdict, WellFormed;
    if Matches(cfg, m, e) {
      assert Adopted(cfg, m, r, e);
    }
    if Recorded(r.index, e) {
      assert KeyFrom(cfg, m, es, e.key);
      var f :| f in es && Matches(cfg, m, f) && f.key == e.key;
      OneEntryPerKey(cfg, es, e, f);
    }
  }

  lemma AcceptedIsCovered(cfg: Config, m: Media, es: seq<Entry>, r: LoadRun, k: Key)
    requires Accepts(cfg, m, es, r) && k in r.index
    ensures Covered(r.index, es, k)
  {
    hide HeaderVerdict;
    assert KeyFrom(cfg, m, es, k);
    var e :| e in es && Matches(cfg, m, e) && e.key == k;
    assert Adopted(cfg, m, r, e);
    assert Recorded(r.index, e);
  }

  lemma OneEntryPerKey(cfg: Config, es: seq<Entry>, e: Entry, f: Entry)
    requires WellFormed(cfg, es) && e in es && f in es && e.key == f.key
    ensures e == f
  {
    var i :| 0 <= i < |es| && es[i] == e;
    var j :| 0 <= j < |es| && es[j] == f;
  }

  // A landed checkpoint write synchronises.
  lemma PersistSynced(cfg: Config, sys: System, order: seq<Key>, o: WriteOutcome)
    requires cfg.Valid() && Inv(cfg, sys) && PersistReady(cfg, sys.w, order, o) && (o.Done? || o.LandedButFailed?)
    ensures forall k :: k in order ==> k in sys.w.store.index
    ensures Synced(cfg, sys.w.store.index, sys.w.media, NewestAfter(cfg, sys, order, o), {})
  {
    var st := sys.w.store;
    OrderKnown(st, order);
    var es := EntriesFor(cfg, st, order);
    hide Anchored, Guarded, HeaderVerdict, Holds, NextSequence;
    forall e | e in es
      ensures Matches(cfg, sys.w.media, e) && Recorded(st.index, e)
    {
      EntryOfOrder(cfg, st, order, e);
      assert BackedBy(cfg, sys.w.media, e.key, st.index[e.key]);
    }
    forall k | k in st.index && st.index[k].committed
      ensures Covered(st.index, es, k)
    {
      assert k in order;
      var i :| 0 <= i < |order| && order[i] == k;
      assert es[i] in es && Recorded(st.index, es[i]);
    }
  }

  // ---- keeping it through every call ----

  // The commit call of this step, if any, did not stop at a failed write.
  ghost predicate CommitSucceeds(cfg: Config, sys: System, op: Op) {
    op.OpCommit? && |op.outs| == |op.keys| && sys.w.store.isOpen ==>
      CommitKeys(cfg, sys.w, op.keys, op.outs).ok
  }

  ghost predicate CleanMeansSynced(cfg: Config, sys: System, loose: set<nat>) {
    !sys.w.store.dirty ==> Synced(cfg, sys.w.store.index, sys.w.media, sys.newest, loose)
  }

  lemma DropSync(cfg: Config, sys: System, keys: seq<Key>, release: bool, loose: set<nat>)
    requires Inv(cfg, sys) && CleanMeansSynced(cfg, sys, loose)
    ensures var r := DropKeys(sys.w.store, keys, release);
            !sys.w.store.dirty && (release ==> r.slots == []) ==>
              Synced(cfg, r.store.index, sys.w.media, sys.newest, loose)
  {
    hide Inv, Synced;
    DropEffect(sys.w.store, keys, release);
    var r := DropKeys(sys.w.store, keys, release);
    hide DropKeys;
    if !sys.w.store.dirty && (release ==> r.slots == []) {
      var index := sys.w.store.index;
      assert forall k :: k in keys && Droppable(sys.w.store, k, release) ==>
                           DroppedSlot(sys.w.store, keys, release, index[k].slot);
      forall k | k in index && index[k].committed
        ensures k in r.store.index && r.store.index[k] == index[k]
      {
      }
      assert CommittedPart(r.store.index) == CommittedPart(index);
      SyncedFrame(cfg, index, sys.w.media, sys.newest, loose, r.store.index, sys.w.media);
    }
  }

  lemma DrainSync(cfg: Config, sys: System, max: nat, outs: seq<ZeroOutcome>, loose: set<nat>)
    requires Inv(cfg, sys) && |outs| == |Taken(sys.w.store.alloc, max)| && ZeroOutcomesReal(cfg, outs)
    requires Synced(cfg, sys.w.store.index, sys.w.media, sys.newest, loose)
    ensures Synced(cfg, sys.w.store.index, Drain(sys.w, max, outs).media, sys.newest, loose)
  {
    var m, m' := sys.w.media, Drain(sys.w, max, outs).media;
    var taken := Taken(sys.w.store.alloc, max);
    TakenInRange(cfg, sys, max);
    DrainLoop(cfg, m, taken, outs);
    hide Drain, DrainSlots, Anchored, Guarded, Alloc.Valid, HeaderVerdict, Holds, Unreadable, Taken;
    if sys.newest.Some? {
      forall e | e in sys.newest.value.entries && e.slot !in loose
        ensures Matches(cfg, m, e) <==> Matches(cfg, m', e)
      {
        if Matches(cfg, m, e) {
          assert Recorded(sys.w.store.index, e);
          assert Entitled(cfg, sys.w.store, e.key, sys.w.store.index[e.key]);
          DrainSpares(cfg, sys, max, outs, e.slot);
          SameHeaderSameVerdict(cfg, m, m', e);
        } else if e.slot < |m'.headers| && Unreadable(cfg.digests, m'.headers[e.slot]) {
          UnreadableNeverMatches(cfg, m', e);
        } else if e.slot < |m'.headers| {
          assert IntactOrDead(cfg, m, m', e.slot);
          SameHeaderSameVerdict(cfg, m, m', e);
        } else {
          SameHeaderSameVerdict(cfg, m, m', e);
        }
      }
    }
    SyncedFrame(cfg, sys.w.store.index, m, sys.newest, loose, sys.w.store.index, m');
  }

  lemma TakenInRange(cfg: Config, sys: System, max: nat)
    requires Inv(cfg, sys)
    ensures forall s :: s in Taken(sys.w.store.alloc, max) ==> s < |sys.w.media.headers| == |sys.w.media.payloads|
  {
    assert forall s :: s in Taken(sys.w.store.alloc, max) ==> s in sys.w.store.alloc.queue;
  }

  lemma ReserveSync(cfg: Config, sys: System, keys: seq<Key>, loose: set<nat>)
    requires Inv(cfg, sys) && Synced(cfg, sys.w.store.index, sys.w.media, sys.newest, loose)
    ensures sys.w.store.alloc.Valid() &&
            Synced(cfg, ReserveKeys(sys.w.store, keys).store.index, sys.w.media, sys.newest, loose)
  {
    assert sys.w.store.alloc.Valid();
    hide Inv, Synced, ReserveKeys, Alloc.Valid, Granted;
    ReserveEffect(sys.w.store, keys);
    var index, index' := sys.w.store.index, ReserveKeys(sys.w.store, keys).store.index;
    assert CommittedPart(index') == CommittedPart(index);
    SyncedFrame(cfg, index, sys.w.media, sys.newest, loose, index', sys.w.media);
  }

  lemma TornSync(cfg: Config, sys: System, order: seq<Key>, o: WriteOutcome, loose: set<nat>)
    requires cfg.Valid() && Inv(cfg, sys) && PersistReady(cfg, sys.w, order, o) && CleanMeansSynced(cfg, sys, loose)
    ensures forall k :: k in order ==> k in sys.w.store.index
    ensures var w' := Persist(cfg, sys.w, order, o);
            && (!w'.store.dirty ==> Synced(cfg, w'.store.index, w'.media, NewestAfter(cfg, sys, order, o), loose))
            && (o.Done? || o.LandedButFailed? ==>
                  Synced(cfg, w'.store.index, w'.media, NewestAfter(cfg, sys, order, o), {}))
  {
    OrderKnown(sys.w.store, order);
    PersistShape(cfg, sys.w, order, o);
    var w' := Persist(cfg, sys.w, order, o);
    hide Inv, Synced, Persist;
    SameHeaders(cfg, sys.w.media, w'.media);
    var newest' := NewestAfter(cfg, sys, order, o);
    if o.Done? || o.LandedButFailed? {
      PersistSynced(cfg, sys, order, o);
      SyncedFrame(cfg, sys.w.store.index, sys.w.media, newest', {}, w'.store.index, w'.media);
      FewerClaims(cfg, w'.store.index, w'.media, newest', {}, loose);
    } else if !w'.store.dirty {
      SyncedFrame(cfg, sys.w.store.index, sys.w.media, newest', loose, w'.store.index, w'.media);
    }
  }

  // Fewer slots, fewer claims.
  lemma FewerClaims(cfg: Config, index: map<Key, Live>, m: Media, newest: Option<Snapshot>, loose: set<nat>,
                    more: set<nat>)
    requires Synced(cfg, index, m, newest, loose) && loose <= more
    ensures Synced(cfg, index, m, newest, more)
  {
    hide Matches, Recorded, Covered;
  }

  // A commit call changes headers and index entries only where it tried.
  lemma {:induction false} CommitTouches(cfg: Config, w: World, keys: seq<Key>, outs: seq<WriteOutcome>)
    requires |outs| == |keys|
    ensures var r := CommitKeys(cfg, w, keys, outs);
            && |r.w.media.headers| == |w.media.headers|
            && (forall s :: 0 <= s < |w.media.headers| && s !in r.tried ==> r.w.media.headers[s] == w.media.headers[s])
            && r.w.store.index.Keys == w.store.index.Keys
            && (forall k :: k in w.store.index ==> r.w.store.index[k].slot == w.store.index[k].slot)
            && (forall k :: k in w.store.index && w.store.index[k].slot !in r.tried ==>
                  r.w.store.index[k] == w.store.index[k])
  {
    hide HeaderFor;
    if keys != [] {
      CommitTouches(cfg, w, keys[..|keys| - 1], outs[..|keys| - 1]);
    }
  }

  // After a failed call nothing is claimed of the slots it tried.
  lemma CommitSync(cfg: Config, sys: System, keys: seq<Key>, outs: seq<WriteOutcome>, loose: set<nat>)
    requires |outs| == |keys| && Synced(cfg, sys.w.store.index, sys.w.media, sys.newest, loose)
    ensures var r := CommitKeys(cfg, sys.w, keys, outs);
            Synced(cfg, r.w.store.index, r.w.media, sys.newest, loose + r.tried)
  {
    CommitTouches(cfg, sys.w, keys, outs);
    var r := CommitKeys(cfg, sys.w, keys, outs);
    hide CommitKeys, Matches;
    var index, index' := sys.w.store.index, r.w.store.index;
    forall e | e in Entries(sys.newest) && e.slot !in loose + r.tried
      ensures Matches(cfg, r.w.media, e) <==> Recorded(index', e)
    {
      SameHeaderSameVerdict(cfg, sys.w.media, r.w.media, e);
      MatchesIsVerdict(cfg, sys.w.media, r.w.media, e);
    }
    forall k | k in index' && index'[k].committed && index'[k].slot !in loose + r.tried
      ensures Covered(index', Entries(sys.newest), k)
    {
      assert Covered(index, Entries(sys.newest), k);
    }
  }

  lemma MatchesIsVerdict(cfg: Config, m: Media, m': Media, e: Entry)
    requires HeaderVerdict(cfg, m, e) == HeaderVerdict(cfg, m', e)
    ensures Matches(cfg, m, e) == Matches(cfg, m', e)
  {
  }

  // A checkpoint that reaches the media, or a restart.
  ghost predicate Resets(sys: System, op: Op) {
    || op.OpCrashOpen?
    || (op.OpCheckpoint? && sys.w.store.isOpen && (op.out.Done? || op.out.LandedButFailed?))
    || (op.OpClose? && sys.w.store.isOpen && sys.w.store.dirty && (op.out.Done? || op.out.LandedButFailed?))
  }

  // The slots on which a commit call that failed has tried a header write,
  // since the last checkpoint that reached the media or the last restart.
  ghost function LooseAfter(cfg: Config, sys: System, op: Op, loose: set<nat>): set<nat>
    requires sys.w.store.alloc.Valid() && Possible(cfg, sys, op)
  {
    if Resets(sys, op) then {}
    else if op.OpCommit? && sys.w.store.isOpen && !CommitKeys(cfg, sys.w, op.keys, op.outs).ok
    then loose + CommitKeys(cfg, sys.w, op.keys, op.outs).tried
    else loose
  }

  lemma SyncStep(cfg: Config, sys: System, op: Op, loose: set<nat>)
    requires cfg.Valid() && Inv(cfg, sys) && Allowed(cfg, sys, op) && CleanMeansSynced(cfg, sys, loose)
    ensures sys.w.store.alloc.Valid() && CleanMeansSynced(cfg, Apply(cfg, sys, op), LooseAfter(cfg, sys, op, loose))
  {
    hide Inv, Owned, Anchored, Apply, Allowed, CleanMeansSynced, LooseAfter, Alloc.Valid;
    InvParts(cfg, sys);
    match op {
      case OpCommit(_, _) => SyncCommit(cfg, sys, op, loose);
      case OpAbort(_) => SyncDrop(cfg, sys, op, loose);
      case OpRelease(_) => SyncDrop(cfg, sys, op, loose);
      case OpCheckpoint(_, _) => SyncPersist(cfg, sys, op, loose);
      case OpClose(_, _) => SyncPersist(cfg, sys, op, loose);
      case OpCrashOpen(ready) => SyncOpen(cfg, sys, ready, loose);
      case OpReserve(_) => SyncReserve(cfg, sys, op, loose);
      case _ => SyncQuiet(cfg, sys, op, loose);
    }
  }

  lemma SyncCommit(cfg: Config, sys: System, op: Op, loose: set<nat>)
    requires Inv(cfg, sys) && Allowed(cfg, sys, op) && CleanMeansSynced(cfg, sys, loose) && op.OpCommit?
    ensures sys.w.store.alloc.Valid() && CleanMeansSynced(cfg, Apply(cfg, sys, op), LooseAfter(cfg, sys, op, loose))
  {
    hide Synced, Inv, Owned, Anchored, Alloc.Valid, CommitKeys;
    InvParts(cfg, sys);
    CommitEffect(cfg, sys.w, op.keys, op.outs);
    if !sys.w.store.dirty {
      CommitSync(cfg, sys, op.keys, op.outs, loose);
    }
  }

  lemma SyncDrop(cfg: Config, sys: System, op: Op, loose: set<nat>)
    requires Inv(cfg, sys) && CleanMeansSynced(cfg, sys, loose) && (op.OpAbort? || op.OpRelease?)
    ensures sys.w.store.alloc.Valid() && CleanMeansSynced(cfg, Apply(cfg, sys, op), LooseAfter(cfg, sys, op, loose))
  {
    hide Synced, Inv, Owned, Anchored, Alloc.Valid, DropKeys, RetireAll;
    InvParts(cfg, sys);
    DropSync(cfg, sys, op.keys, op.OpRelease?, loose);
  }

  lemma SyncPersist(cfg: Config, sys: System, op: Op, loose: set<nat>)
    requires cfg.Valid() && Inv(cfg, sys) && Allowed(cfg, sys, op) && CleanMeansSynced(cfg, sys, loose)
    requires op.OpCheckpoint? || op.OpClose?
    ensures sys.w.store.alloc.Valid() && CleanMeansSynced(cfg, Apply(cfg, sys, op), LooseAfter(cfg, sys, op, loose))
  {
    hide Synced, Inv, Owned, Anchored, Alloc.Valid, Persist, PersistReady;
    InvParts(cfg, sys);
    TornSync(cfg, sys, op.order, op.out, loose);
  }

  lemma SyncOpen(cfg: Config, sys: System, ready: nat, loose: set<nat>)
    requires cfg.Valid() && Inv(cfg, sys)
    ensures sys.w.store.alloc.Valid()
    ensures var op := OpCrashOpen(ready); CleanMeansSynced(cfg, Apply(cfg, sys, op), LooseAfter(cfg, sys, op, loose))
  {
    hide Synced, Inv, Owned, Anchored, Alloc.Valid, OpenFresh, Truthful;
    InvParts(cfg, sys);
    InvIsTruthful(cfg, sys);
    OpenSynced(cfg, sys.w.media, sys.newest, ready);
  }

  lemma SyncReserve(cfg: Config, sys: System, op: Op, loose: set<nat>)
    requires Inv(cfg, sys) && Allowed(cfg, sys, op) && CleanMeansSynced(cfg, sys, loose) && op.OpReserve?
    ensures sys.w.store.alloc.Valid() && CleanMeansSynced(cfg, Apply(cfg, sys, op), LooseAfter(cfg, sys, op, loose))
  {
    hide Synced, Inv, Owned, Anchored, Alloc.Valid, ReserveKeys;
    InvParts(cfg, sys);
    ReserveEffect(sys.w.store, op.keys);
    if !sys.w.store.dirty {
      ReserveSync(cfg, sys, op.keys, loose);
    }
  }

  lemma SyncQuiet(cfg: Config, sys: System, op: Op, loose: set<nat>)
    requires Inv(cfg, sys) && Allowed(cfg, sys, op) && CleanMeansSynced(cfg, sys, loose)
    requires op.OpPayload? || op.OpPin? || op.OpUnpin? || op.OpDrain? || op.OpPublish?
    ensures sys.w.store.alloc.Valid() && CleanMeansSynced(cfg, Apply(cfg, sys, op), LooseAfter(cfg, sys, op, loose))
  {
    hide Synced, Inv, Owned, Anchored, Alloc.Valid, DrainSlots, FinishAll, RequeueAll, TakeAll, StaleMatch;
    InvParts(cfg, sys);
    var st, m := sys.w.store, sys.w.media;
    match op {
      case OpPayload(key, complete) =>
        var m' := WritePayload(sys.w, key, complete).media;
        if !st.dirty {
          SameHeaders(cfg, m, m');
          SyncedFrame(cfg, st.index, m, sys.newest, loose, st.index, m');
        }
      case OpPin(keys) => PinsOnly(st, keys);
      case OpUnpin(keys) => PinsOnly(st, keys);
      case OpDrain(max, outs) =>
        if !st.dirty {
          DrainSync(cfg, sys, max, outs, loose);
        }
      case OpPublish(ready) =>
    }
  }

  lemma CommitReadySizes(cfg: Config, w: World, keys: seq<Key>, outs: seq<WriteOutcome>)
    requires CommitReady(cfg, w, keys, outs)
    ensures |outs| == |keys|
  {
  }

  // ---- runs without a failed commit ----

  ghost predicate CleanlyReaches(cfg: Config, start: System, ops: seq<Op>, end: System) {
    if ops == [] then end == start
    else exists mid ::
      && CleanlyReaches(cfg, start, ops[..|ops| - 1], mid) && mid.w.store.alloc.Valid()
      && Allowed(cfg, mid, ops[|ops| - 1]) && CommitSucceeds(cfg, mid, ops[|ops| - 1])
      && end == Apply(cfg, mid, ops[|ops| - 1])
  }

  lemma NothingLoose(cfg: Config, sys: System, op: Op)
    requires sys.w.store.alloc.Valid() && Possible(cfg, sys, op) && CommitSucceeds(cfg, sys, op)
    ensures LooseAfter(cfg, sys, op, {}) == {}
  {
    hide CommitKeys;
  }

  lemma {:induction false} CleanRunKeeps(cfg: Config, start: System, ops: seq<Op>, end: System)
    requires cfg.Valid() && Inv(cfg, start) && CleanMeansSynced(cfg, start, {}) && CleanlyReaches(cfg, start, ops, end)
    ensures Inv(cfg, end) && CleanMeansSynced(cfg, end, {}) && (Agrees(start.w.store) ==> Agrees(end.w.store))
  {
    hide Inv, Apply, Allowed, Possible, CleanMeansSynced, CommitSucceeds, Agrees, LooseAfter;
    if ops != [] {
      var mid :| CleanlyReaches(cfg, start, ops[..|ops| - 1], mid) && mid.w.store.alloc.Valid() &&
                 Allowed(cfg, mid, ops[|ops| - 1]) && CommitSucceeds(cfg, mid, ops[|ops| - 1]) &&
                 end == Apply(cfg, mid, ops[|ops| - 1]);
      CleanRunKeeps(cfg, start, ops[..|ops| - 1], mid);
      StepKeeps(cfg, mid, ops[|ops| - 1]);
      SyncStep(cfg, mid, ops[|ops| - 1], {});
      NothingLoose(cfg, mid, ops[|ops| - 1]);
      if Agrees(start.w.store) {
        AgreeStep(cfg, mid, ops[|ops| - 1]);
      }
    }
  }

  lemma InitialClean(cfg: Config, m: Media, ready: nat)
    requires cfg.Valid() && FirstOpen(cfg, m)
    ensures var sys := Initial(cfg, m, ready); Inv(cfg, sys) && CleanMeansSynced(cfg, sys, {}) && Agrees(sys.w.store)
  {
    InitialInv(cfg, m, ready);
    assert Anchored(cfg, m, None);
    LoadFresh(cfg, m, None, ready);
    hide OpenFresh;
    OpenSynced(cfg, m, None, ready);
  }

  // CLEAN RESTART. In every run in which no commit call failed, a close that
  // reports success followed by open gives back exactly the committed keys,
  // with the same slots, generations and commit sequence numbers.
  lemma CleanRestartIsExact(cfg: Config, m: Media, ready: nat, ops: seq<Op>, end: System, order: seq<Key>,
                            o: WriteOutcome, ready': nat)
    requires cfg.Valid() && FirstOpen(cfg, m) && CleanlyReaches(cfg, Initial(cfg, m, ready), ops, end)
    requires end.w.store.isOpen && PersistReady(cfg, end.w, order, o)
    requires end.w.store.dirty ==> o.Done?
    ensures forall k :: k in order ==> k in end.w.store.index
    ensures OpenFresh(cfg, Close(cfg, end.w, order, o).media, ready').index == CommittedPart(end.w.store.index)
  {
    InitialClean(cfg, m, ready);
    CleanRunKeeps(cfg, Initial(cfg, m, ready), ops, end);
    CloseIsExact(cfg, end, order, o, ready');
  }

  // A run, and the slots it leaves loose.
  ghost predicate Tracks(cfg: Config, start: System, ops: seq<Op>, end: System, loose: set<nat>) {
    if ops == [] then end == start && loose == {}
    else
      var front, last := ops[..|ops| - 1], ops[|ops| - 1];
      exists mid, before ::
        && Tracks(cfg, start, front, mid, before) && mid.w.store.alloc.Valid() && Allowed(cfg, mid, last)
        && end == Apply(cfg, mid, last) && loose == LooseAfter(cfg, mid, last, before)
  }

  lemma {:induction false} ReachesTracks(cfg: Config, start: System, ops: seq<Op>, end: System)
    returns (loose: set<nat>)
    requires Reaches(cfg, start, ops, end)
    ensures Tracks(cfg, start, ops, end, loose)
  {
    hide Apply, Allowed, Possible, LooseAfter;
    loose := {};
    if ops != [] {
      var mid :| Reaches(cfg, start, ops[..|ops| - 1], mid) && mid.w.store.alloc.Valid() &&
                 Allowed(cfg, mid, ops[|ops| - 1]) && end == Apply(cfg, mid, ops[|ops| - 1]);
      var before := ReachesTracks(cfg, start, ops[..|ops| - 1], mid);
      loose := LooseAfter(cfg, mid, ops[|ops| - 1], before);
    }
  }

  lemma {:induction false} TrackKeeps(cfg: Config, start: System, ops: seq<Op>, end: System, loose: set<nat>)
    requires cfg.Valid() && Inv(cfg, start) && CleanMeansSynced(cfg, start, {}) && Tracks(cfg, start, ops, end, loose)
    ensures Inv(cfg, end) && CleanMeansSynced(cfg, end, loose)
  {
    hide Inv, Apply, Allowed, Possible, LooseAfter, CleanMeansSynced;
    if ops != [] {
      var front, last := ops[..|ops| - 1], ops[|ops| - 1];
      var mid, before :| Tracks(cfg, start, front, mid, before) && mid.w.store.alloc.Valid() &&
                         Allowed(cfg, mid, last) && end == Apply(cfg, mid, last) &&
                         loose == LooseAfter(cfg, mid, last, before);
      TrackKeeps(cfg, start, front, mid, before);
      StepKeeps(cfg, mid, last);
      SyncStep(cfg, mid, last, before);
    }
  }

  // FAILED COMMITS ARE REPAIRED. Whatever happened before, one checkpoint that
  // reaches the media, or one restart, makes every later close exact again,
  // until the next commit call that fails.
  lemma ExactAgainAfter(cfg: Config, m: Media, ready: nat, before: seq<Op>, mid: System, op: Op, ops: seq<Op>,
                        end: System,
                        order: seq<Key>, o: WriteOutcome, ready': nat)
    requires cfg.Valid() && FirstOpen(cfg, m) && Reaches(cfg, Initial(cfg, m, ready), before, mid)
    requires mid.w.store.alloc.Valid() && Allowed(cfg, mid, op) && Resets(mid, op)
    requires CleanlyReaches(cfg, Apply(cfg, mid, op), ops, end)
    requires end.w.store.isOpen && PersistReady(cfg, end.w, order, o) && (end.w.store.dirty ==> o.Done?)
    ensures forall k :: k in order ==> k in end.w.store.index
    ensures OpenFresh(cfg, Close(cfg, end.w, order, o).media, ready').index == CommittedPart(end.w.store.index)
  {
    hide Inv, Apply, Allowed, Possible, Resets, Reaches, CleanlyReaches, OpenFresh, FirstOpen, Initial, Close,
         PersistReady;
    SyncedAfterReset(cfg, m, ready, before, mid, op);
    CleanRunKeeps(cfg, Apply(cfg, mid, op), ops, end);
    CloseIsExact(cfg, end, order, o, ready');
  }

  lemma SyncedAfterReset(cfg: Config, m: Media, ready: nat, before: seq<Op>, mid: System, op: Op)
    requires cfg.Valid() && FirstOpen(cfg, m) && Reaches(cfg, Initial(cfg, m, ready), before, mid)
    requires mid.w.store.alloc.Valid() && Allowed(cfg, mid, op) && Resets(mid, op)
    ensures Inv(cfg, Apply(cfg, mid, op)) && CleanMeansSynced(cfg, Apply(cfg, mid, op), {})
  {
    hide Inv, Apply, Allowed, Possible, Resets, Reaches, FirstOpen, Initial, CleanMeansSynced, Tracks, CommitKeys;
    var loose := ReachesTracks(cfg, Initial(cfg, m, ready), before, mid);
    InitialClean(cfg, m, ready);
    TrackKeeps(cfg, Initial(cfg, m, ready), before, mid, loose);
    StepKeeps(cfg, mid, op);
    SyncStep(cfg, mid, op, loose);
  }

  // The same for any state at all whose close had something to write.
  lemma CloseIsExact(cfg: Config, sys: System, order: seq<Key>, o: WriteOutcome, ready: nat)
    requires cfg.Valid() && Inv(cfg, sys) && sys.w.store.isOpen && PersistReady(cfg, sys.w, order, o)
    requires if sys.w.store.dirty then o.Done? else Synced(cfg, sys.w.store.index, sys.w.media, sys.newest, {})
    ensures forall k :: k in order ==> k in sys.w.store.index
    ensures OpenFresh(cfg, Close(cfg, sys.w, order, o).media, ready).index == CommittedPart(sys.w.store.index)
  {
    OrderKnown(sys.w.store, order);
    CloseStep(cfg, sys, order, o);
    PersistShape(cfg, sys.w, order, o);
    hide Inv, OpenFresh, Persist, Synced;
    var w' := Close(cfg, sys.w, order, o);
    var newest' := if sys.w.store.dirty then NewestAfter(cfg, sys, order, o) else sys.newest;
    if sys.w.store.dirty {
      PersistSynced(cfg, sys, order, o);
    }
    SameHeaders(cfg, sys.w.media, w'.media);
    SyncedFrame(cfg, sys.w.store.index, sys.w.media, newest', {}, w'.store.index, w'.media);
    SyncedRecovery(cfg, System(w', newest', sys.attempted), ready);
  }

  // ---- index and allocator agree ----

  ghost predicate AgreesAt(st: Store, s: nat)
    requires s < |st.alloc.states|
  {
    var owned := s in st.owner && st.owner[s] in st.index;
    && (st.alloc.states[s] == Committed <==> owned && st.index[st.owner[s]].committed)
    && (st.alloc.states[s] == Reserved <==> owned && !st.index[st.owner[s]].committed)
  }

  // Allocator-committed is owned-and-committed; allocator-reserved is
  // owned-and-uncommitted. Nothing leaks.
  ghost predicate Agrees(st: Store) {
    forall s: nat :: s < |st.alloc.states| ==> AgreesAt(st, s)
  }

  lemma ClaimAgrees(cfg: Config, st: Store, key: Key)
    requires Owned(cfg, st) && Agrees(st) && key !in st.index && NextFree(st.alloc) < st.alloc.total
    ensures Agrees(Claim(st, key))
  {
    NextFreeIsFree(st.alloc);
    hide Alloc.Valid, ReserveOne;
    var st', slot := Claim(st, key), NextFree(st.alloc);
    forall s: nat | s < |st'.alloc.states|
      ensures AgreesAt(st', s)
    {
      assert AgreesAt(st, s);
      if s in st.owner {
        assert Occupied(cfg, st, s, st.owner[s]);
      }
    }
  }

  lemma {:induction false} ReserveAgrees(cfg: Config, w: World, newest: Option<Snapshot>, attempted: set<nat>,
                                         keys: seq<Key>)
    requires Inv(cfg, System(w, newest, attempted)) && SmallGenerations(w.store.alloc) && Agrees(w.store)
    ensures Agrees(ReserveKeys(w.store, keys).store)
  {
    assert w.store.alloc.Valid();
    if keys != [] {
      var front, key := keys[..|keys| - 1], keys[|keys| - 1];
      ReserveAgrees(cfg, w, newest, attempted, front);
      ReserveKeeps(cfg, w, newest, attempted, front);
      var r := ReserveKeys(w.store, front);
      hide Agrees, Alloc.Valid, ReserveKeys, Claim, Backed, Anchored, Guarded;
      if !r.exhausted && Admissible(key) && key !in r.store.index && NextFree(r.store.alloc) < r.store.alloc.total {
        ClaimAgrees(cfg, r.store, key);
      }
      ReserveUnfolds(w.store, keys);
    }
  }

  lemma ReserveUnfolds(st: Store, keys: seq<Key>)
    requires st.alloc.Valid() && keys != []
    ensures ReserveKeys(st, keys) == ReserveStep(ReserveKeys(st, keys[..|keys| - 1]), keys[|keys| - 1])
  {
  }

  lemma CommitAgrees(cfg: Config, sys: System, keys: seq<Key>, outs: seq<WriteOutcome>)
    requires cfg.Valid() && Inv(cfg, sys) && CommitReady(cfg, sys.w, keys, outs) && Agrees(sys.w.store)
    requires |outs| == |keys| && CommitKeys(cfg, sys.w, keys, outs).ok && sys.w.store.alloc.Valid() &&
             sys.w.store.isOpen
    ensures Agrees(Commit(cfg, sys.w, keys, outs).store)
  {
    hide CommitKeys, CommitAll, Alloc.Valid, Inv, CommitReady, Agrees, BecameCommitted;
    InvParts(cfg, sys);
    var st := sys.w.store;
    var r := CommitKeys(cfg, sys.w, keys, outs);
    CommitEffect(cfg, sys.w, keys, outs);
    CommitLoopKeeps(cfg, sys, keys, outs);
    if r.slots != [] {
      CommittedAgrees(cfg, st, r.w.store, r.slots);
      SameAgreement(r.w.store.(alloc := CommitAll(st.alloc, r.slots)), Commit(cfg, sys.w, keys, outs).store);
    }
  }

  lemma CommittedAgrees(cfg: Config, st: Store, st': Store, slots: seq<nat>)
    requires Owned(cfg, st) && Agrees(st) && SamePlaces(st, st')
    requires forall s :: s in slots <==> BecameCommitted(st, st', s)
    ensures Agrees(st'.(alloc := CommitAll(st.alloc, slots)))
  {
    hide CommitAll, Alloc.Valid, AgreesAt, BecameCommitted;
    CommitAllStates(st.alloc, slots);
    var after := st'.(alloc := CommitAll(st.alloc, slots));
    forall s: nat | s < |after.alloc.states|
      ensures AgreesAt(after, s)
    {
      CommitSlotsOfKeys(cfg, st, st', slots, s);
      CommitAgreesAt(st, after, slots, s);
    }
  }

  lemma CommitAgreesAt(st: Store, st': Store, slots: seq<nat>, s: nat)
    requires s < |st.alloc.states| == |st'.alloc.states| && AgreesAt(st, s)
    requires st'.index.Keys == st.index.Keys && st'.owner == st.owner
    requires s in slots <==> s in st.owner && st.owner[s] in st.index && !st.index[st.owner[s]].committed &&
                             st'.index[st.owner[s]].committed
    requires forall k :: k in st.index && st.index[k].committed ==> st'.index[k].committed
    requires st'.alloc.states[s] == if s in slots &&
             st.alloc.states[s] == Reserved then Committed else st.alloc.states[s]
    ensures AgreesAt(st', s)
  {
  }

  // Under ownership, "some key with this slot became committed" is "the owner
  // of this slot became committed".
  lemma CommitSlotsOfKeys(cfg: Config, st: Store, st': Store, slots: seq<nat>, s: nat)
    requires Owned(cfg, st) && st'.index.Keys == st.index.Keys && st'.owner == st.owner
    requires s in slots <==> BecameCommitted(st, st', s)
    ensures s in slots <==> s in st.owner && st.owner[s] in st.index && !st.index[st.owner[s]].committed &&
                            st'.index[st.owner[s]].committed
  {
    hide Alloc.Valid;
    if s in slots {
      var k :| NowCommitted(st, st', k) && st.index[k].slot == s;
      assert Entitled(cfg, st, k, st.index[k]);
    }
    if s in st.owner {
      assert Occupied(cfg, st, s, st.owner[s]);
      assert NowCommitted(st, st', st.owner[s]) ==> BecameCommitted(st, st', s);
    }
  }

  lemma SameAgreement(st: Store, st': Store)
    requires Agrees(st) && st'.index == st.index && st'.owner == st.owner && st'.alloc.states == st.alloc.states
    ensures Agrees(st')
  {
    forall s: nat | s < |st'.alloc.states|
      ensures AgreesAt(st', s)
    {
      assert AgreesAt(st, s);
    }
  }

  lemma DropAgrees(cfg: Config, st: Store, keys: seq<Key>, release: bool)
    requires Owned(cfg, st) && Agrees(st)
    ensures var r := DropKeys(st, keys, release);
            Agrees(r.store.(alloc := RetireAll(st.alloc, r.slots, if release then Committed else Reserved)))
  {
    var r := DropKeys(st, keys, release);
    var from := if release then Committed else Reserved;
    assert st.alloc.Valid();
    DropEffect(st, keys, release);
    RetireAllStates(st.alloc, r.slots, from);
    hide DropKeys, RetireAll, Alloc.Valid;
    var st' := r.store.(alloc := RetireAll(st.alloc, r.slots, from));
    forall s: nat | s < |st'.alloc.states|
      ensures AgreesAt(st', s)
    {
      assert AgreesAt(st, s);
      DropSlotsOfKeys(cfg, st, keys, release, r.slots, s);
    }
  }

  lemma DropSlotsOfKeys(cfg: Config, st: Store, keys: seq<Key>, release: bool, slots: seq<nat>, s: nat)
    requires Owned(cfg, st)
    requires s in slots <==> DroppedSlot(st, keys, release, s)
    ensures s in slots <==> s in st.owner && st.owner[s] in keys && Droppable(st, st.owner[s], release)
    ensures s in st.owner ==> st.owner[s] in st.index
  {
    hide Alloc.Valid;
    if s in slots {
      var k :| k in keys && Droppable(st, k, release) && st.index[k].slot == s;
      assert Entitled(cfg, st, k, st.index[k]);
    }
    if s in st.owner {
      assert Occupied(cfg, st, s, st.owner[s]);
    }
  }

  lemma DrainAgrees(cfg: Config, sys: System, max: nat, outs: seq<ZeroOutcome>)
    requires Inv(cfg, sys) && |outs| == |Taken(sys.w.store.alloc, max)| && ZeroOutcomesReal(cfg, outs)
    requires Agrees(sys.w.store)
    ensures Agrees(Drain(sys.w, max, outs).store)
  {
    hide Inv, Drain, AgreesAt, Alloc.Valid;
    InvParts(cfg, sys);
    DrainStates(cfg, sys, max, outs);
    var st, st' := sys.w.store, Drain(sys.w, max, outs).store;
    forall s: nat | s < |st'.alloc.states|
      ensures AgreesAt(st', s)
    {
      assert AgreesAt(st, s);
      DrainAgreesAt(st, st', s);
    }
  }

  lemma DrainAgreesAt(st: Store, st': Store, s: nat)
    requires s < |st.alloc.states| == |st'.alloc.states| && AgreesAt(st, s)
    requires st'.index == st.index && st'.owner == st.owner
    requires if st.alloc.states[s] == Reclaiming then st'.alloc.states[s] in {Free, Reclaiming}
             else st'.alloc.states[s] == st.alloc.states[s]
    ensures AgreesAt(st', s)
  {
  }

  lemma DrainStates(cfg: Config, sys: System, max: nat, outs: seq<ZeroOutcome>)
    requires Inv(cfg, sys) && |outs| == |Taken(sys.w.store.alloc, max)|
    ensures var st, st' := sys.w.store, Drain(sys.w, max, outs).store;
            && st'.index == st.index && st'.owner == st.owner && |st'.alloc.states| == |st.alloc.states|
            && forall s :: 0 <= s < |st.alloc.states| ==>
                 if st.alloc.states[s] == Reclaiming then st'.alloc.states[s] in {Free, Reclaiming}
                 else st'.alloc.states[s] == st.alloc.states[s]
  {
    InvParts(cfg, sys);
    var a := sys.w.store.alloc;
    var r := DrainSlots(sys.w.media, Taken(a, max), outs);
    var mid := RequeueAll(TakeAll(a, max), r.failed);
    FinishAllStates(mid, r.done);
    hide Inv, FinishAll, RequeueAll, TakeAll, DrainSlots;
    assert forall s :: s in mid.inFlight ==> mid.states[s] == Reclaiming;
  }

  lemma OpenAgrees(cfg: Config, m: Media, newest: Option<Snapshot>, ready: nat)
    requires cfg.Valid() && Truthful(cfg, m, newest)
    ensures Agrees(OpenFresh(cfg, m, ready))
  {
    var st := OpenFresh(cfg, m, ready);
    LoadFresh(cfg, m, newest, ready);
    OpenKeeps(cfg, m, newest, ready);
    if newest.Some? {
      var es := newest.value.entries;
      assert WellFormed(cfg, es);
      var r := LoadEntries(cfg, m, EMPTY_LOAD, es);
      LoadAccepts(cfg, m, es);
      SlotsInRange(cfg, m, es, r);
      Adoption(cfg.total, r.slots, ready);
      hide OpenFresh, LoadEntries, AdoptSlots, Alloc.Valid, Anchored, Backed, Guarded, WellFormed, HeaderVerdict, Holds;
      forall s: nat | s < |st.alloc.states|
        ensures AgreesAt(st, s)
      {
        if s in st.owner {
          assert SlotFrom(cfg, m, es, s);
          var e :| e in es && Matches(cfg, m, e) && e.slot == s;
          assert Adopted(cfg, m, r, e);
        }
      }
    }
  }

  lemma AgreeStep(cfg: Config, sys: System, op: Op)
    requires cfg.Valid() && Inv(cfg, sys) && Allowed(cfg, sys, op) && Agrees(sys.w.store)
    requires CommitSucceeds(cfg, sys, op)
    ensures sys.w.store.alloc.Valid() && Agrees(Apply(cfg, sys, op).w.store)
  {
    hide Agrees, Inv, Alloc.Valid, Owned, Anchored, PersistReady, ReserveKeys, DropKeys, RetireAll, CommitKeys,
         CommitAll, OpenFresh, StaleMatch, DrainSlots, FinishAll, RequeueAll, TakeAll, Persist;
    InvParts(cfg, sys);
    var st, m := sys.w.store, sys.w.media;
    match op {
      case OpReserve(keys) => ReserveAgrees(cfg, sys.w, sys.newest, sys.attempted, keys);
      case OpCommit(keys, outs) =>
        if st.isOpen {
          CommitReadySizes(cfg, sys.w, keys, outs);
          CommitAgrees(cfg, sys, keys, outs);
        }
      case OpAbort(keys) => DropAgrees(cfg, st, keys, false);
      case OpRelease(keys) =>
        DropAgrees(cfg, st, keys, true);
        var r := DropKeys(st, keys, true);
        SameAgreement(r.store.(alloc := RetireAll(st.alloc, r.slots, Committed)), Release(st, keys));
      case OpDrain(max, outs) => DrainAgrees(cfg, sys, max, outs);
      case OpCrashOpen(ready) =>
        InvIsTruthful(cfg, sys);
        OpenAgrees(cfg, m, sys.newest, ready);
      case _ => AgreeQuiet(cfg, sys, op);
    }
  }

  // These calls touch neither places nor states.
  lemma AgreeQuiet(cfg: Config, sys: System, op: Op)
    requires sys.w.store.alloc.Valid() && Possible(cfg, sys, op) && Agrees(sys.w.store)
    requires op.OpPayload? || op.OpPin? || op.OpUnpin? || op.OpCheckpoint? || op.OpClose? || op.OpPublish?
    ensures Agrees(Apply(cfg, sys, op).w.store)
  {
    hide Agrees, Alloc.Valid, PersistReady, Persist;
    SamePlacement(cfg, sys, op);
    SameAgreement(sys.w.store, Apply(cfg, sys, op).w.store);
  }

  lemma SamePlacement(cfg: Config, sys: System, op: Op)
    requires sys.w.store.alloc.Valid() && Possible(cfg, sys, op)
    requires op.OpPayload? || op.OpPin? || op.OpUnpin? || op.OpCheckpoint? || op.OpClose? || op.OpPublish?
    ensures var st, st' := sys.w.store, Apply(cfg, sys, op).w.store;
            st'.index == st.index && st'.owner == st.owner && st'.alloc.states == st.alloc.states
  {
    hide Alloc.Valid, PersistReady, Persist;
    match op {
      case OpPin(keys) => PinsOnly(sys.w.store, keys);
      case OpUnpin(keys) => PinsOnly(sys.w.store, keys);
      case OpCheckpoint(order, o) => PersistShape(cfg, sys.w, order, o);
      case OpClose(order, o) => PersistShape(cfg, sys.w, order, o);
      case _ =>
    }
  }

  // OWNERSHIP AGREEMENT. In every run without a failed commit call, the
  // allocator's view of each slot is the index's view of it.
  lemma AllocatorAgreesWithIndex(cfg: Config, m: Media, ready: nat, ops: seq<Op>, end: System)
    requires cfg.Valid() && FirstOpen(cfg, m) && CleanlyReaches(cfg, Initial(cfg, m, ready), ops, end)
    ensures Agrees(end.w.store)
  {
    InitialClean(cfg, m, ready);
    CleanRunKeeps(cfg, Initial(cfg, m, ready), ops, end);
  }
}
