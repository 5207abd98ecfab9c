// What holds whatever the caller does with its payloads: ownership, and the
// alternation of the checkpoint containers. The store never reads a payload, so
// its own state would be the same on media where every payload is in order.
module StoreOwnership {
  import opened Common
  import opened HeaderCodec
  import opened CheckpointCodec
  import opened SpaceAllocator
  import opened ObjectStore
  import opened StoreInvariant
  import opened StoreRecovery
  import opened StoreRuns

  ghost predicate Shape(cfg: Config, sys: System) {
    && Owned(cfg, sys.w.store) && |sys.w.media.headers| == |sys.w.media.payloads| == cfg.total
    && Anchored(cfg, sys.w.media, sys.newest)
  }

  // ---- media in order ----

  function TidyHeader(cfg: Config, st: Store, s: nat): seq<byte> {
    if s in st.owner && st.owner[s] in st.index && st.index[st.owner[s]].committed
    then HeaderFor(cfg, st.owner[s], st.index[st.owner[s]], st.index[st.owner[s]].commitSeq)
    else LE.Zeros(HEADER_BYTES)
  }

  // The same store, with every owner's payload in place and exactly the
  // committed headers.
  function Tidy(cfg: Config, sys: System): System {
    var st := sys.w.store;
    sys.(w := World(st, Media(seq(cfg.total, s requires 0 <= s => TidyHeader(cfg, st, s)),
                              seq(cfg.total, s requires 0 <= s => if s in st.owner then Some(st.owner[s]) else None),
                              sys.w.media.containers)))
  }

  lemma TidyBacked(cfg: Config, sys: System, k: Key)
    requires cfg.Valid() && Owned(cfg, sys.w.store) && k in sys.w.store.index && sys.w.store.index[k].committed
    ensures BackedBy(cfg, Tidy(cfg, sys).w.media, k, sys.w.store.index[k])
  {
    hide Alloc.Valid, HeaderFor, HeaderVerdict, FingerprintOf;
    var st, m := sys.w.store, Tidy(cfg, sys).w.media;
    var live := st.index[k];
    assert Entitled(cfg, st, k, live) && Occupied(cfg, st, live.slot, k);
    Sizes(st.alloc);
    OwnHeaderVerdict(cfg, m, k, live, live.commitSeq, EntryFor(cfg, k, live));
  }

  lemma TidyGuards(cfg: Config, sys: System, e: Entry)
    requires cfg.Valid() && Owned(cfg, sys.w.store)
    requires e.slot < cfg.total && Admissible(e.key) && e.payloadBytes == cfg.payloadBytes
    ensures Guards(cfg, Tidy(cfg, sys).w, sys.attempted, e)
  {
    hide Alloc.Valid, HeaderFor, HeaderVerdict, FingerprintOf, Unreadable;
    var st, m := sys.w.store, Tidy(cfg, sys).w.media;
    if e.slot in st.owner && st.owner[e.slot] in st.index && st.index[st.owner[e.slot]].committed {
      var k := st.owner[e.slot];
      assert Occupied(cfg, st, e.slot, k) && Entitled(cfg, st, k, st.index[k]);
      OwnHeaderVerdict(cfg, m, k, st.index[k], st.index[k].commitSeq, e);
    } else {
      ZerosUnreadable(cfg);
      UnreadableNeverMatches(cfg, m, e);
    }
  }

  lemma TidyInv(cfg: Config, sys: System)
    requires cfg.Valid() && Shape(cfg, sys)
    ensures Inv(cfg, Tidy(cfg, sys))
  {
    hide Owned, Anchored, BackedBy, Guards, Tidy;
    var sys' := Tidy(cfg, sys);
    TidyShape(cfg, sys);
    SameContainers(cfg, sys.w.media, sys'.w.media, sys.newest);
    forall k | k in sys.w.store.index && sys.w.store.index[k].committed
      ensures BackedBy(cfg, sys'.w.media, k, sys.w.store.index[k])
    {
      TidyBacked(cfg, sys, k);
    }
    if sys.newest.Some? {
      forall e | e in sys.newest.value.entries
        ensures Guards(cfg, sys'.w, sys.attempted, e)
      {
        EntryWellFormed(cfg, sys.w.media, sys.newest, e);
        TidyGuards(cfg, sys, e);
      }
    }
  }

  lemma TidyShape(cfg: Config, sys: System)
    ensures var sys' := Tidy(cfg, sys);
            && sys'.w.store == sys.w.store && sys'.newest == sys.newest && sys'.attempted == sys.attempted
            && sys'.w.media.containers == sys.w.media.containers
            && |sys'.w.media.headers| == |sys'.w.media.payloads| == cfg.total
  {
  }

  // ---- the store does not look at payloads, nor at headers but in open ----

  // The same call with header and zeroing writes that do nothing instead of
  // tearing: the store cannot tell.
  function Calm(o: WriteOutcome): WriteOutcome { if o.Torn? then NotWritten else o }

  function CalmAll(outs: seq<WriteOutcome>): (r: seq<WriteOutcome>)
    ensures |r| == |outs| && forall i :: 0 <= i < |r| ==> r[i] == Calm(outs[i])
  {
    seq(|outs|, i requires 0 <= i < |outs| => Calm(outs[i]))
  }

  function CalmZeros(outs: seq<ZeroOutcome>): (r: seq<ZeroOutcome>)
    ensures |r| == |outs| && forall i :: 0 <= i < |r| ==> r[i] == if outs[i].Zeroed? then Zeroed else ZeroNotStarted
  {
    seq(|outs|, i requires 0 <= i < |outs| => if outs[i].Zeroed? then Zeroed else ZeroNotStarted)
  }

  lemma {:induction false} CommitIgnoresMedia(cfg: Config, w: World, m: Media, keys: seq<Key>, outs: seq<WriteOutcome>)
    requires |outs| == |keys| && m.containers == w.media.containers
    ensures var r, r' := CommitKeys(cfg, w, keys, outs), CommitKeys(cfg, World(w.store, m), keys, CalmAll(outs));
            && r'.w.store == r.w.store && r'.slots == r.slots && r'.ok == r.ok && r'.tried == r.tried
            && r.w.media.containers == w.media.containers && r'.w.media.containers == w.media.containers
            && SameSizes(w.media, r.w.media)
  {
    hide CommitOneKey;
    if keys != [] {
      var n := |keys| - 1;
      assert CalmAll(outs)[..n] == CalmAll(outs[..n]);
      CommitIgnoresMedia(cfg, w, m, keys[..n], outs[..n]);
      var r := CommitKeys(cfg, w, keys[..n], outs[..n]);
      if r.ok && Commits(r.w.store, keys[n]) {
        CommitOneIgnores(cfg, r, CommitKeys(cfg, World(w.store, m), keys[..n], CalmAll(outs[..n])), keys[n], outs[n]);
      }
    }
  }

  lemma CommitOneIgnores(cfg: Config, r: CommitRun, r': CommitRun, key: Key, o: WriteOutcome)
    requires Commits(r.w.store, key) && r'.w.store == r.w.store && r'.slots == r.slots && r'.tried == r.tried
    ensures var s, s' := CommitOneKey(cfg, r, key, o), CommitOneKey(cfg, r', key, Calm(o));
            && s'.w.store == s.w.store && s'.slots == s.slots && s'.ok == s.ok && s'.tried == s.tried
            && s.w.media.containers == r.w.media.containers && s'.w.media.containers == r'.w.media.containers
            && SameSizes(r.w.media, s.w.media)
  {
    hide HeaderFor;
  }

  lemma {:induction false} DrainIgnoresMedia(m: Media, m': Media, taken: seq<nat>, outs: seq<ZeroOutcome>)
    requires |outs| == |taken|
    ensures var r, r' := DrainSlots(m, taken, outs), DrainSlots(m', taken, CalmZeros(outs));
            && r'.done == r.done && r'.failed == r.failed
            && r.media.containers == m.containers && SameSizes(m, r.media)
  {
    if taken != [] {
      var n := |taken| - 1;
      assert CalmZeros(outs)[..n] == CalmZeros(outs[..n]);
      DrainIgnoresMedia(m, m', taken[..n], outs[..n]);
    }
  }

  // ---- one step ----

  lemma CommitShape(cfg: Config, sys: System, keys: seq<Key>, outs: seq<WriteOutcome>)
    requires cfg.Valid() && Shape(cfg, sys) && sys.w.store.alloc.Valid() && Possible(cfg, sys, OpCommit(keys, outs))
    ensures Shape(cfg, Apply(cfg, sys, OpCommit(keys, outs)))
  {
    hide Alloc.Valid, Owned, Anchored, CommitKeys, CommitAll, Inv;
    var sys', outs' := Tidy(cfg, sys), CalmAll(outs);
    TidyInv(cfg, sys);
    TidyShape(cfg, sys);
    TidyPayloads(cfg, sys, keys, outs');
    StepKeeps(cfg, sys', OpCommit(keys, outs'));
    CommitIgnoresMedia(cfg, sys.w, sys'.w.media, keys, outs);
    InvParts(cfg, Apply(cfg, sys', OpCommit(keys, outs')));
    SameContainers(cfg, sys.w.media, Apply(cfg, sys, OpCommit(keys, outs)).w.media, sys.newest);
  }

  lemma TidyPayloads(cfg: Config, sys: System, keys: seq<Key>, outs: seq<WriteOutcome>)
    requires Owned(cfg, sys.w.store) && |outs| == |keys| && sys.w.store.commitSeq + |keys| < LE.U64
    requires forall i :: 0 <= i < |outs| ==> !outs[i].Torn?
    ensures CommitReady(cfg, Tidy(cfg, sys).w, keys, outs)
  {
    hide Alloc.Valid, TidyHeader;
    Sizes(sys.w.store.alloc);
    forall k | k in keys && Commits(sys.w.store, k)
      ensures var m := Tidy(cfg, sys).w.media;
              sys.w.store.index[k].slot < |m.payloads| && m.payloads[sys.w.store.index[k].slot] == Some(k)
    {
      assert Entitled(cfg, sys.w.store, k, sys.w.store.index[k]);
      assert Occupied(cfg, sys.w.store, sys.w.store.index[k].slot, k);
    }
  }

  lemma DrainShape(cfg: Config, sys: System, max: nat, outs: seq<ZeroOutcome>)
    requires cfg.Valid() && Shape(cfg, sys) && sys.w.store.alloc.Valid() && |outs| == |Taken(sys.w.store.alloc, max)|
    ensures Shape(cfg, Apply(cfg, sys, OpDrain(max, outs)))
  {
    hide Alloc.Valid, Owned, Anchored, DrainSlots, Inv, TakeAll, FinishAll, RequeueAll;
    var sys', outs' := Tidy(cfg, sys), CalmZeros(outs);
    TidyInv(cfg, sys);
    TidyShape(cfg, sys);
    StepKeeps(cfg, sys', OpDrain(max, outs'));
    DrainIgnoresMedia(sys.w.media, sys'.w.media, Taken(sys.w.store.alloc, max), outs);
    InvParts(cfg, Apply(cfg, sys', OpDrain(max, outs')));
    SameContainers(cfg, sys.w.media, Apply(cfg, sys, OpDrain(max, outs)).w.media, sys.newest);
  }

  lemma OpenShape(cfg: Config, sys: System, ready: nat)
    requires cfg.Valid() && Shape(cfg, sys)
    ensures Shape(cfg, System(World(OpenFresh(cfg, sys.w.media, ready), sys.w.media), sys.newest, {}))
  {
    hide Anchored, OpenFresh, Owned;
    var m := Vouched(cfg, sys.w.media, sys.newest);
    SameContainers(cfg, sys.w.media, m, sys.newest);
    VouchedTruthful(cfg, sys.w.media, sys.newest);
    OpenKeeps(cfg, m, sys.newest, ready);
    OpenIgnoresPayloads(cfg, sys.w.media, m, ready);
  }

  // The same headers, with the payload every checkpoint entry speaks of.
  ghost function Vouched(cfg: Config, m: Media, newest: Option<Snapshot>): Media {
    m.(payloads := seq(cfg.total, s requires 0 <= s =>
      if newest.Some? && exists e :: e in newest.value.entries && e.slot == s
      then var e :| e in newest.value.entries && e.slot == s; Some(e.key) else None))
  }

  lemma VouchedTruthful(cfg: Config, m: Media, newest: Option<Snapshot>)
    requires |m.headers| == cfg.total && Anchored(cfg, m, newest)
    ensures Truthful(cfg, Vouched(cfg, m, newest), newest)
  {
    hide Matches, Anchored, WellFormed;
    var m' := Vouched(cfg, m, newest);
    SameContainers(cfg, m, m', newest);
    if newest.Some? {
      forall e | e in newest.value.entries
        ensures Holds(cfg, m', e.slot, e.key)
      {
        EntryWellFormed(cfg, m, newest, e);
        AnchoredWellFormed(cfg, m, newest);
        OneEntryPerSlot(cfg, newest.value.entries, e.slot);
      }
    }
  }

  lemma OneEntryPerSlot(cfg: Config, es: seq<Entry>, s: nat)
    requires WellFormed(cfg, es)
    ensures forall e, f :: e in es && f in es && e.slot == s && f.slot == s ==> e == f
  {
    forall e, f | e in es && f in es && e.slot == s && f.slot == s
      ensures e == f
    {
      var i :| 0 <= i < |es| && es[i] == e;
      var j :| 0 <= j < |es| && es[j] == f;
    }
  }

  lemma {:induction false} LoadIgnoresPayloads(cfg: Config, m: Media, m': Media, start: LoadRun, es: seq<Entry>)
    requires m'.headers == m.headers
    ensures LoadEntries(cfg, m', start, es) == LoadEntries(cfg, m, start, es)
  {
    hide Decode;
    if es != [] {
      LoadIgnoresPayloads(cfg, m, m', start, es[..|es| - 1]);
    }
  }

  lemma OpenIgnoresPayloads(cfg: Config, m: Media, m': Media, ready: nat)
    requires m'.headers == m.headers && m'.containers == m.containers
    ensures OpenFresh(cfg, m', ready) == OpenFresh(cfg, m, ready)
  {
    hide LoadEntries, DecodeCheckpoint, AdoptSlots;
    var c := SelectContainer(Sequences(cfg.digests, m.containers));
    if c.Some? && DecodeCheckpoint(cfg.digests, m.containers[c.value]).Checkpoint? {
      LoadIgnoresPayloads(cfg, m, m', EMPTY_LOAD, DecodeCheckpoint(cfg.digests, m.containers[c.value]).entries);
    }
  }

  // Every call with every outcome keeps ownership and the containers.
  lemma StepShape(cfg: Config, sys: System, op: Op)
    requires cfg.Valid() && Shape(cfg, sys) && sys.w.store.alloc.Valid() && Possible(cfg, sys, op)
    ensures Shape(cfg, Apply(cfg, sys, op))
  {
    match op {
      case OpPayload(key, complete) =>
        hide Owned, Anchored, Alloc.Valid;
        SameContainers(cfg, sys.w.media, Apply(cfg, sys, op).w.media, sys.newest);
      case OpCommit(keys, outs) => CommitShape(cfg, sys, keys, outs);
      case OpDrain(max, outs) => DrainShape(cfg, sys, max, outs);
      case OpCrashOpen(ready) => OpenShape(cfg, sys, ready);
      case _ => OtherShape(cfg, sys, op);
    }
  }

  lemma OtherShape(cfg: Config, sys: System, op: Op)
    requires cfg.Valid() && Shape(cfg, sys) && sys.w.store.alloc.Valid() && Possible(cfg, sys, op)
    requires !op.OpPayload? && !op.OpCommit? && !op.OpDrain? && !op.OpCrashOpen?
    ensures Shape(cfg, Apply(cfg, sys, op))
  {
    hide Owned, Anchored, Alloc.Valid, Inv, Persist, ReserveKeys, Abort, Release, Pin, Unpin, PersistReady;
    var sys' := Tidy(cfg, sys);
    TidyInv(cfg, sys);
    TidyShape(cfg, sys);
    hide Tidy;
    if op.OpCheckpoint? || op.OpClose? {
      PersistSame(cfg, sys, sys', op.order, op.out);
    }
    StepKeeps(cfg, sys', op);
    var end, end' := Apply(cfg, sys, op), Apply(cfg, sys', op);
    InvParts(cfg, end');
    SameContainers(cfg, end'.w.media, end.w.media, end.newest);
  }

  lemma PersistSame(cfg: Config, sys: System, sys': System, order: seq<Key>, o: WriteOutcome)
    requires sys'.w.store == sys.w.store && sys'.newest == sys.newest &&
             sys'.w.media.containers == sys.w.media.containers
    requires PersistReady(cfg, sys.w, order, o)
    ensures PersistReady(cfg, sys'.w, order, o)
    ensures forall k :: k in order ==> k in sys.w.store.index
    ensures NewestAfter(cfg, sys', order, o) == NewestAfter(cfg, sys, order, o)
    ensures var w, w' := Persist(cfg, sys.w, order, o), Persist(cfg, sys'.w, order, o);
            && w'.store == w.store && w'.media.containers == w.media.containers
            && w.media.headers == sys.w.media.headers && w.media.payloads == sys.w.media.payloads
  {
    hide ContainerImage, Padded, DecodeCheckpoint;
    OrderKnown(sys.w.store, order);
  }

  // ---- every run, whatever the payloads ----

  ghost predicate AnyReaches(cfg: Config, start: System, ops: seq<Op>, end: System) {
    if ops == [] then end == start
    else exists mid ::
      && AnyReaches(cfg, start, ops[..|ops| - 1], mid) && mid.w.store.alloc.Valid()
      && Possible(cfg, mid, ops[|ops| - 1]) && end == Apply(cfg, mid, ops[|ops| - 1])
  }

  lemma {:induction false} AnyRunKeeps(cfg: Config, start: System, ops: seq<Op>, end: System)
    requires cfg.Valid() && Shape(cfg, start) && AnyReaches(cfg, start, ops, end)
    ensures Shape(cfg, end)
  {
    hide Shape, Apply, Possible;
    if ops != [] {
      var mid :| AnyReaches(cfg, start, ops[..|ops| - 1], mid) && mid.w.store.alloc.Valid() &&
                 Possible(cfg, mid, ops[|ops| - 1]) && end == Apply(cfg, mid, ops[|ops| - 1]);
      AnyRunKeeps(cfg, start, ops[..|ops| - 1], mid);
      StepShape(cfg, mid, ops[|ops| - 1]);
    }
  }

  lemma FromFirstOpen(cfg: Config, m: Media, ready: nat, ops: seq<Op>, end: System)
    requires cfg.Valid() && FirstOpen(cfg, m) && AnyReaches(cfg, Initial(cfg, m, ready), ops, end)
    ensures Shape(cfg, end)
  {
    hide AnyReaches, Owned, Anchored, Guarded;
    InitialInv(cfg, m, ready);
    AnyRunKeeps(cfg, Initial(cfg, m, ready), ops, end);
  }

  // The disciplined runs are among these.
  lemma {:induction false} ReachesIsAny(cfg: Config, start: System, ops: seq<Op>, end: System)
    requires Reaches(cfg, start, ops, end)
    ensures AnyReaches(cfg, start, ops, end)
  {
    hide Apply, Allowed, Possible;
    if ops != [] {
      var mid :| Reaches(cfg, start, ops[..|ops| - 1], mid) && mid.w.store.alloc.Valid() &&
                 Allowed(cfg, mid, ops[|ops| - 1]) && end == Apply(cfg, mid, ops[|ops| - 1]);
      ReachesIsAny(cfg, start, ops[..|ops| - 1], mid);
    }
  }

  // OWNERSHIP. In every run, failed commits and misused payloads included, the
  // index and the owner map are inverse, an owned slot is on neither list nor in
  // flight, and draining leaves its header and payload alone.
  lemma DrainSparesLiveObjects(cfg: Config, m: Media, ready: nat, ops: seq<Op>, end: System,
                               max: nat, outs: seq<ZeroOutcome>, s: nat)
    requires cfg.Valid() && FirstOpen(cfg, m) && AnyReaches(cfg, Initial(cfg, m, ready), ops, end)
    requires end.w.store.alloc.Valid() && |outs| == |Taken(end.w.store.alloc, max)| && s in end.w.store.owner
    ensures end.w.store.owner[s] in end.w.store.index && end.w.store.index[end.w.store.owner[s]].slot == s
    ensures s !in end.w.store.alloc.freeList && s !in end.w.store.alloc.queue && s !in end.w.store.alloc.inFlight
    ensures var m' := Drain(end.w, max, outs).media;
            && s < |m'.headers| == |end.w.media.headers| && s < |m'.payloads| == |end.w.media.payloads|
            && m'.headers[s] == end.w.media.headers[s] && m'.payloads[s] == end.w.media.payloads[s]
  {
    hide AnyReaches, Drain, Owned, Anchored;
    FromFirstOpen(cfg, m, ready, ops, end);
    DrainSpares(cfg, end, max, outs, s);
  }

  // In every reachable state, torn container writes included: nonzero
  // sequences differ, the next write spares the container recovery would
  // read, its sequence exceeds all others, and the container recovery would
  // read is the last one whose write completed.
  lemma CheckpointAlternation(cfg: Config, m: Media, ready: nat, ops: seq<Op>, end: System)
    requires cfg.Valid() && FirstOpen(cfg, m) && AnyReaches(cfg, Initial(cfg, m, ready), ops, end)
    ensures var seqs := Sequences(cfg.digests, end.w.media.containers);
            && |seqs| == CONTAINER_COUNT && DistinctSequences(seqs)
            && SelectContainer(seqs) != Some(NextContainer(seqs))
            && (forall i :: 0 <= i < |seqs| ==> seqs[i] < NextSequence(cfg, end.w))
            && (end.newest.None? <==> SelectContainer(seqs).None?)
            && (end.newest.Some? ==>
                  DecodeCheckpoint(cfg.digests, end.w.media.containers[SelectContainer(seqs).value]) ==
                  Checkpoint(end.newest.value.sequence, end.newest.value.entries))
  {
    hide AnyReaches, Owned, DecodeCheckpoint;
    FromFirstOpen(cfg, m, ready, ops, end);
    WriteSparesNewest(Sequences(cfg.digests, end.w.media.containers));
  }

  // The sequence of the newest complete checkpoint never goes back, and a
  // completed write moves it strictly forward.
  lemma NewestOnlyGrows(cfg: Config, sys: System, op: Op)
    requires cfg.Valid() && Shape(cfg, sys) && sys.w.store.alloc.Valid() && Possible(cfg, sys, op) && sys.newest.Some?
    ensures var newest := Apply(cfg, sys, op).newest;
            newest.Some? && (newest == sys.newest || newest.value.sequence > sys.newest.value.sequence)
  {
    hide Owned, DecodeCheckpoint, WellFormed, PersistReady;
    var seqs := Sequences(cfg.digests, sys.w.media.containers);
    assert seqs[SelectContainer(seqs).value] == sys.newest.value.sequence;
    if op.OpCheckpoint? || op.OpClose? {
      PersistSame(cfg, sys, sys, op.order, op.out);
    }
  }

  // The "image exceeds its container" error cannot happen.
  lemma OverflowUnreachable(cfg: Config, m: Media, ready: nat, ops: seq<Op>, end: System, order: seq<Key>, seqNo: nat)
    requires cfg.Valid() && FirstOpen(cfg, m) && AnyReaches(cfg, Initial(cfg, m, ready), ops, end)
    requires Lists(end.w.store, order) && seqNo < LE.U64
    ensures forall k :: k in order ==> k in end.w.store.index
    ensures |ContainerImage(cfg.digests, EntriesFor(cfg, end.w.store, order), seqNo)| <= cfg.ContainerSize()
  {
    hide AnyReaches, Anchored, ContainerImage;
    FromFirstOpen(cfg, m, ready, ops, end);
    CheckpointAlwaysFits(cfg, end.w.store, order, seqNo);
  }
}
