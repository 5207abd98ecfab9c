// The crash-consistent object store, as functions on its volatile state and
// its media. Each function is one entry point of the store; the outcome of
// every media write is an argument.
module ObjectStore {
  import opened Common
  import opened HeaderCodec
  import opened CheckpointCodec
  import opened SpaceAllocator

  const MAX_KEY_BYTES: nat := 256
  const CONTAINER_COUNT: nat := 2

  // Fixed geometry: slots, payload size, and the two digests.
  datatype Config = Config(digests: Digests, total: nat, payloadBytes: nat) {
    function ContainerSize(): nat { ContainerBytes(total, MAX_KEY_BYTES) }

    ghost predicate Valid() {
      0 < total < LE.U64 && 0 < payloadBytes < LE.U64 && ContainerSize() < LE.U64
    }
  }

  datatype Live = Live(slot: nat, generation: nat, commitSeq: nat, committed: bool)

  datatype Store = Store(
    index: map<Key, Live>, owner: map<nat, Key>, pins: map<Key, nat>, alloc: Alloc,
    commitSeq: nat, checkpointSeq: nat, dirty: bool, isOpen: bool)

  // Per slot: the header region's bytes, and whose complete payload is really
  // there (None: nobody's). Then the checkpoint containers.
  datatype Media = Media(headers: seq<seq<byte>>, payloads: seq<Option<Key>>, containers: seq<seq<byte>>)

  datatype World = World(store: Store, media: Media)

  // A durable write lands and reports success; or it fails having done
  // nothing, having left bytes that decode as nothing, or having landed.
  datatype WriteOutcome = Done | NotWritten | Torn(junk: seq<byte>) | LandedButFailed

  function Written(old_: seq<byte>, new_: seq<byte>, o: WriteOutcome): seq<byte> {
    match o
    case Done => new_
    case LandedButFailed => new_
    case NotWritten => old_
    case Torn(junk) => junk
  }

  function SetAt<T>(s: seq<T>, i: nat, x: T): (r: seq<T>)
    ensures |r| == |s|
    ensures forall j :: 0 <= j < |s| ==> r[j] == if j == i then x else s[j]
  {
    if i < |s| then s[i := x] else s
  }

  // ---- reserve ----

  function Admissible(key: Key): bool { 0 < |key| <= MAX_KEY_BYTES }

  datatype Grant = Grant(key: Key, slot: nat, generation: nat)

  datatype ReserveRun = ReserveRun(store: Store, accepted: seq<Grant>, rejected: nat, exhausted: bool)

  function ReserveKeys(st: Store, keys: seq<Key>): (r: ReserveRun)
    requires st.alloc.Valid()
    ensures r.store.alloc.Valid()
    ensures |r.accepted| + r.rejected == |keys|
  {
    if keys == [] then ReserveRun(st, [], 0, false)
    else ReserveStep(ReserveKeys(st, keys[..|keys| - 1]), keys[|keys| - 1])
  }

  // One key: an inadmissible one is rejected, a known one gets its existing
  // placement, and once space has run out all the rest are rejected.
  function ReserveStep(r: ReserveRun, key: Key): (r': ReserveRun)
    requires r.store.alloc.Valid()
    ensures r'.store.alloc.Valid()
    ensures |r'.accepted| + r'.rejected == |r.accepted| + r.rejected + 1
  {
    if r.exhausted || !Admissible(key) then r.(rejected := r.rejected + 1)
    else if key in r.store.index then
      var live := r.store.index[key];
      r.(accepted := r.accepted + [Grant(key, live.slot, live.generation)])
    else if NextFree(r.store.alloc) >= r.store.alloc.total then r.(rejected := r.rejected + 1, exhausted := true)
    else ReserveRun(Claim(r.store, key), r.accepted + [NewGrant(r.store, key)], r.rejected, false)
  }

  function NewGrant(st: Store, key: Key): Grant
    requires st.alloc.Valid() && NextFree(st.alloc) < st.alloc.total
  {
    Grant(key, NextFree(st.alloc), st.alloc.generations[NextFree(st.alloc)])
  }

  // A fresh slot for a key not in the index.
  function Claim(st: Store, key: Key): Store
    requires st.alloc.Valid() && NextFree(st.alloc) < st.alloc.total
  {
    var slot := NextFree(st.alloc);
    st.(index := st.index[key := Live(slot, st.alloc.generations[slot], 0, false)],
        owner := st.owner[slot := key], alloc := ReserveOne(st.alloc))
  }

  function Reserve(st: Store, keys: seq<Key>): Store
    requires st.alloc.Valid()
  {
    if st.isOpen then ReserveKeys(st, keys).store else st
  }

  // ---- commit ----

  function HeaderFor(cfg: Config, key: Key, live: Live, seqNo: nat): seq<byte> {
    Image(cfg.digests, FieldsFor(cfg.digests, key, cfg.payloadBytes, live.generation, seqNo))
  }

  // `tried` collects the slots whose header write was attempted.
  datatype CommitRun = CommitRun(w: World, slots: seq<nat>, ok: bool, tried: set<nat>)

  predicate Commits(st: Store, key: Key) { key in st.index && !st.index[key].committed }

  // One header write: the commit point of one key.
  function CommitOneKey(cfg: Config, r: CommitRun, key: Key, o: WriteOutcome): CommitRun
    requires Commits(r.w.store, key)
  {
    var st, m := r.w.store, r.w.media;
    var live, seqNo := st.index[key], st.commitSeq + 1;
    var header :=
      if live.slot < |m.headers| then Written(m.headers[live.slot], HeaderFor(cfg, key, live, seqNo), o) else [];
    var m' := m.(headers := SetAt(m.headers, live.slot, header));
    if o.Done? then
      var index := st.index[key := live.(committed := true, commitSeq := seqNo)];
      CommitRun(World(st.(commitSeq := seqNo, index := index), m'),
                r.slots + [live.slot], true, r.tried + {live.slot})
    else CommitRun(World(st.(commitSeq := seqNo), m'), r.slots, false, r.tried + {live.slot})
  }

  // The loop of commit: stops at the first failed header write.
  function CommitKeys(cfg: Config, w: World, keys: seq<Key>, outs: seq<WriteOutcome>): (r: CommitRun)
    requires |outs| == |keys|
    ensures r.w.store.alloc == w.store.alloc && r.w.store.dirty == w.store.dirty
  {
    if keys == [] then CommitRun(w, [], true, {})
    else
      var n := |keys| - 1;
      var r := CommitKeys(cfg, w, keys[..n], outs[..n]);
      if !r.ok || !Commits(r.w.store, keys[n]) then r else CommitOneKey(cfg, r, keys[n], outs[n])
  }

  function MarkCommitted(w: World, slots: seq<nat>): World
    requires w.store.alloc.Valid()
  {
    w.(store := w.store.(alloc := CommitAll(w.store.alloc, slots), dirty := true))
  }

  function Commit(cfg: Config, w: World, keys: seq<Key>, outs: seq<WriteOutcome>): World
    requires |outs| == |keys| && w.store.alloc.Valid()
  {
    if !w.store.isOpen then w
    else
      var r := CommitKeys(cfg, w, keys, outs);
      if r.ok && r.slots != [] then MarkCommitted(r.w, r.slots) else r.w
  }

  // ---- abort, release, pins ----

  datatype DropRun = DropRun(store: Store, slots: seq<nat>)

  // The keys a release may drop: committed and not pinned.
  predicate Releasable(st: Store, key: Key) {
    key in st.index && st.index[key].committed && !(key in st.pins && st.pins[key] > 0)
  }

  function DropKeys(st: Store, keys: seq<Key>, release: bool): (r: DropRun)
    ensures r.store == st.(index := r.store.index, owner := r.store.owner)
  {
    if keys == [] then DropRun(st, [])
    else
      var r, key := DropKeys(st, keys[..|keys| - 1], release), keys[|keys| - 1];
      if (if release then Releasable(r.store, key) else Commits(r.store, key)) then Drop(r, key) else r
  }

  function Drop(r: DropRun, key: Key): DropRun
    requires key in r.store.index
  {
    var slot := r.store.index[key].slot;
    DropRun(r.store.(index := r.store.index - {key}, owner := r.store.owner - {slot}), r.slots + [slot])
  }

  function Abort(st: Store, keys: seq<Key>): Store
    requires st.alloc.Valid()
  {
    var r := DropKeys(st, keys, false);
    r.store.(alloc := RetireAll(st.alloc, r.slots, Reserved))
  }

  function Release(st: Store, keys: seq<Key>): Store
    requires st.alloc.Valid()
  {
    var r := DropKeys(st, keys, true);
    r.store.(alloc := RetireAll(st.alloc, r.slots, Committed), dirty := st.dirty || r.slots != [])
  }

  function Pin(st: Store, keys: seq<Key>): Store {
    if keys == [] then st
    else
      var r, key := Pin(st, keys[..|keys| - 1]), keys[|keys| - 1];
      r.(pins := r.pins[key := (if key in r.pins then r.pins[key] else 0) + 1])
  }

  function Unpin(st: Store, keys: seq<Key>): Store {
    if keys == [] then st
    else
      var r, key := Unpin(st, keys[..|keys| - 1]), keys[|keys| - 1];
      if key !in r.pins then r
      else if r.pins[key] <= 1 then r.(pins := r.pins - {key})
      else r.(pins := r.pins[key := r.pins[key] - 1])
  }

  // ---- reclamation ----

  // Zeroing one slot: complete; not started; or cut short after the header
  // was already destroyed.
  datatype ZeroOutcome = Zeroed | ZeroNotStarted | ZeroCutShort(junk: seq<byte>)

  function ZeroSlot(m: Media, slot: nat, o: ZeroOutcome): Media {
    match o
    case Zeroed =>
      m.(headers := SetAt(m.headers, slot, LE.Zeros(HEADER_BYTES)), payloads := SetAt(m.payloads, slot, None))
    case ZeroNotStarted => m
    case ZeroCutShort(junk) => m.(headers := SetAt(m.headers, slot, junk), payloads := SetAt(m.payloads, slot, None))
  }

  datatype DrainRun = DrainRun(media: Media, done: seq<nat>, failed: seq<nat>)

  function DrainSlots(m: Media, taken: seq<nat>, outs: seq<ZeroOutcome>): (r: DrainRun)
    requires |outs| == |taken|
  {
    if taken == [] then DrainRun(m, [], [])
    else
      var n := |taken| - 1;
      var r := DrainSlots(m, taken[..n], outs[..n]);
      var m' := ZeroSlot(r.media, taken[n], outs[n]);
      if outs[n].Zeroed? then DrainRun(m', r.done + [taken[n]], r.failed)
      else DrainRun(m', r.done, r.failed + [taken[n]])
  }

  function Taken(a: Alloc, max: nat): seq<nat> { a.queue[..Min(max, |a.queue|)] }

  function Drain(w: World, max: nat, outs: seq<ZeroOutcome>): World
    requires w.store.alloc.Valid() && |outs| == |Taken(w.store.alloc, max)|
  {
    var r := DrainSlots(w.media, Taken(w.store.alloc, max), outs);
    var a := TakeAll(w.store.alloc, max);
    World(w.store.(alloc := FinishAll(RequeueAll(a, r.failed), r.done)), r.media)
  }

  // ---- checkpoint ----

  function SequenceOf(d: Digests, container: seq<byte>): nat {
    match DecodeCheckpoint(d, container)
    case Checkpoint(s, _) => s
    case Refused(_) => 0
  }

  function Sequences(d: Digests, containers: seq<seq<byte>>): (r: seq<nat>)
    ensures |r| == |containers|
    ensures forall i :: 0 <= i < |r| ==> r[i] == SequenceOf(d, containers[i])
  {
    seq(|containers|, i requires 0 <= i < |containers| => SequenceOf(d, containers[i]))
  }

  function Highest(s: seq<nat>): (r: nat)
    ensures forall i :: 0 <= i < |s| ==> s[i] <= r
    ensures r == 0 || r in s
  {
    if s == [] then 0
    else
      var r, last := Highest(s[..|s| - 1]), s[|s| - 1];
      assert forall i :: 0 <= i < |s| - 1 ==> s[i] == s[..|s| - 1][i];
      if last > r then last else r
  }

  function NextSequence(cfg: Config, w: World): nat {
    var highest := Highest(Sequences(cfg.digests, w.media.containers));
    (if w.store.checkpointSeq > highest then w.store.checkpointSeq else highest) + 1
  }

  function EntryFor(cfg: Config, key: Key, live: Live): Entry {
    Entry(key, live.slot, cfg.payloadBytes, live.generation, live.commitSeq)
  }

  // The committed keys, listed in whatever order the index yields them.
  ghost predicate Lists(st: Store, order: seq<Key>) {
    Distinct(order) && forall k :: k in order <==> k in st.index && st.index[k].committed
  }

  function EntriesFor(cfg: Config, st: Store, order: seq<Key>): (r: seq<Entry>)
    requires forall k :: k in order ==> k in st.index
    ensures |r| == |order|
    ensures forall i :: 0 <= i < |r| ==> r[i] == EntryFor(cfg, order[i], st.index[order[i]])
  {
    seq(|order|, i requires 0 <= i < |order| => EntryFor(cfg, order[i], st.index[order[i]]))
  }

  function Padded(image: seq<byte>, size: nat): (r: seq<byte>)
    ensures |image| <= size ==> |r| == size
  {
    if |image| <= size then image + LE.Zeros(size - |image|) else image
  }

  function Persist(cfg: Config, w: World, order: seq<Key>, o: WriteOutcome): World
    requires forall k :: k in order ==> k in w.store.index
  {
    var target := NextContainer(Sequences(cfg.digests, w.media.containers));
    var seqNo := NextSequence(cfg, w);
    var image := ContainerImage(cfg.digests, EntriesFor(cfg, w.store, order), seqNo);
    if |image| > cfg.ContainerSize() || target >= |w.media.containers| then w
    else
      var content := Written(w.media.containers[target], Padded(image, cfg.ContainerSize()), o);
      World(if o.Done? then w.store.(checkpointSeq := seqNo, dirty := false) else w.store,
            w.media.(containers := SetAt(w.media.containers, target, content)))
  }

  function CheckpointCall(cfg: Config, w: World, order: seq<Key>, o: WriteOutcome): World
    requires forall k :: k in order ==> k in w.store.index
  {
    if w.store.isOpen then Persist(cfg, w, order, o) else w
  }

  function Close(cfg: Config, w: World, order: seq<Key>, o: WriteOutcome): World
    requires forall k :: k in order ==> k in w.store.index
  {
    if !w.store.isOpen then w
    else
      var w' := if w.store.dirty then Persist(cfg, w, order, o) else w;
      w'.(store := w'.store.(isOpen := false))
  }

  // ---- recovery ----

  function ExpectationOf(e: Entry): Expectation { Expectation(e.key, e.payloadBytes, e.generation, true) }

  function HeaderVerdict(cfg: Config, m: Media, e: Entry): Verdict {
    if e.slot < |m.headers| then Decode(cfg.digests, m.headers[e.slot], ExpectationOf(e)) else Rejected(TruncatedBuffer)
  }

  datatype LoadRun = LoadRun(index: map<Key, Live>, owner: map<nat, Key>, slots: seq<nat>, highest: nat)

  // One candidate: geometry, then duplicates, then the header.
  function LoadOne(cfg: Config, m: Media, r: LoadRun, e: Entry): LoadRun {
    var verdict := HeaderVerdict(cfg, m, e);
    if e.slot >= cfg.total || e.payloadBytes != cfg.payloadBytes || e.key in r.index || e.slot in r.owner ||
       verdict.Rejected?
    then r
    else
      LoadRun(r.index[e.key := Live(e.slot, e.generation, verdict.fields.commitSeq, true)],
              r.owner[e.slot := e.key], r.slots + [e.slot],
              if verdict.fields.commitSeq > r.highest then verdict.fields.commitSeq else r.highest)
  }

  function LoadEntries(cfg: Config, m: Media, start: LoadRun, entries: seq<Entry>): LoadRun {
    if entries == [] then start
    else LoadOne(cfg, m, LoadEntries(cfg, m, start, entries[..|entries| - 1]), entries[|entries| - 1])
  }

  function Gaps(issued: seq<Issue>, slots: seq<nat>): (r: seq<nat>)
    ensures forall s :: s in r <==> s !in slots && exists p :: p in issued && p.slot == s
  {
    if issued == [] then []
    else
      var front, p := Gaps(issued[..|issued| - 1], slots), issued[|issued| - 1];
      assert issued == issued[..|issued| - 1] + [p];
      if p.slot in slots then front else front + [p.slot]
  }

  // Claim every slot up to the highest recovered one, commit the recovered
  // ones, and send the gaps through reclaim.
  function AdoptSlots(a: Alloc, slots: seq<nat>): (r: Alloc)
    requires a.Valid()
    ensures r.Valid()
  {
    if slots == [] then a
    else
      var (claimed, issued) := ReserveUpTo(a, Highest(slots) + 1);
      RetireAll(CommitAll(claimed, slots), Gaps(issued, slots), Reserved)
  }

  // Recovery on top of whatever index the object already holds.
  function Load(cfg: Config, st: Store, m: Media): Store
    requires st.alloc.Valid()
  {
    match SelectContainer(Sequences(cfg.digests, m.containers))
    case None => st
    case Some(c) =>
      match DecodeCheckpoint(cfg.digests, m.containers[c])
      case Refused(_) => st
      case Checkpoint(seqNo, entries) =>
        var r := LoadEntries(cfg, m, LoadRun(st.index, st.owner, [], 0), entries);
        st.(checkpointSeq := seqNo, index := r.index, owner := r.owner,
            commitSeq := if r.highest > st.commitSeq then r.highest else st.commitSeq,
            alloc := AdoptSlots(st.alloc, r.slots))
  }

  function FreshStore(cfg: Config): (r: Store)
    ensures r.alloc.Valid()
  {
    Store(map[], map[], map[], Configured(cfg.total, UNLIMITED), 0, 0, false, false)
  }

  // open() on a newly constructed object; `ready` is the number of slots whose
  // file group was found or built on media.
  function OpenFresh(cfg: Config, m: Media, ready: nat): Store {
    var st := Load(cfg, FreshStore(cfg), m);
    st.(alloc := st.alloc.(readyLimit := ready), isOpen := true)
  }

  // open() on an object that was open before: the allocator is configured
  // anew, but index, owners, pins and counters are what close() left.
  function ReopenSame(cfg: Config, st: Store, m: Media, ready: nat): Store {
    var st' := Load(cfg, st.(alloc := Configured(cfg.total, st.alloc.readyLimit)), m);
    st'.(alloc := st'.alloc.(readyLimit := ready), isOpen := true)
  }
}
