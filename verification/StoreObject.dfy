// The store object itself: fields updated in place by batch loops. Every
// method is tied to the function of the same name on values, so whatever is
// proved of runs of those functions holds of runs of these methods.
module StoreObject {
  import opened Common
  import opened HeaderCodec
  import opened CheckpointCodec
  import opened SpaceAllocator
  import opened ObjectStore

  datatype Status = Ok | NotReady | IoError | ImageTooLarge

  // How writing a checkpoint is reported.
  ghost function PersistStatus(cfg: Config, w: World, order: seq<Key>, o: WriteOutcome): Status
    requires forall k :: k in order ==> k in w.store.index
  {
    if |ContainerImage(cfg.digests, EntriesFor(cfg, w.store, order), NextSequence(cfg, w))| > cfg.ContainerSize()
    then ImageTooLarge
    else if o.Done? then Ok else IoError
  }

  // Exactly the entries of the committed keys.
  ghost predicate AreCommitted(cfg: Config, index: map<Key, Live>, entries: seq<Entry>) {
    && (forall k :: k in index && index[k].committed ==> EntryFor(cfg, k, index[k]) in entries)
    && (forall e :: e in entries ==>
          e.key in index && index[e.key].committed && e == EntryFor(cfg, e.key, index[e.key]))
  }

  class ObjectStoreCore {
    const cfg: Config
    const allocator: SpaceAllocator
    var index: map<Key, Live>
    var owner: map<nat, Key>
    var pins: map<Key, nat>
    var commitSeq: nat
    var checkpointSeq: nat
    var dirty: bool
    var isOpen: bool
    var media: Media

    function Volatile(): Store
      reads this, allocator
    {
      Store(index, owner, pins, allocator.View(), commitSeq, checkpointSeq, dirty, isOpen)
    }

    function State(): World
      reads this, allocator
    {
      World(Volatile(), media)
    }

    ghost predicate Valid()
      reads this, allocator
    {
      allocator.View().Valid() && cfg.payloadBytes > 0 && forall k :: k in index ==> k != []
    }

    constructor (cfg: Config, media: Media)
      requires cfg.payloadBytes > 0
      ensures this.cfg == cfg && this.media == media && fresh(allocator)
      ensures Volatile() == FreshStore(cfg).(alloc := Configured(0, UNLIMITED))
      ensures Valid()
    {
      this.cfg, this.media := cfg, media;
      allocator := new SpaceAllocator();
      index, owner, pins := map[], map[], map[];
      commitSeq, checkpointSeq, dirty, isOpen := 0, 0, false, false;
    }

    // ---- write path ----

    method Reserve(keys: seq<Key>) returns (status: Status, accepted: seq<Grant>, rejected: nat)
      requires Valid()
      modifies this, allocator
      ensures Valid()
      ensures State() == World(ObjectStore.Reserve(old(Volatile()), keys), old(media))
      ensures status == if old(isOpen) then Ok else NotReady
      ensures old(isOpen) ==> accepted == ReserveKeys(old(Volatile()), keys).accepted &&
                              rejected == ReserveKeys(old(Volatile()), keys).rejected
    {
      hide Alloc.Valid, ReserveUpTo, NextFree, ReserveOne;
      accepted, rejected := [], 0;
      if !isOpen {
        return NotReady, accepted, rejected;
      }
      status := Ok;
      for i := 0 to |keys|
        invariant Valid() && media == old(media)
        invariant ReserveRun(Volatile(), accepted, rejected, false) == ReserveKeys(old(Volatile()), keys[..i])
      {
        ghost var st := Volatile();
        assert keys[..i + 1][..i] == keys[..i];
        var key := keys[i];
        if !Admissible(key) {
          rejected := rejected + 1;
          continue;
        }
        if key in index {
          accepted := accepted + [Grant(key, index[key].slot, index[key].generation)];
          continue;
        }
        ReserveSingle(st.alloc, 1);
        var issued, refused := allocator.Reserve(1);
        if issued == [] {
          rejected := rejected + (|keys| - i);
          ReserveExhausted(old(Volatile()), keys, i);
          return;
        }
        index := index[key := Live(issued[0].slot, issued[0].generation, 0, false)];
        owner := owner[issued[0].slot := key];
        accepted := accepted + [Grant(key, issued[0].slot, issued[0].generation)];
      }
      assert keys[..|keys|] == keys;
    }

    method WriteHeader(slot: nat, key: Key, generation: nat, seqNo: nat, o: WriteOutcome) returns (ok: bool)
      requires key != [] && cfg.payloadBytes > 0
      modifies this`media
      ensures ok == o.Done?
      ensures var header := HeaderFor(cfg, key, Live(slot, generation, 0, false), seqNo);
              var written := if slot < |old(media).headers| then Written(old(media).headers[slot], header, o) else [];
              media == old(media).(headers := SetAt(old(media).headers, slot, written))
    {
      hide Image;
      var buffer := new byte[HEADER_BYTES];
      var encoded := Encode(cfg.digests, buffer, key, cfg.payloadBytes, generation, seqNo);
      assert buffer[..] == HeaderFor(cfg, key, Live(slot, generation, 0, false), seqNo);
      var content := if slot < |media.headers| then Written(media.headers[slot], buffer[..], o) else [];
      media := media.(headers := SetAt(media.headers, slot, content));
      return o.Done?;
    }

    // Stops at the first failed header write, leaving the allocator and the
    // dirty flag as they were.
    method Commit(keys: seq<Key>, outs: seq<WriteOutcome>) returns (status: Status)
      requires Valid() && |outs| == |keys|
      modifies this, allocator
      ensures Valid()
      ensures State() == ObjectStore.Commit(cfg, old(State()), keys, outs)
      ensures status == if !old(isOpen) then NotReady
                        else if CommitKeys(cfg, old(State()), keys, outs).ok then Ok else IoError
    {
      hide Alloc.Valid, HeaderFor, CommitAll, CommitKeys;
      CommitNothing(cfg, State());
      if !isOpen {
        return NotReady;
      }
      var slots: seq<nat> := [];
      ghost var tried: set<nat> := {};
      for i := 0 to |keys|
        invariant Valid() && isOpen
        invariant CommitRun(State(), slots, true, tried) == CommitKeys(cfg, old(State()), keys[..i], outs[..i])
      {
        CommitNext(cfg, old(State()), keys, outs, i);
        var key := keys[i];
        if key !in index || index[key].committed {
          continue;
        }
        var live := index[key];
        commitSeq := commitSeq + 1;
        tried := tried + {live.slot};
        SameHeader(cfg, key, live, commitSeq);
        var written := WriteHeader(live.slot, key, live.generation, commitSeq, outs[i]);
        if !written {
          CommitStops(cfg, old(State()), keys, outs, i + 1);
          return IoError;
        }
        index := index[key := live.(committed := true, commitSeq := commitSeq)];
        slots := slots + [live.slot];
      }
      assert keys[..|keys|] == keys && outs[..|keys|] == outs;
      if slots != [] {
        allocator.Commit(slots);
        dirty := true;
      }
      return Ok;
    }

    method Abort(keys: seq<Key>)
      requires Valid()
      modifies this, allocator
      ensures Valid()
      ensures State() == World(ObjectStore.Abort(old(Volatile()), keys), old(media))
    {
      hide Alloc.Valid, RetireAll;
      var slots: seq<nat> := [];
      for i := 0 to |keys|
        invariant Valid() && media == old(media)
        invariant DropRun(Volatile(), slots) == DropKeys(old(Volatile()), keys[..i], false)
      {
        assert keys[..i + 1][..i] == keys[..i];
        var key := keys[i];
        if key in index && !index[key].committed {
          slots := slots + [index[key].slot];
          owner := owner - {index[key].slot};
          index := index - {key};
        }
      }
      assert keys[..|keys|] == keys;
      if slots != [] {
        allocator.Abort(slots);
      } else {
        RetireNothing(allocator.View(), Reserved);
      }
    }

    method Release(keys: seq<Key>) returns (released: nat)
      requires Valid()
      modifies this, allocator
      ensures Valid()
      ensures State() == World(ObjectStore.Release(old(Volatile()), keys), old(media))
      ensures released == |DropKeys(old(Volatile()), keys, true).slots|
    {
      hide Alloc.Valid, RetireAll;
      var slots: seq<nat> := [];
      released := 0;
      for i := 0 to |keys|
        invariant Valid() && media == old(media) && released == |slots|
        invariant DropRun(Volatile(), slots) == DropKeys(old(Volatile()), keys[..i], true)
      {
        assert keys[..i + 1][..i] == keys[..i];
        var key := keys[i];
        if key !in index || !index[key].committed {
          continue;
        }
        if key in pins && pins[key] > 0 {
          continue;
        }
        slots := slots + [index[key].slot];
        owner := owner - {index[key].slot};
        index := index - {key};
        released := released + 1;
      }
      assert keys[..|keys|] == keys;
      if slots != [] {
        var queued := allocator.Release(slots);
        dirty := true;
      } else {
        RetireNothing(allocator.View(), Committed);
      }
    }

    method Pin(keys: seq<Key>)
      modifies this`pins
      ensures Volatile() == ObjectStore.Pin(old(Volatile()), keys)
    {
      for i := 0 to |keys|
        invariant Volatile() == ObjectStore.Pin(old(Volatile()), keys[..i])
      {
        assert keys[..i + 1][..i] == keys[..i];
        pins := pins[keys[i] := (if keys[i] in pins then pins[keys[i]] else 0) + 1];
      }
      assert keys[..|keys|] == keys;
    }

    method Unpin(keys: seq<Key>)
      modifies this`pins
      ensures Volatile() == ObjectStore.Unpin(old(Volatile()), keys)
    {
      for i := 0 to |keys|
        invariant Volatile() == ObjectStore.Unpin(old(Volatile()), keys[..i])
      {
        assert keys[..i + 1][..i] == keys[..i];
        var key := keys[i];
        if key !in pins {
          continue;
        }
        var left := if pins[key] > 0 then pins[key] - 1 else 0;
        pins := if left == 0 then pins - {key} else pins[key := left];
      }
      assert keys[..|keys|] == keys;
    }

    // ---- reclamation ----

    method DrainReclaim(max: nat, outs: seq<ZeroOutcome>) returns (drained: nat)
      requires Valid() && |outs| == |Taken(allocator.View(), max)|
      modifies this, allocator
      ensures Valid()
      ensures State() == ObjectStore.Drain(old(State()), max, outs)
      ensures drained == |DrainSlots(old(media), Taken(old(allocator.View()), max), outs).done|
    {
      hide Alloc.Valid, RequeueAll, FinishAll, TakeAll;
      ghost var before := allocator.View();
      var taken := allocator.TakeReclaimable(max);
      var done, failed: seq<nat> := [], [];
      for i := 0 to |taken|
        invariant Valid() && Volatile() == old(Volatile()).(alloc := TakeAll(before, max))
        invariant DrainRun(media, done, failed) == DrainSlots(old(media), taken[..i], outs[..i])
      {
        assert taken[..i + 1][..i] == taken[..i] && outs[..i + 1][..i] == outs[..i];
        media := ZeroSlot(media, taken[i], outs[i]);
        if outs[i].Zeroed? {
          done := done + [taken[i]];
        } else {
          failed := failed + [taken[i]];
        }
      }
      assert taken[..|taken|] == taken && outs[..|taken|] == outs;
      if failed != [] {
        allocator.RequeueReclaim(failed);
      } else {
        RequeueNothing(allocator.View());
      }
      if done != [] {
        allocator.FinishReclaim(done);
      } else {
        FinishNothing(allocator.View());
      }
      return |done|;
    }

    // ---- checkpoint ----

    // The committed part of the index, in the order the map yields it.
    method CollectEntries() returns (entries: seq<Entry>, ghost order: seq<Key>)
      ensures Lists(Volatile(), order)
      ensures (forall k :: k in order ==> k in index) && entries == EntriesFor(cfg, Volatile(), order)
      ensures AreCommitted(cfg, index, entries)
    {
      entries, order := [], [];
      var rest := index.Keys;
      while rest != {}
        invariant rest <= index.Keys && Distinct(order)
        invariant forall k :: k in order <==> k in index && k !in rest && index[k].committed
        invariant entries == EntriesFor(cfg, Volatile(), order)
        invariant forall k :: k in order ==> EntryFor(cfg, k, index[k]) in entries
        decreases rest
      {
        var key :| key in rest;
        rest := rest - {key};
        if index[key].committed {
          entries := entries + [EntryFor(cfg, key, index[key])];
          order := order + [key];
        }
      }
    }

    method ReadSequences() returns (sequences: seq<nat>)
      ensures sequences == Sequences(cfg.digests, media.containers)
    {
      sequences := [];
      for i := 0 to |media.containers|
        invariant |sequences| == i
        invariant forall j :: 0 <= j < i ==> sequences[j] == SequenceOf(cfg.digests, media.containers[j])
      {
        var decoded := DecodeCheckpoint(cfg.digests, media.containers[i]);
        sequences := sequences + [if decoded.Checkpoint? then decoded.sequence else 0];
      }
    }

    // The order is whatever the index yields; the state is that of a
    // checkpoint written in that order.
    method PersistCheckpoint(o: WriteOutcome) returns (status: Status, ghost order: seq<Key>)
      requires Valid() && |media.containers| > 0
      modifies this
      ensures Valid() && Lists(old(Volatile()), order)
      ensures forall k :: k in order ==> k in old(index)
      ensures State() == Persist(cfg, old(State()), order, o) && status == PersistStatus(cfg, old(State()), order, o)
    {
      hide ContainerImage, Lists, AreCommitted, Persist, PersistStatus;
      var entries: seq<Entry>;
      entries, order := CollectEntries();
      status := PersistEntries(entries, order, o);
    }

    // Which container to overwrite, and with which sequence number.
    method NextCheckpoint() returns (target: nat, seqNo: nat)
      ensures target == NextContainer(Sequences(cfg.digests, media.containers)) && seqNo == NextSequence(cfg, State())
    {
      hide NextContainer, SequenceOf, Highest;
      var sequences := ReadSequences();
      target := ScanForNext(sequences);
      var highest := Highest(sequences);
      seqNo := (if checkpointSeq > highest then checkpointSeq else highest) + 1;
    }

    method PersistEntries(entries: seq<Entry>, ghost order: seq<Key>, o: WriteOutcome) returns (status: Status)
      requires Valid() && |media.containers| > 0 && forall k :: k in order ==> k in index
      requires entries == EntriesFor(cfg, Volatile(), order)
      modifies this
      ensures Valid() && State() == Persist(cfg, old(State()), order, o)
      ensures status == PersistStatus(cfg, old(State()), order, o)
    {
      hide ContainerImage, Padded, NextContainer, Sequences, NextSequence, Alloc.Valid, ContainerBytes, EntriesFor;
      var target, seqNo := NextCheckpoint();
      var image := EncodeCheckpoint(cfg.digests, entries, seqNo);
      if |image| > cfg.ContainerSize() {
        return ImageTooLarge;
      }
      var content := Written(media.containers[target], Padded(image, cfg.ContainerSize()), o);
      media := media.(containers := SetAt(media.containers, target, content));
      if !o.Done? {
        return IoError;
      }
      checkpointSeq, dirty := seqNo, false;
      return Ok;
    }

    method Checkpoint(o: WriteOutcome) returns (status: Status, ghost order: seq<Key>)
      requires Valid() && |media.containers| > 0
      modifies this
      ensures Valid() && Lists(old(Volatile()), order)
      ensures forall k :: k in order ==> k in old(index)
      ensures State() == CheckpointCall(cfg, old(State()), order, o)
      ensures status == if old(isOpen) then PersistStatus(cfg, old(State()), order, o) else NotReady
    {
      if !isOpen {
        ghost var unused;
        unused, order := CollectEntries();
        return NotReady, order;
      }
      status, order := PersistCheckpoint(o);
    }

    // A dirty checkpoint is flushed first; the store is closed even when that
    // fails, and index, owners and counters stay as they are.
    method Close(o: WriteOutcome) returns (status: Status, ghost order: seq<Key>)
      requires Valid() && |media.containers| > 0
      modifies this
      ensures Valid() && Lists(old(Volatile()), order)
      ensures forall k :: k in order ==> k in old(index)
      ensures State() == ObjectStore.Close(cfg, old(State()), order, o)
      ensures status == if old(isOpen && dirty) then PersistStatus(cfg, old(State()), order, o) else Ok
    {
      hide Persist, Alloc.Valid, PersistStatus;
      status := Ok;
      if isOpen && dirty {
        status, order := PersistCheckpoint(o);
        isOpen := false;
      } else {
        ghost var unused;
        unused, order := CollectEntries();
        isOpen := false;
      }
    }

    // ---- recovery ----

    // Every entry is a candidate; the header on its slot decides.
    method LoadCandidates(entries: seq<Entry>) returns (slots: seq<nat>, highest: nat)
      requires Valid() && forall e :: e in entries ==> e.key != []
      modifies this`index, this`owner
      ensures Valid()
      ensures LoadRun(index, owner, slots, highest) ==
              LoadEntries(cfg, media, LoadRun(old(index), old(owner), [], 0), entries)
    {
      hide Alloc.Valid, Decode;
      slots, highest := [], 0;
      for i := 0 to |entries|
        invariant Valid()
        invariant LoadRun(index, owner, slots, highest) ==
                  LoadEntries(cfg, media, LoadRun(old(index), old(owner), [], 0), entries[..i])
      {
        assert entries[..i + 1][..i] == entries[..i];
        var e := entries[i];
        if e.slot >= cfg.total || e.payloadBytes != cfg.payloadBytes {
          continue;
        }
        if e.key in index || e.slot in owner {
          continue;
        }
        var verdict := HeaderVerdict(cfg, media, e);
        if verdict.Rejected? {
          continue;
        }
        index := index[e.key := Live(e.slot, e.generation, verdict.fields.commitSeq, true)];
        owner := owner[e.slot := e.key];
        slots := slots + [e.slot];
        highest := if verdict.fields.commitSeq > highest then verdict.fields.commitSeq else highest;
      }
      assert entries[..|entries|] == entries;
    }

    method ClaimRecovered(slots: seq<nat>)
      requires allocator.View().Valid()
      modifies allocator
      ensures allocator.View() == AdoptSlots(old(allocator.View()), slots)
    {
      hide Alloc.Valid, ReserveUpTo, CommitAll, RetireAll, Highest;
      if slots == [] {
        return;
      }
      var issued, refused := allocator.Reserve(Highest(slots) + 1);
      var gaps: seq<nat> := [];
      for i := 0 to |issued|
        invariant gaps == Gaps(issued[..i], slots)
      {
        assert issued[..i + 1][..i] == issued[..i];
        if issued[i].slot !in slots {
          gaps := gaps + [issued[i].slot];
        }
      }
      assert issued[..|issued|] == issued;
      allocator.Commit(slots);
      if gaps != [] {
        allocator.Abort(gaps);
      } else {
        RetireNothing(allocator.View(), Reserved);
      }
    }

    method LoadCheckpoint()
      requires Valid()
      modifies this, allocator
      ensures Valid()
      ensures State() == World(Load(cfg, old(Volatile()), old(media)), old(media))
    {
      hide Alloc.Valid, LoadEntries, AdoptSlots, SelectContainer, DecodeCheckpoint;
      var sequences := ReadSequences();
      var found, chosen := ScanForNewest(sequences);
      if !found {
        return;
      }
      NewestIsInRange(sequences);
      var decoded := DecodeCheckpoint(cfg.digests, media.containers[chosen]);
      if decoded.Refused? {
        return;
      }
      checkpointSeq := decoded.sequence;
      DecodedKeys(cfg.digests, media.containers[chosen]);
      var slots, highest := LoadCandidates(decoded.entries);
      commitSeq := if highest > commitSeq then highest else commitSeq;
      ClaimRecovered(slots);
    }

    // On a newly constructed object this is the first opening of the pool; on
    // one that was open before, index and owners are still there.
    method Open(capacityBytes: nat, slotBytes: nat, ready: nat) returns (status: Status)
      requires Valid() && cfg.total > 0 && slotBytes > 0 && capacityBytes / slotBytes == cfg.total
      modifies this, allocator
      ensures Valid()
      ensures State() == if old(isOpen) then old(State())
                         else World(ReopenSame(cfg, old(Volatile()), old(media), ready), old(media))
      ensures status == Ok
    {
      hide Load, Alloc.Valid;
      if isOpen {
        return Ok;
      }
      var configured := allocator.Configure(capacityBytes, slotBytes);
      LoadCheckpoint();
      allocator.SetReadyLimit(ready);
      ReadyLimitIsFree(allocator.View(), ready);
      isOpen := true;
      return Ok;
    }
  }

  // Opening a newly constructed object is opening a fresh store.
  lemma FirstOpening(cfg: Config, m: Media, ready: nat)
    ensures ReopenSame(cfg, FreshStore(cfg).(alloc := Configured(0, UNLIMITED)), m, ready) == OpenFresh(cfg, m, ready)
  {
    hide Load;
  }

  lemma ReadyLimitIsFree(a: Alloc, ready: nat)
    requires exists b: Alloc :: b.Valid() && a == b.(readyLimit := ready)
    ensures a.Valid()
  {
  }

  lemma NewestIsInRange(sequences: seq<nat>)
    requires SelectContainer(sequences).Some?
    ensures SelectContainer(sequences).value < |sequences|
  {
  }

  // Decoding never yields an empty key.
  lemma DecodedKeys(d: Digests, data: seq<byte>)
    requires DecodeCheckpoint(d, data).Checkpoint?
    ensures forall e :: e in DecodeCheckpoint(d, data).entries ==> e.key != []
  {
    hide Parse, LE.Value;
    var body := data[CONTAINER_HEADER..CONTAINER_HEADER + LE.Field(data, 20, 8)];
    ParsedKeys(body, COUNT_BYTES, LE.Field(body, 0, 8));
  }

  lemma {:induction false} ParsedKeys(body: seq<byte>, cursor: nat, count: nat)
    requires cursor <= |body|
    ensures var r := Parse(body, cursor, count); r.Some? ==> forall e :: e in r.value ==> e.key != []
    decreases count
  {
    hide LE.Value;
    if count > 0 && ParseOne(body, cursor).Some? {
      ParsedKeys(body, ParseOne(body, cursor).value.1, count - 1);
    }
  }

  // ---- the loops and their functions ----

  lemma ReserveSingle(a: Alloc, count: nat)
    requires a.Valid() && count == 1
    ensures |a.generations| == a.total
    ensures ReserveUpTo(a, count) ==
            if NextFree(a) < a.total then (ReserveOne(a), [Issue(NextFree(a), a.generations[NextFree(a)])]) else (a, [])
  {
    assert ReserveUpTo(a, count - 1) == (a, []);
    if NextFree(a) < a.total {
      var p := Issue(NextFree(a), a.generations[NextFree(a)]);
      assert [] + [p] == [p];
    }
  }

  // Once space has run out, every later key is rejected and nothing changes.
  lemma {:induction false} ReserveExhausted(st: Store, keys: seq<Key>, i: nat)
    requires st.alloc.Valid() && i < |keys|
    requires var r := ReserveKeys(st, keys[..i]);
             && !r.exhausted && Admissible(keys[i]) && keys[i] !in r.store.index
             && NextFree(r.store.alloc) >= r.store.alloc.total
    ensures var r := ReserveKeys(st, keys[..i]);
            ReserveKeys(st, keys) == r.(rejected := r.rejected + (|keys| - i), exhausted := true)
  {
    hide Alloc.Valid, NextFree;
    var n := |keys| - 1;
    if i < n {
      assert keys[..n][..i] == keys[..i];
      ReserveExhausted(st, keys[..n], i);
    }
  }

  lemma CommitNothing(cfg: Config, w: World)
    ensures CommitKeys(cfg, w, [], []) == CommitRun(w, [], true, {})
  {
  }

  lemma CommitNext(cfg: Config, w: World, keys: seq<Key>, outs: seq<WriteOutcome>, i: nat)
    requires |outs| == |keys| && i < |keys|
    ensures var r := CommitKeys(cfg, w, keys[..i], outs[..i]);
            CommitKeys(cfg, w, keys[..i + 1], outs[..i + 1]) ==
            if !r.ok || !Commits(r.w.store, keys[i]) then r else CommitOneKey(cfg, r, keys[i], outs[i])
  {
    hide CommitOneKey;
    assert keys[..i + 1][..i] == keys[..i] && outs[..i + 1][..i] == outs[..i];
  }

  lemma {:induction false} CommitStops(cfg: Config, w: World, keys: seq<Key>, outs: seq<WriteOutcome>, i: nat)
    requires |outs| == |keys| && i <= |keys| && !CommitKeys(cfg, w, keys[..i], outs[..i]).ok
    ensures CommitKeys(cfg, w, keys, outs) == CommitKeys(cfg, w, keys[..i], outs[..i])
  {
    hide CommitOneKey;
    if i == |keys| {
      assert keys[..i] == keys && outs[..i] == outs;
    } else {
      var n := |keys| - 1;
      assert keys[..n][..i] == keys[..i] && outs[..n][..i] == outs[..i];
      CommitStops(cfg, w, keys[..n], outs[..n], i);
    }
  }

  lemma SameHeader(cfg: Config, key: Key, live: Live, seqNo: nat)
    ensures HeaderFor(cfg, key, Live(live.slot, live.generation, 0, false), seqNo) == HeaderFor(cfg, key, live, seqNo)
  {
  }

  lemma RetireNothing(a: Alloc, from: SlotState)
    requires a.Valid() && from in {Reserved, Committed}
    ensures RetireAll(a, [], from) == a
  {
  }

  lemma RequeueNothing(a: Alloc)
    requires a.Valid()
    ensures RequeueAll(a, []) == a
  {
  }

  lemma FinishNothing(a: Alloc)
    requires a.Valid()
    ensures FinishAll(a, []) == a
  {
  }
}
