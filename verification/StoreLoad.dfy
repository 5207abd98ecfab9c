// Recovery from any checkpoint whatever: entries may repeat a key or a slot,
// name slots that do not exist, or be of another size, and still no slot gets
// two owners and nothing is taken up without its header's consent.
module StoreLoad {
  import opened Common
  import opened CheckpointCodec
  import opened SpaceAllocator
  import opened ObjectStore
  import opened StoreInvariant
  import opened StoreRecovery

  // What the store records of an entry it takes up.
  function TakenUp(cfg: Config, m: Media, e: Entry): Live
    requires Matches(cfg, m, e)
  {
    Live(e.slot, e.generation, HeaderVerdict(cfg, m, e).fields.commitSeq, true)
  }

  // The entry fits the geometry and its slot's header agrees with it.
  ghost predicate Sound(cfg: Config, m: Media, e: Entry) {
    e.slot < cfg.total && e.payloadBytes == cfg.payloadBytes && Matches(cfg, m, e)
  }

  // k was taken up from this entry.
  ghost predicate From(cfg: Config, m: Media, e: Entry, k: Key, live: Live) {
    Sound(cfg, m, e) && e.key == k && live == TakenUp(cfg, m, e)
  }

  ghost predicate Sourced(cfg: Config, m: Media, es: seq<Entry>, k: Key, live: Live) {
    exists i :: 0 <= i < |es| && From(cfg, m, es[i], k, live)
  }

  // No slot has two owners and no key two slots.
  ghost predicate OneToOne(index: map<Key, Live>, owner: map<nat, Key>) {
    && (forall k :: k in index ==> index[k].slot in owner && owner[index[k].slot] == k)
    && (forall s :: s in owner ==> owner[s] in index && index[owner[s]].slot == s)
  }

  // Everything taken up comes from a sound entry; a sound entry is left out
  // only when its key or its slot was already taken; and no sequence number
  // taken up exceeds the highest noted.
  ghost predicate LoadedFrom(cfg: Config, m: Media, es: seq<Entry>, r: LoadRun) {
    && OneToOne(r.index, r.owner)
    && (forall k :: k in r.index ==> Sourced(cfg, m, es, k, r.index[k]))
    && (forall i :: 0 <= i < |es| && Sound(cfg, m, es[i]) ==> es[i].key in r.index || es[i].slot in r.owner)
    && (forall k :: k in r.index ==> r.index[k].committed && r.index[k].commitSeq <= r.highest)
    && Distinct(r.slots) && (forall s :: s in r.slots <==> s in r.owner)
    && (forall s :: s in r.slots ==> s < cfg.total)
  }

  lemma {:induction false} LoadIsSound(cfg: Config, m: Media, es: seq<Entry>)
    ensures LoadedFrom(cfg, m, es, LoadEntries(cfg, m, EMPTY_LOAD, es))
  {
    hide LoadOne, LoadedFrom;
    if es == [] {
      NothingLoaded(cfg, m);
    } else {
      var n := |es| - 1;
      LoadIsSound(cfg, m, es[..n]);
      var r := LoadEntries(cfg, m, EMPTY_LOAD, es[..n]);
      assert es == es[..n] + [es[n]];
      if Sound(cfg, m, es[n]) && es[n].key !in r.index && es[n].slot !in r.owner {
        LoadTakes(cfg, m, es[..n], r, es[n]);
      } else {
        LoadSkips(cfg, m, es[..n], r, es[n]);
      }
    }
  }

  lemma NothingLoaded(cfg: Config, m: Media)
    ensures LoadedFrom(cfg, m, [], EMPTY_LOAD)
  {
  }

  lemma StillSourced(cfg: Config, m: Media, es: seq<Entry>, e: Entry, k: Key, live: Live)
    ensures Sourced(cfg, m, es, k, live) || From(cfg, m, e, k, live) ==> Sourced(cfg, m, es + [e], k, live)
  {
    hide From;
    var all := es + [e];
    if Sourced(cfg, m, es, k, live) {
      var i :| 0 <= i < |es| && From(cfg, m, es[i], k, live);
      assert From(cfg, m, all[i], k, live);
    }
    if From(cfg, m, e, k, live) {
      assert From(cfg, m, all[|es|], k, live);
    }
  }

  lemma LoadSkips(cfg: Config, m: Media, es: seq<Entry>, r: LoadRun, e: Entry)
    requires LoadedFrom(cfg, m, es, r)
    requires !Sound(cfg, m, e) || e.key in r.index || e.slot in r.owner
    ensures LoadOne(cfg, m, r, e) == r && LoadedFrom(cfg, m, es + [e], r)
  {
    hide HeaderVerdict, Sourced, Distinct;
    forall k | k in r.index
      ensures Sourced(cfg, m, es + [e], k, r.index[k])
    {
      StillSourced(cfg, m, es, e, k, r.index[k]);
    }
  }

  lemma LoadTakes(cfg: Config, m: Media, es: seq<Entry>, r: LoadRun, e: Entry)
    requires LoadedFrom(cfg, m, es, r)
    requires Sound(cfg, m, e) && e.key !in r.index && e.slot !in r.owner
    ensures LoadedFrom(cfg, m, es + [e], LoadOne(cfg, m, r, e))
  {
    hide HeaderVerdict, Sourced, Distinct;
    var r' := LoadOne(cfg, m, r, e);
    assert r'.index == r.index[e.key := TakenUp(cfg, m, e)] && r'.owner == r.owner[e.slot := e.key];
    forall k | k in r'.index
      ensures Sourced(cfg, m, es + [e], k, r'.index[k])
    {
      StillSourced(cfg, m, es, e, k, r'.index[k]);
    }
    DistinctAppend(r.slots, [e.slot]) by {
      OneSlot(e.slot);
    }
  }

  lemma OneSlot(s: nat)
    ensures Distinct([s])
  {
  }

  lemma {:induction false} StaysTaken(cfg: Config, m: Media, es: seq<Entry>, i: nat, k: Key)
    requires i <= |es| && k in LoadEntries(cfg, m, EMPTY_LOAD, es[..i]).index
    ensures var r, r' := LoadEntries(cfg, m, EMPTY_LOAD, es[..i]), LoadEntries(cfg, m, EMPTY_LOAD, es);
            k in r'.index && r'.index[k] == r.index[k]
  {
    hide HeaderVerdict;
    if i == |es| {
      assert es[..i] == es;
    } else {
      var n := |es| - 1;
      assert es[..n][..i] == es[..i];
      StaysTaken(cfg, m, es[..n], i, k);
    }
  }

  // The entry claims the key or the slot of another.
  predicate Clashes(e: Entry, f: Entry) { e.key == f.key || e.slot == f.slot }

  // THE FIRST CLAIM WINS. A sound entry is taken up when no sound entry before
  // it claims its key or its slot; what comes after it does not matter.
  lemma FirstClaimWins(cfg: Config, m: Media, es: seq<Entry>, i: nat)
    requires i < |es| && Sound(cfg, m, es[i])
    requires forall j :: 0 <= j < i && Sound(cfg, m, es[j]) ==> !Clashes(es[i], es[j])
    ensures var r := LoadEntries(cfg, m, EMPTY_LOAD, es);
            es[i].key in r.index && r.index[es[i].key] == TakenUp(cfg, m, es[i])
  {
    hide HeaderVerdict, LoadEntries, Distinct;
    var front, e := es[..i], es[i];
    var r := LoadEntries(cfg, m, EMPTY_LOAD, front);
    LoadIsSound(cfg, m, front);
    assert e.key !in r.index && e.slot !in r.owner by {
      forall k | k in r.index
        ensures k != e.key && r.index[k].slot != e.slot
      {
        var j :| 0 <= j < |front| && From(cfg, m, front[j], k, r.index[k]);
        assert front[j] == es[j];
      }
    }
    LoadNext(cfg, m, es, i);
    StaysTaken(cfg, m, es, i + 1, e.key);
  }

  lemma LoadNext(cfg: Config, m: Media, es: seq<Entry>, i: nat)
    requires i < |es|
    ensures LoadEntries(cfg, m, EMPTY_LOAD, es[..i + 1]) ==
            LoadOne(cfg, m, LoadEntries(cfg, m, EMPTY_LOAD, es[..i]), es[i])
  {
    hide LoadOne;
    assert es[..i + 1][..i] == es[..i];
  }

  // ANY CHECKPOINT. Whatever the media hold, opening gives an index without
  // shared slots, every key of which its slot's header confirms; the allocator
  // counts exactly those slots as committed; and the next commit is numbered
  // above all of them.
  lemma OpenAnyMedia(cfg: Config, m: Media, ready: nat)
    requires cfg.Valid()
    ensures var st := OpenFresh(cfg, m, ready);
            && OneToOne(st.index, st.owner) && st.alloc.Valid() && |st.alloc.states| == cfg.total
            && (forall s: nat :: s < cfg.total ==> (st.alloc.states[s] == Committed <==> s in st.owner))
            && (forall s :: s in st.owner ==> s < cfg.total)
            && (forall k :: k in st.index ==>
                  && st.index[k].committed && st.index[k].commitSeq <= st.commitSeq
                  && HeaderVerdict(cfg, m, EntryFor(cfg, k, st.index[k])).Accepted?)
  {
    hide LoadEntries, AdoptSlots, DecodeCheckpoint, Alloc.Valid, HeaderVerdict, Sequences, SelectContainer, Sourced;
    var st, r := OpenFresh(cfg, m, ready), EMPTY_LOAD;
    var es: seq<Entry> := [];
    NothingLoaded(cfg, m);
    var c := SelectContainer(Sequences(cfg.digests, m.containers));
    if c.Some? {
      match DecodeCheckpoint(cfg.digests, m.containers[c.value])
      case Refused(_) =>
      case Checkpoint(seqNo, entries) =>
        es, r := entries, LoadEntries(cfg, m, EMPTY_LOAD, entries);
        LoadIsSound(cfg, m, entries);
    }
    Adoption(cfg.total, r.slots, ready);
    OpenedAlloc(cfg, st, r, ready);
    forall k | k in st.index
      ensures HeaderVerdict(cfg, m, EntryFor(cfg, k, st.index[k])).Accepted?
    {
      Confirmed(cfg, m, es, k, st.index[k]);
    }
  }

  // Opening leaves the allocator that adoption of the recovered slots gives.
  lemma OpenedAlloc(cfg: Config, st: Store, r: LoadRun, ready: nat)
    requires st.alloc == AdoptSlots(Configured(cfg.total, UNLIMITED), r.slots).(readyLimit := ready) ||
             (r.slots == [] && st.alloc == Configured(cfg.total, UNLIMITED).(readyLimit := ready))
    ensures st.alloc == AdoptSlots(Configured(cfg.total, UNLIMITED), r.slots).(readyLimit := ready)
  {
    hide Configured;
  }

  lemma Confirmed(cfg: Config, m: Media, es: seq<Entry>, k: Key, live: Live)
    requires Sourced(cfg, m, es, k, live)
    ensures HeaderVerdict(cfg, m, EntryFor(cfg, k, live)).Accepted?
  {
    hide HeaderCodec.Decode;
    var i :| 0 <= i < |es| && From(cfg, m, es[i], k, live);
    assert ExpectationOf(es[i]) == ExpectationOf(EntryFor(cfg, k, live));
  }
}
