# Verified model of the Tutti storage and cache core

Tutti keeps key/value-cache objects on local NVMe drives. This project models
the parts of it whose correctness spans many calls, a crash, or several threads,
and proves what they are for:

- **The crash-consistent object store** (`csrc/storage_objects`): keys are
  reserved on numbered slots, committed by writing a header, reclaimed by
  zeroing; the index is written to two mirrored checkpoint containers, and open
  checks every checkpoint entry against the header on its slot. Media are bytes:
  headers and containers are encoded and decoded by the modelled codecs, and each
  slot also carries, for the proof only, whose complete payload is really there.
  `ObjectStore` holds the calls as functions, `StoreInvariant`, `StoreRecovery`
  and `StoreRuns` the invariant over all runs with crashes, `StoreOwnership` what
  holds even when payloads are misused, `StoreRestart`, `StoreLimits` and
  `StoreWitness` what restarts give back and where the code stops short,
  `StoreObject` the object whose loops refine those functions. `StoreEffects`,
  `StoreReclaim`, `StoreLaws` and `StoreLoad` say what each call is for: what it
  grants, commits, frees and takes up. `SpaceAllocator`, `AllocatorLaws`,
  `Placement`, `SlotMedia`, `HeaderCodec`, `CheckpointCodec`, `LittleEndian`,
  `Precreate`, `PrecreateRuns` and `PrecreateProgress` are the layers below.
- **Asynchronous completion** (`striped_async_data_path.cpp`): host steps
  interleaved with device steps that retire kernels and finish batches.
  `AsyncCompletion` is the machine, `AsyncSafety` and `AsyncRuns` what holds in
  every interleaving, `AsyncLiveness` what the device cannot take back, and
  `AsyncDataPath` the host object, each of whose calls is a run of that machine
  and whose polling ends what is finished.
- **The semantic cache index and its scheduler-side owner** (`chunk_index.py`,
  `metadata.py`): `ChunkKeys`, `SemanticIndex`, `IndexRuns`, `IndexLaws`,
  `IndexObject`, `SchedulerMetadata`, `SchedulerSync`, `SchedulerObject`.
- **The all-layer read plan** (`core.py`, `ReadPlan` and `ReadOutcomes`) and **the
  staging ring window** (`staging.py`, `RingWindow` and `RingRotation`).

A call that the source writes as a loop over fields is a method of a class here,
proved equal to a function on values; the theorems are about that function and
about all runs of such functions. Outcomes of I/O, device calls and clocks are
arguments, so every statement holds for all of them.

## What is assumed of the environment

- A header or container write lands whole, does nothing, or leaves bytes that do
  not decode; it may also land and report failure.
- Zeroing proceeds upward, so its interruption leaves a zeroed prefix.
- Reads of intact media succeed, and the geometry does not change between opens.
- The caller writes a payload only under an uncommitted reservation and makes it
  durable before committing. After a failed commit it may rewrite the payload,
  unless the header on the slot still satisfies an entry of the newest checkpoint.
  Ownership and the checkpoint containers do not depend on this.
- Counters stay below 2^64.
- Hashes and CRCs are arbitrary functions; where distinct inputs must not
  collide, only the inputs actually used are assumed apart.

## Where the code differs from what its comments suggest

The model follows the code; each of these has a lemma that shows the case and one
that says exactly when it occurs.

- Closing and reopening one `ObjectStoreCore` keeps the old index and owners over
  a fresh allocator (`StoreWitness.LostSlotReached`,
  `StoreLimits.ReopenKeepsOwnershipIff`).
- A commit that fails on a later key leaves earlier keys committed without the
  dirty flag or the allocator knowing: a clean close forgets them, and releasing
  them orphans the slot (`StoreLimits.HalfCommitIsForgotten`; exactly when:
  `StoreLimits.RestartIsExactIff`, `StoreLimits.ReleaseOrphansIff`; repaired as in
  `StoreRestart.ExactAgainAfter`).
- A header write that lands and reports failure must not be followed by a payload
  rewrite when the newest checkpoint matches it (`StoreWitness.UnsafeRewriteReached`,
  `StoreLimits.RewriteIsSafeIff`).
- Mounts are deduplicated as strings, not as directories
  (`Placement.TrailingSlashAliases`, `Placement.SlotsApartIffMountsSeparate`).
- A precreate step that outlives a close and open can lower the published count
  (`PrecreateRuns.CountCanShrink`, `PrecreateRuns.CountShrinksExactlyWhen`), and a
  recovered slot above it comes back into circulation
  (`Precreate.OnlyReadySlotsIssuedIff`).
- When neither recording the submit event nor the fallback synchronisation works,
  the slot's old event answers for the new kernel (`AsyncRuns.EarlyEndReached`,
  `AsyncRuns.NeverEarlyIff`).
- Of checkpoint entries that claim one key or one slot the first is kept, where a
  comment says all are dropped (`StoreLoad.FirstClaimWins`,
  `StoreLoad.LoadIsSound`).
- A layer submitted without getting an event is missed by abort
  (`ReadPlan.LayerWithoutEventIsMissed`, `ReadPlan.AbortCoversSubmitted`).
- A staging wait that raises uses its event up, so the wave it protected is later
  overwritten without a wait (`RingWindow.OverwrittenWithoutWait`,
  `RingWindow.UnguardedIff`).

## Model

| member | source | states |
|---|---|---|
| `StoreRuns.StepKeeps` | csrc/storage_objects/object_store_core.cpp:484-866 | every call, with every outcome of every header, container and zeroing write, and crash-then-open, keeps the store invariant: ownership, backing of committed keys, a readable newest checkpoint, and no slot that could be handed out carrying a header that checkpoint would accept |
| `StoreRuns.RunKeeps` | csrc/storage_objects/object_store_core.cpp:484-866 | the invariant holds after any sequence of calls and crashes |
| `StoreRuns.CrashSafety` | csrc/storage_objects/object_store_core.cpp:868-987 | crash anywhere in any run and open: every key then offered is committed and sits on a slot holding a complete payload with that key's fingerprint |
| `StoreRuns.CrashSafetyExact` | csrc/storage_objects/object_store_core.cpp:868-987 | the payload found is the key's own, provided the digests tell it apart from the keys whose payloads were ever written |
| `StoreOwnership.StepShape` | csrc/storage_objects/object_store_core.cpp:484-866 | whatever the caller does with payloads, every call with every outcome keeps ownership and the containers |
| `StoreOwnership.AnyRunKeeps` | csrc/storage_objects/object_store_core.cpp:484-866 | so does every run |
| `StoreOwnership.DrainSparesLiveObjects` | csrc/storage_objects/object_store_core.cpp:689-721 | in every run, failed commits and misused payloads included, index and owner map are inverse, an owned slot is on neither list nor in flight, and draining leaves its header and payload untouched |
| `StoreOwnership.CheckpointAlternation` | csrc/storage_objects/object_store_core.cpp:786-853 | in every such run, torn container writes included: nonzero sequences differ, the next write spares the container recovery reads and exceeds all sequences, and the one recovery reads is the last completely written |
| `StoreOwnership.NewestOnlyGrows` | csrc/storage_objects/object_store_core.cpp:821-851 | the newest complete checkpoint never goes back to an older one |
| `StoreOwnership.OverflowUnreachable` | csrc/storage_objects/object_store_core.cpp:833-837 | the error of an image larger than its container cannot occur in any run |
| `StoreInvariant.ReserveKeeps` | csrc/storage_objects/object_store_core.cpp:484-545 | a batch of reservations keeps the invariant whether or not space runs out |
| `StoreInvariant.PayloadKeeps` | csrc/storage_objects/object_store_core.cpp:547-560 | writing or half-writing a payload under an uncommitted reservation, a failed commit before it included, keeps the invariant unless the header on the slot satisfies an entry of the newest checkpoint |
| `StoreInvariant.CommitLoopKeeps` | csrc/storage_objects/object_store_core.cpp:562-604 | header writes one by one, stopping at the first failure, keep the invariant; the slots collected are exactly committed ones |
| `StoreInvariant.AbortKeeps` | csrc/storage_objects/object_store_core.cpp:606-625 | abort keeps the invariant |
| `StoreInvariant.ReleaseKeeps` | csrc/storage_objects/object_store_core.cpp:631-662 | release keeps the invariant: the slot stays unavailable until zeroed |
| `StoreInvariant.DrainKeeps` | csrc/storage_objects/object_store_core.cpp:689-721 | a slot becomes free only with an unreadable header, whatever zeroing did to the others |
| `StoreInvariant.OwnHeaderVerdict` | csrc/storage_objects/object_store_core.cpp:547-560 | a committed header satisfies a checkpoint entry only for a key with the same fingerprint, and always its own |
| `StoreEffects.ReserveEffect` | csrc/storage_objects/object_store_core.cpp:484-545 | known keys keep their placement, every grant names the placement in the index, new keys are uncommitted, and unless space ran out all admissible keys are granted |
| `StoreEffects.CommitEffect` | csrc/storage_objects/object_store_core.cpp:562-604 | which keys became committed and which slots are reported to the allocator, the same set; nothing else of the index moves |
| `StoreEffects.DropEffect` | csrc/storage_objects/object_store_core.cpp:606-662 | exactly the droppable keys of the batch leave the index and the owner map: uncommitted ones for abort, committed and unpinned ones for release |
| `StoreEffects.PinnedSurvivesRelease` | csrc/storage_objects/object_store_core.cpp:631-683 | a pinned key survives every release |
| `StoreEffects.CommittedSurvivesAbort` | csrc/storage_objects/object_store_core.cpp:606-625 | a committed key survives every abort |
| `StoreReclaim.DrainEffect` | csrc/storage_objects/object_store_core.cpp:689-721 | each slot taken from the head of the queue: if zeroed, it is free again, on the free list only, under the next generation; if not, it is reclaiming, on the queue only, under its old generation; every other slot is left alone, free slots keep their turn, and slots still queued are ahead of those that failed |
| `StoreReclaim.DrainConservesSpace` | csrc/storage_objects/object_store_core.cpp:712-720 | free, queued and in-flight slots together stay as many, the free list grows by exactly the slots zeroed, and once one was there is a slot to hand out |
| `StoreReclaim.DrainMedia` | csrc/storage_objects/object_store_core.cpp:698-710 | a zeroed slot has a blank header and no payload; no other slot and no container is written |
| `StoreLaws.ReserveGrants` | csrc/storage_objects/object_store_core.cpp:502-543 | admissible keys are granted in batch order until a key not in the index finds no free slot; from there on everything is rejected; all others rejected are inadmissible |
| `StoreLaws.CommitStops` | csrc/storage_objects/object_store_core.cpp:573-597 | a failing commit has committed every reserved key before the failed header write, not the one whose write failed, and touched none after it |
| `StoreLaws.CommitNumbers` | csrc/storage_objects/object_store_core.cpp:578-591 | every key a call commits gets a sequence number of its own, above all used before the call |
| `StoreLaws.CommitsAreOrdered` | csrc/storage_objects/object_store_core.cpp:578-952 | in every run, crashes and restarts included, a key that a call commits is numbered above every key committed before |
| `StoreLaws.PinCounts` | csrc/storage_objects/object_store_core.cpp:664-670 | every listing of a key adds exactly one pin |
| `StoreLaws.UnpinCounts` | csrc/storage_objects/object_store_core.cpp:672-683 | every listing takes exactly one off, down to none |
| `StoreLaws.UnpinUndoesPin` | csrc/storage_objects/object_store_core.cpp:664-683 | unpinning a batch undoes pinning it and changes nothing else |
| `StoreLaws.PinProtects` | csrc/storage_objects/object_store_core.cpp:631-683 | a key survives every release until it has been unpinned as often as it was pinned |
| `StoreRecovery.CheckpointAlwaysFits` | csrc/storage_objects/object_store_core.cpp:821-853 | the image of any index that satisfies ownership fits its container |
| `StoreRecovery.PersistedDecodes` | csrc/storage_objects/object_store_core.cpp:807-853 | a checkpoint that landed reads back as the committed index it was written from |
| `StoreRecovery.PersistKeeps` | csrc/storage_objects/object_store_core.cpp:807-853 | a checkpoint write that lands, tears, is lost, or lands and reports failure keeps the invariant, with the newest complete checkpoint updated accordingly |
| `StoreRecovery.LoadAccepts` | csrc/storage_objects/object_store_core.cpp:901-948 | recovery adopts exactly the entries whose header matches, each under its own key and slot |
| `StoreRecovery.AdoptStates` | csrc/storage_objects/object_store_core.cpp:954-975 | after adoption recovered slots are committed, the gaps below them wait to be zeroed, the rest is untouched |
| `StoreRecovery.OpenKeeps` | csrc/storage_objects/object_store_core.cpp:71-219 | opening on truthful media establishes the invariant |
| `StoreLoad.LoadIsSound` | csrc/storage_objects/object_store_core.cpp:901-948 | for any list of entries, repeated keys and slots and foreign geometry included: index and owner map are inverse, all taken up comes from an entry that fits and that its header confirms, and such an entry is left out only when its key or slot is taken |
| `StoreLoad.FirstClaimWins` | csrc/storage_objects/object_store_core.cpp:909-915 | an entry that fits and is confirmed is taken up when no such entry before it claims its key or slot |
| `StoreLoad.OpenAnyMedia` | csrc/storage_objects/object_store_core.cpp:868-987 | whatever the media hold, opening gives no slot two owners, only keys their headers confirm, an allocator that counts exactly their slots as committed, and a counter at or above all their numbers |
| `StoreRestart.CleanRestartIsExact` | csrc/storage_objects/object_store_core.cpp:221-241 | in every run without a failed commit call, a successful close followed by open gives back exactly the committed keys with the same slots, generations and commit numbers |
| `StoreRestart.ExactAgainAfter` | csrc/storage_objects/object_store_core.cpp:855-866 | whatever happened before, one checkpoint that reaches the media, or one restart, makes every later close exact again until the next failing commit call |
| `StoreRestart.SyncStep` | csrc/storage_objects/object_store_core.cpp:599-660 | in every step a clean dirty flag keeps meaning that the newest checkpoint's matching entries are the committed index, on all slots but those a failed commit call has tried since that checkpoint or the last restart |
| `StoreRestart.TrackKeeps` | csrc/storage_objects/object_store_core.cpp:599-660 | so it does in every run, with those slots tracked |
| `StoreRestart.SyncedRecovery` | csrc/storage_objects/object_store_core.cpp:868-987 | when they are, recovery reproduces the committed part of the index |
| `StoreRestart.CloseIsExact` | csrc/storage_objects/object_store_core.cpp:221-241 | the same for one state: a close that wrote, or had nothing to write and was in step, is exact |
| `StoreRestart.AllocatorAgreesWithIndex` | csrc/storage_objects/object_store_core.cpp:562-662 | in every run without a failed commit call, allocator-committed is owned and committed, allocator-reserved is owned and uncommitted |
| `StoreLimits.ReopenKeepsOwnershipIff` | csrc/storage_objects/object_store_core.cpp:71-219 | reopening the same object keeps ownership if and only if its index was empty and everything recovered lies below the old ready limit |
| `StoreLimits.ReopenFreesLiveSlots` | csrc/storage_objects/object_store_core.cpp:71-219 | otherwise every key left in the index keeps a slot that is now free or queued for zeroing |
| `StoreWitness.LostSlotReached` | csrc/storage_objects/object_store_core.cpp:71-219 | on every new pool a run reaches a closed store whose reopening does that |
| `StoreLimits.RewriteIsSafeIff` | csrc/storage_objects/object_store_core.cpp:547-604 | starting to rewrite a payload under a reservation whose commit failed keeps recovery truthful if and only if no entry of the newest checkpoint matches the header on the slot; it never does before the first attempt |
| `StoreLimits.CloseIsExactIff` | csrc/storage_objects/object_store_core.cpp:221-241 | a successful close is exact if and only if there was something to write, or every committed key is in the newest checkpoint and no other entry of it matches |
| `StoreLimits.RestartIsExactIff` | csrc/storage_objects/object_store_core.cpp:221-241 | in every run, a successful close followed by open is exact if and only if there was something to write, or checkpoint and index agree on the slots that failed commit calls have tried since; no other slot matters |
| `StoreLimits.HalfCommitIsForgotten` | csrc/storage_objects/object_store_core.cpp:585-602 | on every new pool of two slots or more: one key of a failing batch is reported committed, close succeeds without writing, and open finds nothing; released instead, it leaves its slot an orphan |
| `StoreWitness.UnsafeRewriteReached` | csrc/storage_objects/object_store_core.cpp:562-604 | on every new pool and for every key a run reaches a failed commit whose landed header still satisfies the newest checkpoint; beginning to rewrite the payload then makes the next open offer the key without it |
| `StoreLimits.ReleaseOrphansIff` | csrc/storage_objects/object_store_core.cpp:631-662 | a released key's slot is given back if and only if the allocator was told of its commit |
| `StoreLimits.OrphanStays` | csrc/storage_objects/object_store_core.cpp:631-721 | an orphaned slot is not given back by any call but a restart |
| `StoreObject.ObjectStoreCore.Reserve` | csrc/storage_objects/object_store_core.cpp:484-545 | the loop refines the specification of reserve, grants, rejections and status included |
| `StoreObject.ObjectStoreCore.WriteHeader` | csrc/storage_objects/object_store_core.cpp:547-560 | the slot's header region holds the encoded header, or what the write outcome left |
| `StoreObject.ObjectStoreCore.Commit` | csrc/storage_objects/object_store_core.cpp:562-604 | refines commit: stops at the first failed header write with the allocator and the dirty flag as they were |
| `StoreObject.ObjectStoreCore.Abort` | csrc/storage_objects/object_store_core.cpp:606-625 | refines abort; media untouched |
| `StoreObject.ObjectStoreCore.Release` | csrc/storage_objects/object_store_core.cpp:631-662 | refines release; returns the number of keys dropped |
| `StoreObject.ObjectStoreCore.Pin` | csrc/storage_objects/object_store_core.cpp:664-670 | refines pin: one more pin per listed key |
| `StoreObject.ObjectStoreCore.Unpin` | csrc/storage_objects/object_store_core.cpp:672-683 | refines unpin: one less, the last removes the key |
| `StoreObject.ObjectStoreCore.DrainReclaim` | csrc/storage_objects/object_store_core.cpp:689-721 | refines draining, including failed zeroing; returns the number of slots freed |
| `StoreObject.ObjectStoreCore.CollectEntries` | csrc/storage_objects/object_store_core.cpp:807-820 | the committed part of the index, each key once |
| `StoreObject.ObjectStoreCore.ReadSequences` | csrc/storage_objects/object_store_core.cpp:786-805 | each container's sequence, 0 when it does not decode |
| `StoreObject.ObjectStoreCore.PersistCheckpoint` | csrc/storage_objects/object_store_core.cpp:807-853 | refines the checkpoint write for whatever order the index yields, with its status |
| `StoreObject.ObjectStoreCore.NextCheckpoint` | csrc/storage_objects/object_store_core.cpp:821-831 | the container to overwrite and a sequence above all others |
| `StoreObject.ObjectStoreCore.PersistEntries` | csrc/storage_objects/object_store_core.cpp:821-853 | refines the write of one container, with its status |
| `StoreObject.ObjectStoreCore.Checkpoint` | csrc/storage_objects/object_store_core.cpp:855-866 | the same, refused on a closed store |
| `StoreObject.ObjectStoreCore.Close` | csrc/storage_objects/object_store_core.cpp:221-241 | a dirty index is flushed first; the store closes even when that fails |
| `StoreObject.ObjectStoreCore.LoadCandidates` | csrc/storage_objects/object_store_core.cpp:896-948 | refines the recovery loop over checkpoint entries |
| `StoreObject.ObjectStoreCore.ClaimRecovered` | csrc/storage_objects/object_store_core.cpp:954-975 | refines the adoption of recovered slots and the retirement of gaps |
| `StoreObject.ObjectStoreCore.LoadCheckpoint` | csrc/storage_objects/object_store_core.cpp:868-987 | refines recovery on top of what the object already holds |
| `StoreObject.ObjectStoreCore.Open` | csrc/storage_objects/object_store_core.cpp:71-219 | opening twice changes nothing; opening a closed object reconfigures the allocator and recovers |
| `StoreObject.FirstOpening` | csrc/storage_objects/object_store_core.cpp:71-219 | on a new object that is opening a fresh store |
| `LittleEndian.Store` | csrc/storage_objects/object_header_codec.cpp:13-24 | the low bytes of the value, least significant first, and nothing else of the buffer |
| `LittleEndian.Load` | csrc/storage_objects/object_header_codec.cpp:26-39 | the value of the field at the offset |
| `LittleEndian.BytesThenValue` | csrc/storage_objects/object_header_codec.cpp:13-39 | loading a stored value in range gives it back |
| `LittleEndian.ValueThenBytes` | csrc/storage_objects/object_header_codec.cpp:13-39 | storing a loaded value gives the bytes back |
| `HeaderCodec.Encode` | csrc/storage_objects/object_header_codec.cpp:97-127 | refuses, leaving the buffer alone, exactly a short buffer, an empty key or an empty payload; otherwise the buffer starts with the header image and the rest is untouched |
| `HeaderCodec.ImageValidates` | csrc/storage_objects/object_header_codec.cpp:55-95 | an encoded header passes structural validation with exactly the encoded fields |
| `HeaderCodec.DecodeOfImage` | csrc/storage_objects/object_header_codec.cpp:129-164 | a header written for one key is accepted for an expectation if and only if fingerprint, payload size and compared generation agree, and then returns the encoded fields |
| `HeaderCodec.AcceptedIsAnEncoding` | csrc/storage_objects/object_header_codec.cpp:129-164 | arbitrary bytes that are accepted are, up to the unused padding, an encoding for the expected key |
| `HeaderCodec.ZeroedPrefixRejects` | csrc/storage_objects/object_header_codec.cpp:41-95 | any nonempty zeroed prefix makes a header unreadable |
| `CheckpointCodec.EncodeCheckpoint` | csrc/storage_objects/checkpoint_region.cpp:65-103 | the loop builds the container image: header, entry stream, zero padding to 4096 |
| `CheckpointCodec.AppendEntries` | csrc/storage_objects/checkpoint_region.cpp:65-90 | the appending loop builds the body the decoder is proved against |
| `CheckpointCodec.ReadOne` | csrc/storage_objects/checkpoint_region.cpp:165-191 | reads one entry without leaving the body, or refuses |
| `CheckpointCodec.ParseFrom` | csrc/storage_objects/checkpoint_region.cpp:165-191 | the loop over the entries equals the recursive parser |
| `CheckpointCodec.ParseEntries` | csrc/storage_objects/checkpoint_region.cpp:105-192 | the cursor loop equals the recursive parser on every body |
| `CheckpointCodec.CheckpointRoundTrip` | csrc/storage_objects/checkpoint_region.cpp:65-192 | decoding an encoded checkpoint returns its sequence and entries whatever bytes follow |
| `CheckpointCodec.ParsedIsPrefix` | csrc/storage_objects/checkpoint_region.cpp:165-191 | whatever is accepted starts with the encoding of what was read; unread bytes may follow |
| `CheckpointCodec.ImageFits` | csrc/storage_objects/checkpoint_region.cpp:194-200 | any index of admissible size encodes into one container |
| `CheckpointCodec.ScanForNext` | csrc/storage_objects/checkpoint_region.cpp:207-223 | the scan picks the first empty container, else the oldest |
| `CheckpointCodec.ScanForNewest` | csrc/storage_objects/checkpoint_region.cpp:225-240 | the scan picks the highest nonzero sequence, or reports none |
| `CheckpointCodec.NextContainer` | csrc/storage_objects/checkpoint_region.cpp:207-223 | the first empty container, else one with the least sequence |
| `CheckpointCodec.SelectContainer` | csrc/storage_objects/checkpoint_region.cpp:225-240 | none if and only if all are empty, else one with the greatest sequence |
| `CheckpointCodec.WriteSparesNewest` | csrc/storage_objects/checkpoint_region.cpp:207-240 | with two containers or more the one written is never the one read |
| `CheckpointCodec.AfterWrite` | csrc/storage_objects/checkpoint_region.cpp:207-240 | a completed write becomes the newest, a torn one leaves it where it was, and sequences stay distinct |
| `Placement.PlacementIsBijective` | csrc/storage_objects/slot_placement_policy.cpp:16-48 | slots and (mount, file, position) triples correspond one to one |
| `Placement.RegionsAreDisjoint` | csrc/storage_objects/slot_placement_policy.cpp:40-48 | a slot lies wholly inside its file, and two slots differ in mount, in file or in disjoint byte ranges |
| `Placement.SlotSplitsInTwo` | csrc/storage_objects/slot_placement_policy.cpp:40-48 | the header and the payload of a slot share no byte and together are exactly its bytes; no header or payload meets one of another slot in the file |
| `Placement.RanksApart` | csrc/storage_objects/slot_placement_policy.cpp:30-34 | two ranks never share a path, whatever their mounts and geometry |
| `Placement.SamePathIff` | csrc/storage_objects/slot_placement_policy.cpp:8-38 | two slots share a path if and only if they share the file number and their mounts join to the same directory |
| `Placement.SlotsApartIffMountsSeparate` | csrc/storage_objects/slot_placement_policy.cpp:8-48 | no two slots share a byte if and only if no two mounts join to the same directory |
| `Placement.DedupMounts` | csrc/storage_objects/object_store_core.cpp:264-271 | the mount list without repetitions: same members, each once, in the order in which they are first listed |
| `Placement.TrailingSlashAliases` | csrc/storage_objects/object_store_core.cpp:264-276 | the filter compares strings: one mount written with and without a trailing separator passes it and puts slots 0 and 1 on the same bytes |
| `Placement.GroupPaths` | csrc/storage_objects/object_store_core.cpp:310-320 | the files of a slot's group, one per mount |
| `Placement.GroupHoldsItsSlots` | csrc/storage_objects/object_store_core.cpp:310-320 | the path list of a slot's group holds that slot's own file |
| `SlotMedia.WriteIsSlotUpdate` | csrc/storage_objects/slot_placement_policy.cpp:30-48 | on separate mounts a write addressed to one slot changes that slot's bytes as asked and no other slot |
| `SlotMedia.RegionsAreTheSlot` | csrc/storage_objects/slot_placement_policy.cpp:40-48 | header and payload read separately are the slot read at once |
| `SlotMedia.PayloadWriteKeepsHeaders` | csrc/storage_objects/object_store_core.cpp:348-360 | a write at the granted offset changes that payload as asked, no header of any slot, and no other payload |
| `SlotMedia.HeaderWriteKeepsPayloads` | csrc/storage_objects/object_store_core.cpp:547-560 | a header write changes that header as asked, no payload of any slot, and no other header |
| `SlotMedia.WriteZeros` | csrc/storage_objects/slot_media.cpp:59-95 | whatever the kernel answers, exactly a prefix of the range is zeroed, as long as the calls report, all of it if and only if success is reported; it gives up only when a call is refused, the answers end or the rest is unaligned |
| `SlotMedia.ZeroingNeverLeavesAHeader` | csrc/storage_objects/slot_media.cpp:59-95 | after any outcome a slot is untouched or carries no readable header |
| `SlotMedia.VerifyExtents` | csrc/storage_objects/slot_media.cpp:168-209 | ends for every sequence of kernel answers; success means the accepted extents tile the file exactly, aligned and unflagged, in at most 124 contiguous runs; each refusal has its cause |
| `SpaceAllocator.SpaceAllocator.constructor` | csrc/storage_objects/space_allocator.cpp:19-39 | a new allocator has no slots and no ready limit |
| `SpaceAllocator.SpaceAllocator.Configure` | csrc/storage_objects/space_allocator.cpp:19-39 | everything is reset but the ready limit; refused without a whole slot |
| `SpaceAllocator.SpaceAllocator.SetReadyLimit` | csrc/storage_objects/space_allocator.cpp:51-57 | only the limit changes |
| `SpaceAllocator.SpaceAllocator.TakeFreeSlot` | csrc/storage_objects/space_allocator.cpp:59-67 | the oldest free slot, else the next unused one below the limit |
| `SpaceAllocator.SpaceAllocator.Reserve` | csrc/storage_objects/space_allocator.cpp:69-88 | refines repeated single reservations; issued and rejected add up to the request |
| `SpaceAllocator.SpaceAllocator.Commit` | csrc/storage_objects/space_allocator.cpp:90-99 | refines commit over duplicated and stale arguments |
| `SpaceAllocator.SpaceAllocator.Abort` | csrc/storage_objects/space_allocator.cpp:101-114 | refines retirement of reserved slots |
| `SpaceAllocator.SpaceAllocator.Release` | csrc/storage_objects/space_allocator.cpp:116-131 | refines retirement of committed slots and counts them |
| `SpaceAllocator.SpaceAllocator.TakeReclaimable` | csrc/storage_objects/space_allocator.cpp:133-145 | moves the head of the queue to the in-flight set |
| `SpaceAllocator.SpaceAllocator.FinishReclaim` | csrc/storage_objects/space_allocator.cpp:147-161 | frees exactly in-flight slots, with a new generation |
| `SpaceAllocator.SpaceAllocator.RequeueReclaim` | csrc/storage_objects/space_allocator.cpp:163-175 | puts exactly in-flight slots back |
| `SpaceAllocator.SpaceAllocator.Stats` | csrc/storage_objects/space_allocator.cpp:189-203 | the five counts are those of the lists and states and sum to the total |
| `SpaceAllocator.CommitAllStates` | csrc/storage_objects/space_allocator.cpp:90-99 | exactly the listed reserved slots become committed |
| `SpaceAllocator.RetireAllStates` | csrc/storage_objects/space_allocator.cpp:101-131 | exactly the listed slots in the required state become reclaiming |
| `SpaceAllocator.FinishAllStates` | csrc/storage_objects/space_allocator.cpp:147-161 | exactly the listed in-flight slots become free |
| `SpaceAllocator.CountsMatchLists` | csrc/storage_objects/space_allocator.cpp:189-203 | as many free slots below the mark as the free list holds, as many reclaiming as queued or in flight |
| `SpaceAllocator.Run` | csrc/storage_objects/space_allocator.cpp:59-203 | after any calls each slot is in exactly the place its state says |
| `SpaceAllocator.NeverIssuedTwice` | csrc/storage_objects/space_allocator.cpp:59-161 | no (slot, generation) pair is handed out twice between two configurations, whatever the calls |
| `AllocatorLaws.ReserveTakesOldest` | csrc/storage_objects/space_allocator.cpp:59-88 | a reservation hands out as many slots as are asked for and available, recycled ones first and longest free first, then unused ones in ascending order below the ready limit, each under its current generation, and takes nothing else |
| `AllocatorLaws.RetireQueues` | csrc/storage_objects/space_allocator.cpp:101-131 | retired slots queue behind those already waiting, in the order given |
| `Precreate.AdoptIsExact` | csrc/storage_objects/object_store_core.cpp:331-346 | exactly the leading run of complete groups is published |
| `Precreate.AdoptExistingGroups` | csrc/storage_objects/object_store_core.cpp:331-346 | the nested loops compute that count |
| `Precreate.OpenKeeps` | csrc/storage_objects/object_store_core.cpp:167-183 | open keeps the precreation invariant, only raises the count, and its own first group meets no concurrent build |
| `Precreate.StepKeeps` | csrc/storage_objects/object_store_core.cpp:733-776 | each precreate step, file build, failure, allocator call, close and reopen keeps it |
| `Precreate.PublishedIsReady` | csrc/storage_objects/object_store_core.cpp:733-776 | in every interleaving the published count is a whole number of groups or the total, every slot below it has a complete file, and no two steps build at once |
| `PrecreateRuns.ReopenOvertakesIff` | csrc/storage_objects/object_store_core.cpp:331-346 | opening a closed store publishes beyond the group being built if and only if that group and the next are both on media |
| `PrecreateRuns.PublishAfterReopenShrinksIff` | csrc/storage_objects/object_store_core.cpp:766-773 | a build that has all its files and publishes after such a reopening lowers the count if and only if the next group was already on media |
| `PrecreateRuns.CountShrinksExactlyWhen` | csrc/storage_objects/object_store_core.cpp:733-776 | in every run, publishing a build lowers the count if and only if the store was reopened while it ran with its group and the next both on media |
| `PrecreateRuns.CountCanShrink` | csrc/storage_objects/object_store_core.cpp:733-776 | on every site of more than two groups a run from a new object reaches that |
| `PrecreateRuns.CountOnlyGrows` | csrc/storage_objects/object_store_core.cpp:733-776 | if reopening waits for running builds the count never goes back, whatever is recovered |
| `Precreate.UndisturbedGrows` | csrc/storage_objects/object_store_core.cpp:733-776 | without a reopening during a build the count only grows |
| `Precreate.OnlyReadySlotsIssuedIff` | csrc/storage_objects/space_allocator.cpp:51-67 | no slot at or above the published count is ever issued if and only if recovery found none there |
| `Precreate.FrontierNeverPasses` | csrc/storage_objects/space_allocator.cpp:51-67 | if moreover nothing is recovered at or above it, no allocator call issues a slot at or above the count |
| `PrecreateProgress.StepPublishesOneGroup` | csrc/storage_objects/object_store_core.cpp:733-776 | one undisturbed step below its target publishes exactly the next group |
| `PrecreateProgress.HeadroomIsReached` | csrc/storage_objects/object_store_core.cpp:733-776 | from any state with an open store and nothing being built, steps lead to where every slot up to the frontier plus the headroom has its file and may be handed out |
| `AsyncRuns.StepKeeps` | csrc/data_paths/striped_local_nvme/striped_async_data_path.cpp:63-546 | every host and device step keeps the completion invariant, given a recorded submit event or a successful fallback |
| `AsyncRuns.RunKeeps` | csrc/data_paths/striped_local_nvme/striped_async_data_path.cpp:63-546 | so does every interleaving |
| `AsyncRuns.TerminalIsRetired` | csrc/data_paths/striped_local_nvme/striped_async_data_path.cpp:432-522 | in every interleaving an operation is terminal only after its submit kernel exited, its own batch was reported finished, and every wait kernel launched for it retired |
| `AsyncRuns.FencesAreUnique` | csrc/data_paths/striped_local_nvme/striped_async_data_path.cpp:354-408 | an operation has at most one fence per stream, whatever is enqueued or retried |
| `AsyncRuns.BatchIdsAreUnique` | csrc/data_paths/striped_local_nvme/striped_async_data_path.cpp:305-314 | batch ids are never zero, never reused, and run out exactly after 32 bits |
| `AsyncRuns.FreeSlotsAreQuiet` | csrc/data_paths/striped_local_nvme/striped_async_data_path.cpp:529-546 | a slot back in the arena is not one a running batch will write to |
| `AsyncRuns.ShutdownIsSafe` | csrc/data_paths/striped_local_nvme/striped_async_data_path.cpp:223-255 | once the tables are freed no batch runs, every wait kernel is gone, every operation has ended |
| `AsyncRuns.EnqueueWaitCovers` | csrc/data_paths/striped_local_nvme/striped_async_data_path.cpp:354-426 | a successful call leaves every operation asked about and still in flight with a fence on the stream |
| `AsyncRuns.NeverEarlyIff` | csrc/data_paths/striped_local_nvme/striped_async_data_path.cpp:337-348 | a launched operation can never be published before its submit kernel exits if and only if its event was recorded or the stream synchronised |
| `AsyncRuns.EarlyEndReached` | csrc/data_paths/striped_local_nvme/striped_async_data_path.cpp:337-348 | if neither worked, the slot's stale event answers and an early end is reachable |
| `AsyncRuns.WaitKernelsFit` | csrc/data_paths/striped_local_nvme/striped_async_data_path.cpp:354-408 | in every interleaving no wait kernel is launched empty or with more than sixteen operations |
| `AsyncLiveness.DeviceGoesOnward` | csrc/data_paths/striped_local_nvme/striped_async_data_path.cpp:445-480 | nothing the device does by itself takes back a retired kernel or a finished batch that a poll could see |
| `AsyncLiveness.RipeStays` | csrc/data_paths/striped_local_nvme/striped_async_data_path.cpp:445-480 | an operation ripe for publication stays ripe while others are polled and the device runs |
| `AsyncDataPath.StripedAsyncDataPath.constructor` | csrc/data_paths/striped_local_nvme/striped_async_data_path.cpp:109-195 | fresh tables are where runs start, so all that is proved of runs holds of the object |
| `AsyncDataPath.StripedAsyncDataPath.AttachFence` | csrc/data_paths/striped_local_nvme/striped_async_data_path.cpp:376-379 | the fence is attached to every listed operation's slot |
| `AsyncDataPath.StripedAsyncDataPath.Flush` | csrc/data_paths/striped_local_nvme/striped_async_data_path.cpp:357-382 | refines one wait kernel: a launched kernel keeps its fence even when recording failed |
| `AsyncDataPath.StripedAsyncDataPath.HasFence` | csrc/data_paths/striped_local_nvme/striped_async_data_path.cpp:386-388 | whether the slot already has a fence on the stream |
| `AsyncDataPath.StripedAsyncDataPath.AlreadyListed` | csrc/data_paths/striped_local_nvme/striped_async_data_path.cpp:389-391 | whether the slot is already in the list being built |
| `AsyncDataPath.StripedAsyncDataPath.EnqueueWaitLocked` | csrc/data_paths/striped_local_nvme/striped_async_data_path.cpp:354-408 | refines the enqueueing loop, sixteen operations to a kernel, stopping at the first failure |
| `AsyncDataPath.StripedAsyncDataPath.AskSubmit` | csrc/data_paths/striped_local_nvme/striped_async_data_path.cpp:451-464 | a step of the machine: the submit kernel is seen gone exactly when its event is complete or it was synchronised, unless the query fails |
| `AsyncDataPath.StripedAsyncDataPath.NoteDeadline` | csrc/data_paths/striped_local_nvme/striped_async_data_path.cpp:465-468 | a missed deadline stops new work and nothing else |
| `AsyncDataPath.StripedAsyncDataPath.AskFinished` | csrc/data_paths/striped_local_nvme/striped_async_data_path.cpp:469-469 | a step: finished exactly when the mirrored batch id is the slot's own |
| `AsyncDataPath.StripedAsyncDataPath.RecordAgain` | csrc/data_paths/striped_local_nvme/striped_async_data_path.cpp:65-77 | a step: a missing fence event is recorded anew, never taken for finished |
| `AsyncDataPath.StripedAsyncDataPath.QueryFence` | csrc/data_paths/striped_local_nvme/striped_async_data_path.cpp:78-80 | a step: without an error, retired exactly when the event behind the fence is complete |
| `AsyncDataPath.StripedAsyncDataPath.WaitFencesFinished` | csrc/data_paths/striped_local_nvme/striped_async_data_path.cpp:63-83 | a run of steps; retired only after every fence of the slot was, and without an error always when all were at the start |
| `AsyncDataPath.StripedAsyncDataPath.Publish` | csrc/data_paths/striped_local_nvme/striped_async_data_path.cpp:480-488 | only this operation leaves flight |
| `AsyncDataPath.StripedAsyncDataPath.DrainUnwaited` | csrc/data_paths/striped_local_nvme/striped_async_data_path.cpp:501-512 | a step: on success every listed operation still in flight has a wait on the fallback stream |
| `AsyncDataPath.StripedAsyncDataPath.PollOne` | csrc/data_paths/striped_local_nvme/striped_async_data_path.cpp:445-500 | a run of steps; the operation leaves flight exactly when reported terminal; without an error a ripe one does, and one nobody waits for does or is found so |
| `AsyncDataPath.StripedAsyncDataPath.SeeFinished` | csrc/data_paths/striped_local_nvme/striped_async_data_path.cpp:451-469 | the first half of a poll: without an error a ripe operation is seen finished |
| `AsyncDataPath.StripedAsyncDataPath.PollPass` | csrc/data_paths/striped_local_nvme/striped_async_data_path.cpp:445-500 | the polling loop: without an error, and while time lasts, every entry the work budget reaches gets what it was owed when the pass began |
| `AsyncDataPath.StripedAsyncDataPath.Progress` | csrc/data_paths/striped_local_nvme/striped_async_data_path.cpp:432-522 | a run of steps in which operations only end, `terminal` counts those that did, and no more work means none is in flight; without an error, and while time lasts, every operation ripe at the start that the work budget reaches has ended and is counted, and every unattended overdue one has ended or is waited for on the fallback stream |
| `AsyncDataPath.StripedAsyncDataPath.LaunchIoKernel` | csrc/data_paths/striped_local_nvme/striped_async_data_path.cpp:295-335 | refines the launch: batch id taken and slot reset before it can fail, an empty batch finished at once |
| `AsyncDataPath.StripedAsyncDataPath.RecordSubmit` | csrc/data_paths/striped_local_nvme/striped_async_data_path.cpp:337-348 | refines what follows the launch: event, fallback, or device failure |
| `AsyncDataPath.StripedAsyncDataPath.Submit` | csrc/data_paths/striped_local_nvme/striped_async_data_path.cpp:257-272 | accepted if and only if nothing is stopping or failed, the slot is free, an id is left and the launch works; an accepted operation is new and in flight; without event and fallback the device is marked failed |
| `AsyncDataPath.StripedAsyncDataPath.ReleaseRetired` | csrc/data_paths/striped_local_nvme/striped_async_data_path.cpp:529-546 | refuses unknown and running operations, keeps everything while a fence is unanswered, and otherwise removes the operation and returns or leaks its slot; without an error it does so when every fence is seen retired |
| `AsyncDataPath.StripedAsyncDataPath.RefuseNew` | csrc/data_paths/striped_local_nvme/striped_async_data_path.cpp:227-227 | new work is refused, nothing else changes |
| `AsyncDataPath.StripedAsyncDataPath.StopAndWait` | csrc/data_paths/striped_local_nvme/striped_async_data_path.cpp:227-236 | new work is refused and everything in flight gets a wait |
| `AsyncDataPath.StripedAsyncDataPath.Shutdown` | csrc/data_paths/striped_local_nvme/striped_async_data_path.cpp:223-255 | drained if and only if the tables are freed, and then the device is done with them; any other end keeps them; a timeout means something is in flight, and with nothing in flight it drains at once |
| `AsyncDataPath.StripedAsyncDataPath.FreeTables` | csrc/data_paths/striped_local_nvme/striped_async_data_path.cpp:250-254 | with nothing in flight the tables go, and the device is done |
| `ChunkKeys.HashKeys` | tutti/index/chunk_index.py:242-264 | the loop yields the chain of keys of the whole chunks, and its last key |
| `ChunkKeys.FoldInParts` | tutti/index/chunk_index.py:242-264 | folding in two parts at a chunk boundary with the carried parent is folding at once |
| `ChunkKeys.KeyIdentifiesPrefix` | tutti/index/chunk_index.py:52-64 | equal keys mean equal namespaces and equal prefixes, unless the two chains themselves collide |
| `ChunkKeys.EncodeInjective` | tutti/index/chunk_index.py:52-64 | token lists of one length have one encoding each |
| `ChunkKeys.IoKeyRoundTrip` | tutti/index/chunk_index.py:66-95 | decoding a derived key returns chunk and layer; deriving from a decoded key returns it exactly for 18-byte keys |
| `ChunkKeys.DeriveIoKey` | tutti/index/chunk_index.py:83-95 | refuses exactly wrong chunk lengths and layers out of range |
| `ChunkKeys.DecodeIoKey` | tutti/index/chunk_index.py:66-81 | refuses exactly the empty key |
| `SemanticIndex.PlanFits` | tutti/index/chunk_index.py:273-303 | after an accepted plan resident plus pending is within capacity, from any state; exactly full when eviction was needed |
| `SemanticIndex.OldestGoFirst` | tutti/index/chunk_index.py:284-296 | whatever is evicted is older than every eligible key that stays |
| `SemanticIndex.LookupKeepsResidency` | tutti/index/chunk_index.py:224-240 | a lookup changes no residency, keeps the order of what it did not hit, and makes distinct hits the youngest in chain order |
| `IndexRuns.RunsAreValid` | tutti/index/chunk_index.py:200-386 | in every run resident keys are distinct, disjoint from pending ones, and pinned keys are resident |
| `IndexRuns.PinnedStaysResident` | tutti/index/chunk_index.py:322-386 | a pinned key stays resident through every run that does not unpin it |
| `IndexRuns.CapacityHolds` | tutti/index/chunk_index.py:273-318 | without restores, and confirming only pending or resident keys, the capacity bound holds throughout |
| `IndexRuns.ExceedsIff` | tutti/index/chunk_index.py:305-369 | a full index is exceeded exactly by confirming or restoring a key neither pending nor resident |
| `IndexLaws.PlanReserves` | tutti/index/chunk_index.py:283-303 | an accepted plan reserves exactly the batch keys that are not resident, at the current epoch, evicts exactly as many as are missing, and no batch key and no pinned one |
| `IndexLaws.RefusedOnlyWhenImpossible` | tutti/index/chunk_index.py:283-298 | a batch with nothing in flight is refused only when no choice of evictions would make it fit |
| `IndexLaws.ConfirmOrder` | tutti/index/chunk_index.py:305-318 | success makes the keys the youngest in the order given, failure makes none resident, and neither leaves them in flight |
| `IndexLaws.RestoreOrder` | tutti/index/chunk_index.py:359-369 | a restore appends exactly what was missing, in order of first listing, and moves nothing |
| `IndexLaws.CountUpExact` | tutti/index/chunk_index.py:322-332 | every listing of a key adds exactly one pin |
| `IndexLaws.CountDownExact` | tutti/index/chunk_index.py:334-344 | an unpin succeeds if and only if every key is pinned as often as listed, and then takes off exactly that many |
| `IndexLaws.UnpinUndoesPin` | tutti/index/chunk_index.py:322-344 | unpinning what was pinned restores the index |
| `IndexLaws.ReservationAge` | tutti/index/chunk_index.py:195-220 | in every run that does not settle or plan it again, a reservation is still there if and only if no reclaim came at least its age limit of epochs after it |
| `IndexObject.ChunkIndex.constructor` | tutti/index/chunk_index.py:136-160 | a new index is empty and valid |
| `IndexObject.ChunkIndex.Decide` | tutti/index/chunk_index.py:273-296 | none if and only if a batch key is pending or too few unpinned non-batch residents exist; else the new keys and precisely the oldest eligible ones needed |
| `IndexObject.ChunkIndex.PlanStore` | tutti/index/chunk_index.py:273-303 | a refusal changes nothing; a plan evicts and reserves exactly what it says |
| `IndexObject.ChunkIndex.ConfirmStore` | tutti/index/chunk_index.py:305-318 | refines confirmation: success makes resident and youngest, failure only drops the reservation |
| `IndexObject.ChunkIndex.Pin` | tutti/index/chunk_index.py:322-332 | all keys or none; refused exactly when one is not resident |
| `IndexObject.ChunkIndex.Unpin` | tutti/index/chunk_index.py:334-344 | refines counting down, stopping at the first key without a pin |
| `IndexObject.ChunkIndex.MarkRecent` | tutti/index/chunk_index.py:348-355 | refines refreshing the resident ones |
| `IndexObject.ChunkIndex.Restore` | tutti/index/chunk_index.py:359-369 | refines restoring: residents keep their age, reservations are dropped |
| `IndexObject.ChunkIndex.Forget` | tutti/index/chunk_index.py:371-386 | exactly unpinned keys go; returns the pinned ones kept |
| `IndexObject.ChunkIndex.ReclaimStalePending` | tutti/index/chunk_index.py:200-220 | exactly the reservations older than the age go |
| `IndexObject.ChunkIndex.LookupPrefix` | tutti/index/chunk_index.py:224-240 | the rolling search returns chunk size times the longest all-resident prefix of the chain, and refreshes it |
| `SchedulerMetadata.PlannedIsPending` | tutti/engine/metadata.py:84-147 | in every run the planned keys are the pending ones and every stored count is below the number of ranks |
| `SchedulerMetadata.CountIsTally` | tutti/engine/metadata.py:178-211 | the stored count is the tally of reports since the last failure, forgetting, reclaim or publication |
| `SchedulerMetadata.PublishedExactlyWhen` | tutti/engine/metadata.py:178-211 | after a report a key is resident if and only if that tally with it reaches the number of ranks, or it was resident and is not forgotten or is pinned |
| `SchedulerMetadata.CommitsCount` | tutti/engine/metadata.py:178-211 | one call: the new count of every key, and exactly which become resident |
| `SchedulerMetadata.SyncKeeps` | tutti/engine/metadata.py:213-236 | a sync settles every reservation and keeps the counts |
| `SchedulerSync.SyncEffect` | tutti/engine/metadata.py:213-236 | afterwards a key is resident if and only if it is complete on media, or was resident and has not vanished or is pinned; exactly the pinned vanished keys are owed to the next sync; the survivors keep their relative age |
| `SchedulerSync.SyncOrder` | tutti/engine/metadata.py:230-235 | the survivors in their old order, then the reservations found complete, then the other complete keys in scan order |
| `SchedulerSync.SyncForgets` | tutti/engine/metadata.py:233-236 | in every run a key complete at the previous sync and gone at this one, or owed from before, stops being resident unless pinned; complete keys are resident |
| `SchedulerSync.FailFrees` | tutti/engine/metadata.py:194-198 | a failure report frees exactly the reservations it names and no residency |
| `SchedulerSync.GivenBackAfter` | tutti/engine/metadata.py:101-128 | a reservation nobody settles is given back by exactly the step of its age limit, with the ranks counted for its key; without a limit never |
| `SchedulerObject.SchedulerMetadataIndex.constructor` | tutti/engine/metadata.py:16-55 | the index is rebuilt once from what is on media |
| `SchedulerObject.SchedulerMetadataIndex.PlanStore` | tutti/engine/metadata.py:84-94 | refines planning, with the new reservations remembered |
| `SchedulerObject.SchedulerMetadataIndex.ConfirmStore` | tutti/engine/metadata.py:96-99 | refines confirmation |
| `SchedulerObject.SchedulerMetadataIndex.BeginStep` | tutti/engine/metadata.py:101-128 | stale reservations, their planning and their counts go together |
| `SchedulerObject.SchedulerMetadataIndex.ForgetBatch` | tutti/engine/metadata.py:130-147 | forgotten keys lose counts and, unless pinned, residency |
| `SchedulerObject.SchedulerMetadataIndex.FailBatch` | tutti/engine/metadata.py:194-198 | failed keys lose reservation and counts |
| `SchedulerObject.SchedulerMetadataIndex.ApplyWorkerCommits` | tutti/engine/metadata.py:178-211 | refines: forgotten, then failed, then counts, then publication of what is complete |
| `SchedulerObject.SchedulerMetadataIndex.SyncFromStore` | tutti/engine/metadata.py:213-236 | refines the sync for whatever order the sets yield: settled are exactly the reservations, vanished exactly the keys of the last sync not complete any more and those owed |
| `SchedulerObject.SchedulerMetadataIndex.SettleReservations` | tutti/engine/metadata.py:213-236 | every reservation is confirmed or dropped by what is on media |
| `ReadPlan.StepKeeps` | tutti/engine/core.py:431-763 | every step of feeder, compute callback, failure report and abort keeps the plan invariant |
| `ReadPlan.LayersInOrder` | tutti/engine/core.py:431-496 | in every interleaving layers are submitted once each in ascending order, first waits are 0, 1, 2, ..., each with its own layer's event after its submission |
| `ReadPlan.NoStrandedWaiter` | tutti/engine/core.py:447-496 | once the feeder is done every layer has an event or failure or stop is visible; once owed notifications are given nobody sleeps; a waiter that looks does not sleep again |
| `ReadOutcomes.LookOutcome` | tutti/engine/core.py:460-488 | in every run a look hands over the event of a layer that is out, whatever the deadline, failure and stop; otherwise it ends with the recorded failure, or records stop or deadline, or sleeps |
| `ReadOutcomes.FinishOutcome` | tutti/engine/core.py:431-445 | in every run the next layer in order is logged as waited for, an earlier one changes nothing, any other is an error |
| `ReadOutcomes.EveryWaitSucceeds` | tutti/engine/core.py:431-539 | once the feeder is done without failure or stop, waiting for the remaining layers in order succeeds for every one, even past its deadline, and completes the plan |
| `ReadOutcomes.CompleteMeans` | tutti/engine/core.py:525-539 | in every run the final check passes if and only if all layers were waited for in order, and then each was submitted exactly once |
| `ReadOutcomes.StopAndFailureAreFinal` | tutti/engine/core.py:541-621 | after a stop no layer is submitted, after a failure at most the one already entered; neither is withdrawn |
| `ReadOutcomes.FailuresAreRecorded` | tutti/engine/core.py:541-584 | a failed submission, hook, completion or bad callback is on record at once; an abort sets the stop |
| `ReadPlan.FeederFinishes` | tutti/engine/core.py:611-641 | in every interleaving the feeder takes at most twelve steps per layer and can always take one until done |
| `ReadPlan.AbortCoversSubmitted` | tutti/engine/core.py:748-763 | abort reaches every submitted layer if and only if none came back without an event; then exactly the last one is missed |
| `ReadPlan.LayerWithoutEventIsMissed` | tutti/engine/core.py:573-584 | such a run exists for every plan of two layers or more |
| `RingWindow.Configure` | tutti/engine/staging.py:27-68 | what the constructor accepts has a wave that fits the window and a window that fits the buffer; without a capacity, two halves |
| `RingWindow.ConfigureExactly` | tutti/engine/staging.py:27-68 | exactly the valid geometries are accepted |
| `RingWindow.SlotOffset` | tutti/engine/staging.py:75-82 | exactly the window's slots have an offset, and their bytes lie in the buffer |
| `RingWindow.OffsetsDisjoint` | tutti/engine/staging.py:75-82 | different slots share no byte |
| `RingRotation.SlotsGoRound` | tutti/engine/staging.py:95-100 | in every run the slots handed out, counted from the first wave, are the slots of the window in order, over and over |
| `RingRotation.MetOnlyAfterARound` | tutti/engine/staging.py:95-100 | two waves share no slot while the slots taken from the first to the end of the second fit the window |
| `RingRotation.WavesAreCounted` | tutti/engine/staging.py:88-94 | wave numbers count the acquisitions, and with two halves the waves use them in turn |
| `RingRotation.AcquireEffect` | tutti/engine/staging.py:101-110 | a wave that is granted is live on its slots; waves it does not meet keep slots and events, waves it meets are gone; a wait that raises adds no wave |
| `RingWindow.AcquireKeeps` | tutti/engine/staging.py:84-110 | acquiring, with or without a raising wait, keeps live waves disjoint |
| `RingWindow.LiveWavesAreDisjoint` | tutti/engine/staging.py:84-136 | after any calls live waves hold disjoint slots of the window; with two halves and no raising wait they are among the last two |
| `RingWindow.HalvesCollide` | tutti/engine/staging.py:90-108 | in two-half mode a new wave meets exactly the wave before last, if live |
| `RingWindow.NoSilentDrop` | tutti/engine/staging.py:102-108 | an event leaves the table only in a call that waits for it |
| `RingWindow.OverwrittenWasWaitedFor` | tutti/engine/staging.py:102-136 | a wave that had an event registered and is no longer live was waited for |
| `RingWindow.LosesEventIff` | tutti/engine/staging.py:102-108 | in one call a wave stays live and loses its event if and only if the wait for it raised |
| `RingWindow.UnguardedIff` | tutti/engine/staging.py:102-118 | over runs, a live wave that once had an event is without one if and only if its own wait raised and nothing was registered since |
| `RingWindow.RaisingWaitIsNotRepeated` | tutti/engine/staging.py:105-108 | the next acquisition that overwrites such a wave does not wait for it |
| `RingWindow.OverwrittenWithoutWait` | tutti/engine/staging.py:84-118 | a run in every window of two halves in which that happens |
| `RingWindow.Window.constructor` | tutti/engine/staging.py:63-68 | a new window has no live wave |
| `RingWindow.Window.AcquireSlots` | tutti/engine/staging.py:84-110 | refines acquiring: slots, waits made and what a raising wait leaves |
| `RingWindow.Window.Evict` | tutti/engine/staging.py:101-108 | refines the loop over old waves, oldest first |
| `RingWindow.Window.CompleteWave` | tutti/engine/staging.py:112-118 | registers exactly for a live wave |
| `RingWindow.Window.DrainAll` | tutti/engine/staging.py:120-136 | every event is waited for whatever the others did, then nothing is live |

## Left out

- StoreObject.ObjectStoreCore.Open: models allocator configuration, recovery and the ready limit, for a capacity that fits the configured total; directory creation, locks, read-only mode and the error returns of the file layer are not modelled.
- AsyncDataPath.StripedAsyncDataPath.Submit: when neither the submit event is recorded nor the fallback synchronisation works, the object's later calls are not claimed to be runs of the machine; `AsyncRuns.NeverEarlyIff` says what happens then.
- StoreRuns.RunKeeps: reopening the same object is not a step of these runs, because it breaks ownership; `StoreLimits.ReopenKeepsOwnershipIff` states when it does not.
- StoreRuns.CrashSafety: speaks of fingerprints, as the header does; `StoreRuns.CrashSafetyExact` speaks of keys, for digests that tell the used keys apart.
- RingWindow.OverwrittenWasWaitedFor: holds for acquisitions that wait for reuse; the others hand out slots without waiting, as asked.
- ReadPlan.LayersInOrder: one compute thread; `waited_callbacks` is checked and extended without a lock, so concurrent waits of one plan are not modelled. Which of two racing failures is kept, and what the failure callback does, are not modelled either.
- Generations across restarts: the index keeps the checkpoint's generation while a fresh allocator starts at zero, so no agreement is claimed between the two.
- The residency bitmap, queries across ranks, lookups, usage figures and `peek_object_header`.
- Transient read errors during recovery, and media that change between opens.
- POSIX, FIEMAP, mmap, flock, CUDA and libnvm internals: their answers are arguments. Kernels are steps of the device; the base data path's release is the return or leak of the slot.
- Request fan-out, address mapping, PRP pages, completion details and status texts of the data path; an operation is in flight or ended, not failed or successful.
- Clocks: deadlines, grace periods and time budgets are arguments that say whether they have passed; telemetry and logging are left out.
- Worker eviction reports and statistics of the scheduler index, argument type checks and the closed state of the Python objects.
- Staged transfers, configuration parsing, factories, presets and the Python store wrappers: plumbing that would only add easy members.
