// Byte-level media: segment files as byte strings, slot-confined writes,
// ascending zeroing, and the extent check of a materialised file.
module SlotMedia {
  import opened Common
  import opened Placement
  import LE = LittleEndian
  import HC = HeaderCodec

  // ---- files and slots ----

  type Disk = map<string, seq<byte>>

  // The slot's segment file is there, at full size.
  ghost predicate Laid(g: Geometry, disk: Disk, slot: nat)
    requires g.Valid()
  {
    g.Path(slot) in disk && |disk[g.Path(slot)]| == g.FileBytes()
  }

  function Splice(s: seq<byte>, off: nat, data: seq<byte>): (r: seq<byte>)
    requires off + |data| <= |s|
    ensures |r| == |s|
  {
    s[..off] + data + s[off + |data|..]
  }

  ghost function Range(disk: Disk, path: string, off: nat, size: nat): seq<byte> {
    if path in disk && off + size <= |disk[path]| then disk[path][off..off + size] else []
  }

  // A write inside an existing file.
  function WriteAt(disk: Disk, path: string, off: nat, data: seq<byte>): (r: Disk) {
    if path in disk && off + |data| <= |disk[path]| then disk[path := Splice(disk[path], off, data)] else disk
  }

  ghost function SlotBytes(g: Geometry, disk: Disk, slot: nat): seq<byte>
    requires g.Valid()
  {
    Range(disk, g.Path(slot), g.HeaderOffset(slot), g.slotBytes)
  }

  // A write addressed through the placement of one slot changes that slot and
  // no other: the per-slot view of media used by the store is exact.
  lemma WriteIsSlotUpdate(g: Geometry, disk: Disk, slot: nat, rel: nat, data: seq<byte>, other: nat)
    requires g.Valid() && MountsSeparate(g) && Laid(g, disk, slot)
    requires rel + |data| <= g.slotBytes && other != slot
    ensures var after := WriteAt(disk, g.Path(slot), g.HeaderOffset(slot) + rel, data);
            && Laid(g, after, slot)
            && |SlotBytes(g, disk, slot)| == g.slotBytes
            && SlotBytes(g, after, slot) == Splice(SlotBytes(g, disk, slot), rel, data)
            && SlotBytes(g, after, other) == SlotBytes(g, disk, other)
  {
    hide Geometry.Path, Geometry.HeaderOffset, Geometry.FileBytes;
    RegionsAreDisjoint(g, slot, other);
    SamePathIff(g, slot, other);
    var file := disk[g.Path(slot)];
    SpliceInside(file, g.HeaderOffset(slot), g.slotBytes, rel, data);
    if g.Path(other) == g.Path(slot) {
      assert g.Device(other) == g.Device(slot);
      RegionsAreDisjoint(g, other, slot);
      SpliceOutside(file, g.HeaderOffset(slot) + rel, data, g.HeaderOffset(other), g.slotBytes);
    }
  }

  lemma SpliceInside(s: seq<byte>, lo: nat, size: nat, rel: nat, data: seq<byte>)
    requires lo + size <= |s| && rel + |data| <= size
    ensures Splice(s, lo + rel, data)[lo..lo + size] == Splice(s[lo..lo + size], rel, data)
  {
  }

  lemma SpliceOutside(s: seq<byte>, at: nat, data: seq<byte>, lo: nat, size: nat)
    requires at + |data| <= |s| && lo + size <= |s|
    requires lo + size <= at || at + |data| <= lo
    ensures Splice(s, at, data)[lo..lo + size] == s[lo..lo + size]
  {
  }

  ghost function HeaderRegion(g: Geometry, disk: Disk, slot: nat): seq<byte>
    requires g.Valid()
  {
    Range(disk, g.Path(slot), g.HeaderOffset(slot), g.headerBytes)
  }

  ghost function PayloadRegion(g: Geometry, disk: Disk, slot: nat): seq<byte>
    requires g.Valid()
  {
    Range(disk, g.Path(slot), g.PayloadOffset(slot), g.PayloadBytes())
  }

  // The two regions of a slot read separately are the slot read at once.
  lemma RegionsAreTheSlot(g: Geometry, disk: Disk, slot: nat)
    requires g.Valid() && Laid(g, disk, slot)
    ensures |HeaderRegion(g, disk, slot)| == g.headerBytes && |PayloadRegion(g, disk, slot)| == g.PayloadBytes()
    ensures SlotBytes(g, disk, slot) == HeaderRegion(g, disk, slot) + PayloadRegion(g, disk, slot)
  {
    hide Geometry.Path, Geometry.HeaderOffset, Geometry.FileBytes;
    RegionsAreDisjoint(g, slot, slot + 1);
  }

  // A write to a granted payload changes that payload as asked, no header of
  // any slot, and no other payload.
  lemma PayloadWriteKeepsHeaders(g: Geometry, disk: Disk, slot: nat, rel: nat, data: seq<byte>, other: nat)
    requires g.Valid() && MountsSeparate(g) && Laid(g, disk, slot)
    requires rel + |data| <= g.PayloadBytes()
    ensures var after := WriteAt(disk, g.Path(slot), g.PayloadOffset(slot) + rel, data);
            && HeaderRegion(g, after, other) == HeaderRegion(g, disk, other)
            && (other != slot ==> PayloadRegion(g, after, other) == PayloadRegion(g, disk, other))
            && |PayloadRegion(g, disk, slot)| == g.PayloadBytes()
            && PayloadRegion(g, after, slot) == Splice(PayloadRegion(g, disk, slot), rel, data)
  {
    hide Geometry.Path, Geometry.HeaderOffset, Geometry.FileBytes;
    RegionsAreTheSlot(g, disk, slot);
    var file := disk[g.Path(slot)];
    var at := g.PayloadOffset(slot) + rel;
    SpliceInside(file, g.PayloadOffset(slot), g.PayloadBytes(), rel, data);
    OtherRangeKept(g, disk, slot, at, data, other);
    SpliceOutside(file, at, data, g.HeaderOffset(slot), g.headerBytes);
  }

  // A header write changes that header as asked, no payload of any slot, and
  // no other header.
  lemma HeaderWriteKeepsPayloads(g: Geometry, disk: Disk, slot: nat, rel: nat, data: seq<byte>, other: nat)
    requires g.Valid() && MountsSeparate(g) && Laid(g, disk, slot)
    requires rel + |data| <= g.headerBytes
    ensures var after := WriteAt(disk, g.Path(slot), g.HeaderOffset(slot) + rel, data);
            && PayloadRegion(g, after, other) == PayloadRegion(g, disk, other)
            && (other != slot ==> HeaderRegion(g, after, other) == HeaderRegion(g, disk, other))
            && |HeaderRegion(g, disk, slot)| == g.headerBytes
            && HeaderRegion(g, after, slot) == Splice(HeaderRegion(g, disk, slot), rel, data)
  {
    hide Geometry.Path, Geometry.HeaderOffset, Geometry.FileBytes;
    RegionsAreTheSlot(g, disk, slot);
    var file := disk[g.Path(slot)];
    var at := g.HeaderOffset(slot) + rel;
    SpliceInside(file, g.HeaderOffset(slot), g.headerBytes, rel, data);
    OtherRangeKept(g, disk, slot, at, data, other);
    SpliceOutside(file, at, data, g.PayloadOffset(slot), g.PayloadBytes());
  }

  // A write inside one slot leaves both regions of every other slot.
  lemma OtherRangeKept(g: Geometry, disk: Disk, slot: nat, at: nat, data: seq<byte>, other: nat)
    requires g.Valid() && MountsSeparate(g) && Laid(g, disk, slot)
    requires g.HeaderOffset(slot) <= at && at + |data| <= g.HeaderOffset(slot) + g.slotBytes
    ensures var after := WriteAt(disk, g.Path(slot), at, data);
            other != slot ==>
              && HeaderRegion(g, after, other) == HeaderRegion(g, disk, other)
              && PayloadRegion(g, after, other) == PayloadRegion(g, disk, other)
  {
    hide Geometry.Path, Geometry.HeaderOffset, Geometry.FileBytes;
    if other != slot {
      RegionsAreDisjoint(g, slot, other);
      SamePathIff(g, slot, other);
      if g.Path(other) == g.Path(slot) {
        assert g.Device(other) == g.Device(slot);
        RegionsAreDisjoint(g, other, slot);
        var file := disk[g.Path(slot)];
        SpliceOutside(file, at, data, g.HeaderOffset(other), g.headerBytes);
        SpliceOutside(file, at, data, g.PayloadOffset(other), g.PayloadBytes());
      }
    }
  }

  // ---- zeroing ----

  datatype PwriteAnswer = Interrupted | Failed | Wrote(n: nat)

  const ZERO_CHUNK: nat := 4194304

  function ChunkOf(remaining: nat): nat { if remaining < ZERO_CHUNK then remaining else ZERO_CHUNK }

  // A failed call, one that wrote nothing, or one that claims more than asked.
  predicate Refused(answer: PwriteAnswer, chunk: nat) {
    answer == Failed || (answer.Wrote? && (answer.n == 0 || answer.n > chunk))
  }

  function TotalWritten(answers: seq<PwriteAnswer>): nat {
    if answers == [] then 0
    else
      var last := answers[|answers| - 1];
      TotalWritten(answers[..|answers| - 1]) + (if last.Wrote? then last.n else 0)
  }

  // Zero file[offset..offset+bytes] upward in chunks; the kernel may write
  // less than asked, be interrupted, or fail, and a chunk of unaligned length
  // is refused. Answers beyond the given ones are failures. What was zeroed is
  // what the calls up to `used` report, and the loop gives up only when the
  // answers end, the next one is a refusal, or the rest is not aligned.
  method WriteZeros(file: array<byte>, offset: nat, bytes: nat, answers: seq<PwriteAnswer>)
    returns (ok: bool, written: nat, ghost used: nat)
    requires offset + bytes <= file.Length
    modifies file
    ensures written <= bytes && (ok <==> written == bytes)
    ensures file[..] == Splice(old(file[..]), offset, LE.Zeros(written))
    ensures used <= |answers| && written == TotalWritten(answers[..used])
    ensures !ok ==>
              || used == |answers| || ChunkOf(bytes - written) % 4096 != 0
              || Refused(answers[used], ChunkOf(bytes - written))
  {
    written := 0;
    var call := 0;
    while written < bytes && call < |answers|
      invariant written <= bytes && call <= |answers| && written == TotalWritten(answers[..call])
      invariant file[..] == Splice(old(file[..]), offset, LE.Zeros(written))
      decreases |answers| - call
    {
      var chunk := ChunkOf(bytes - written);
      if chunk % 4096 != 0 {
        break;
      }
      var answer := answers[call];
      assert answers[..call + 1][..call] == answers[..call];
      if answer == Interrupted {
        call := call + 1;
        continue;
      }
      if Refused(answer, chunk) {
        break;
      }
      forall i | offset + written <= i < offset + written + answer.n {
        file[i] := 0;
      }
      written := written + answer.n;
      call := call + 1;
    }
    ok, used := written == bytes, call;
  }

  // After any outcome of zeroing a slot, complete or not, the slot's bytes are
  // either untouched or carry no readable header.
  lemma ZeroingNeverLeavesAHeader(d: HC.Digests, slotBytes: seq<byte>, written: nat)
    requires written <= |slotBytes|
    ensures var after := Splice(slotBytes, 0, LE.Zeros(written));
            after == slotBytes || HC.Unreadable(d, after)
  {
    var after := Splice(slotBytes, 0, LE.Zeros(written));
    assert after == LE.Zeros(written) + slotBytes[written..];
    if written > 0 {
      HC.ZeroedPrefixRejects(d, slotBytes, written);
    }
  }

  // ---- extents of a materialised segment file ----

  datatype Extent = Extent(logical: nat, physical: nat, length: nat, unsafeFlags: bool)

  // One ioctl: refused, or the extents mapped from the requested offset on.
  datatype Fiemap = IoctlFailed | Mapped(extents: seq<Extent>)

  datatype ExtentStatus = Safe | QueryFailed | Unsafe | TooManyRuns

  const MAX_RUNS: nat := 124

  ghost predicate Sound(e: Extent) {
    && !e.unsafeFlags && e.length > 0 && e.physical % 4096 == 0 && e.length % 4096 == 0
    && e.physical + e.length < LE.U64
  }

  // The extents map [0, end) of the file in order, without gap or overlap.
  ghost predicate Tiles(es: seq<Extent>, end: nat) {
    if es == [] then end == 0
    else
      var last := es[|es| - 1];
      last.logical + last.length == end && Sound(last) && Tiles(es[..|es| - 1], last.logical)
  }

  ghost predicate StartsRun(es: seq<Extent>, i: nat)
    requires i < |es|
  {
    i == 0 || es[i - 1].physical + es[i - 1].length != es[i].physical
  }

  // Positions where a new physically contiguous run begins.
  ghost function RunStarts(es: seq<Extent>): set<nat> {
    set i: nat | i < |es| && StartsRun(es, i)
  }

  // The walk's bookkeeping agrees with the extents accepted so far.
  ghost predicate Walked(es: seq<Extent>, cursor: nat, physicalEnd: nat, runs: nat) {
    && Tiles(es, cursor) && runs == |RunStarts(es)| && (runs == 0 <==> es == [])
    && (es != [] ==> physicalEnd == es[|es| - 1].physical + es[|es| - 1].length)
  }

  lemma WalkedOne(es: seq<Extent>, cursor: nat, physicalEnd: nat, runs: nat, e: Extent)
    requires Walked(es, cursor, physicalEnd, runs) && Sound(e) && e.logical == cursor
    ensures Walked(es + [e], cursor + e.length, e.physical + e.length,
                   if runs == 0 || e.physical != physicalEnd then runs + 1 else runs)
  {
    var all := es + [e];
    assert all[..|es|] == es;
    assert forall i: nat :: i < |es| ==> StartsRun(all, i) == StartsRun(es, i);
    assert RunStarts(all) == RunStarts(es) + (if StartsRun(all, |es|) then {|es|} else {});
    assert |es| !in RunStarts(es);
    assert es == [] || 0 in RunStarts(es);
  }

  // An answer with nothing mapped, or with an extent that cannot follow the
  // ones accepted up to reach.
  ghost predicate Faulty(answer: Fiemap, reach: nat, fileBytes: nat) {
    answer.Mapped? &&
    (answer.extents == [] ||
     exists e :: e in answer.extents && !(Sound(e) && e.logical == reach && reach + e.length <= fileBytes))
  }

  // Walk the file's extents. The kernel's answer to each query is arbitrary;
  // the unmapped remainder strictly decreases, so the walk always ends.
  method VerifyExtents(fileBytes: nat, kernel: (nat, nat) -> Fiemap)
    returns (status: ExtentStatus, ghost accepted: seq<Extent>, ghost reach: nat)
    ensures Tiles(accepted, reach) && |RunStarts(accepted)| <= MAX_RUNS + 1
    ensures reach <= fileBytes
    ensures status == Safe ==> reach == fileBytes && |RunStarts(accepted)| <= MAX_RUNS
    ensures status == TooManyRuns <==> |RunStarts(accepted)| > MAX_RUNS
    ensures status == QueryFailed ==> exists i: nat, c: nat :: kernel(i, c) == IoctlFailed
    ensures status == Unsafe ==> exists i: nat, c: nat :: c <= reach && Faulty(kernel(i, c), reach, fileBytes)
  {
    accepted, reach := [], 0;
    var cursor: nat, physicalEnd: nat, runs: nat, call: nat := 0, 0, 0, 0;
    while cursor < fileBytes
      invariant cursor == reach <= fileBytes && runs <= MAX_RUNS
      invariant Walked(accepted, cursor, physicalEnd, runs)
      decreases fileBytes - cursor
    {
      var answer := kernel(call, cursor);
      call := call + 1;
      if answer == IoctlFailed {
        return QueryFailed, accepted, reach;
      }
      if answer.extents == [] {
        assert Faulty(kernel(call - 1, cursor), reach, fileBytes);
        return Unsafe, accepted, reach;
      }
      ghost var before := cursor;
      for i := 0 to |answer.extents|
        invariant before <= cursor == reach <= fileBytes && runs <= MAX_RUNS
        invariant i > 0 ==> before < cursor
        invariant Walked(accepted, cursor, physicalEnd, runs)
      {
        var e := answer.extents[i];
        if e.unsafeFlags || e.logical != cursor || e.length == 0 || e.length > fileBytes - cursor ||
           e.physical % 4096 != 0 || e.length % 4096 != 0 || e.physical + e.length >= LE.U64 {
          assert Faulty(kernel(call - 1, before), reach, fileBytes);
          return Unsafe, accepted, reach;
        }
        WalkedOne(accepted, cursor, physicalEnd, runs, e);
        if runs == 0 || e.physical != physicalEnd {
          runs := runs + 1;
        }
        accepted, reach := accepted + [e], reach + e.length;
        if runs > MAX_RUNS {
          return TooManyRuns, accepted, reach;
        }
        cursor := cursor + e.length;
        physicalEnd := e.physical + e.length;
      }
    }
    return Safe, accepted, reach;
  }
}
