// Mirrored checkpoint containers: the entry-stream codec, and the rules that
// pick which container to overwrite and which to read.
module CheckpointCodec {
  import opened Common
  import opened HeaderCodec

  const ALIGNMENT: nat := 4096
  const CONTAINER_HEADER: nat := 4096
  const INDEX_MAGIC: seq<byte> := [84, 85, 84, 84, 73, 73, 68, 88]  // "TUTTIIDX"
  const INDEX_VERSION: nat := 1
  const ENTRY_FIXED: nat := 36
  const COUNT_BYTES: nat := 8

  datatype Entry = Entry(key: Key, slot: nat, payloadBytes: nat, generation: nat, commitSeq: nat)

  datatype Refusal =
    | EmptyContainer | ForeignMagic | UnsupportedFormat | Truncated | BadBodyCrc | MalformedBody

  datatype Loaded = Checkpoint(sequence: nat, entries: seq<Entry>) | Refused(why: Refusal)

  // Representable on media without loss.
  ghost predicate Storable(e: Entry) {
    && 0 < |e.key| < LE.U32 && e.slot < LE.U64 && e.payloadBytes < LE.U64
    && e.generation < LE.U64 && e.commitSeq < LE.U64
  }

  function RoundUp(value: nat, multiple: nat): (r: nat)
    ensures value <= r && (multiple > 0 ==> r < value + multiple)
  {
    if multiple == 0 then value else
      LemmaRoundUp(value, multiple);
      (value + multiple - 1) / multiple * multiple
  }

  lemma LemmaRoundUp(value: nat, multiple: nat)
    requires multiple > 0
    ensures value <= (value + multiple - 1) / multiple * multiple < value + multiple
  {
    var n := value + multiple - 1;
    assert n == n / multiple * multiple + n % multiple;
  }

  lemma RoundUpMonotone(a: nat, b: nat)
    requires a <= b
    ensures RoundUp(a, ALIGNMENT) <= RoundUp(b, ALIGNMENT)
  {
  }

  // ---- the entry stream ----

  function EntryFixed(e: Entry): (r: seq<byte>)
    ensures |r| == ENTRY_FIXED
  {
    LE.Bytes(|e.key|, 4) + LE.Bytes(e.slot, 8) + LE.Bytes(e.payloadBytes, 8) +
    LE.Bytes(e.generation, 8) + LE.Bytes(e.commitSeq, 8)
  }

  function EncodeEntries(es: seq<Entry>): (r: seq<byte>) {
    if es == [] then [] else EntryFixed(es[0]) + es[0].key + EncodeEntries(es[1..])
  }

  function Body(es: seq<Entry>): (r: seq<byte>)
    ensures |r| >= COUNT_BYTES
  {
    LE.Bytes(|es|, 8) + EncodeEntries(es)
  }

  function HeaderOf(d: Digests, body: seq<byte>, sequence: nat): (r: seq<byte>)
    ensures |r| == CONTAINER_HEADER
  {
    INDEX_MAGIC + LE.Bytes(INDEX_VERSION, 4) + LE.Bytes(sequence, 8) + LE.Bytes(|body|, 8) +
    LE.Bytes(d.Crc(body), 4) + LE.Zeros(CONTAINER_HEADER - 32)
  }

  // A full container image: header, entry stream, zero padding to 4096.
  function ContainerImage(d: Digests, es: seq<Entry>, sequence: nat): (r: seq<byte>)
    ensures |r| == RoundUp(CONTAINER_HEADER + |Body(es)|, ALIGNMENT)
  {
    var body := Body(es);
    HeaderOf(d, body, sequence) + body +
    LE.Zeros(RoundUp(CONTAINER_HEADER + |body|, ALIGNMENT) - CONTAINER_HEADER - |body|)
  }

  // The appending loop of the encoder.
  method AppendEntries(es: seq<Entry>) returns (body: seq<byte>)
    ensures body == Body(es)
  {
    body := LE.Bytes(|es|, 8);
    for i := 0 to |es|
      invariant body + EncodeEntries(es[i..]) == Body(es)
    {
      assert es[i..][1..] == es[i + 1..];
      body := body + EntryFixed(es[i]) + es[i].key;
    }
    assert es[|es|..] == [];
  }

  method EncodeCheckpoint(d: Digests, es: seq<Entry>, sequence: nat) returns (image: seq<byte>)
    ensures image == ContainerImage(d, es, sequence)
  {
    hide Body, HeaderOf, RoundUp;
    var body := AppendEntries(es);
    var used := CONTAINER_HEADER + |body|;
    image := HeaderOf(d, body, sequence) + body + LE.Zeros(RoundUp(used, ALIGNMENT) - CONTAINER_HEADER - |body|);
  }

  // ---- parsing ----

  // The entry at a cursor, or None when its lengths do not fit the body.
  function ParseOne(body: seq<byte>, cursor: nat): (r: Option<(Entry, nat)>)
    requires cursor <= |body|
    ensures r.Some? ==> cursor + ENTRY_FIXED < r.value.1 <= |body| && |r.value.0.key| > 0
  {
    if |body| - cursor < ENTRY_FIXED then None
    else
      var keyLen := LE.Field(body, cursor, 4);
      var at := cursor + ENTRY_FIXED;
      if keyLen == 0 || keyLen > |body| - at then None
      else
        Some((Entry(body[at..at + keyLen], LE.Field(body, cursor + 4, 8), LE.Field(body, cursor + 12, 8),
                    LE.Field(body, cursor + 20, 8), LE.Field(body, cursor + 28, 8)),
              at + keyLen))
  }

  function Parse(body: seq<byte>, cursor: nat, count: nat): (r: Option<seq<Entry>>)
    requires cursor <= |body|
    decreases count
  {
    if count == 0 then Some([])
    else
      match ParseOne(body, cursor)
      case None => None
      case Some((e, next)) =>
        match Parse(body, next, count - 1)
        case None => None
        case Some(rest) => Some([e] + rest)
  }

  function DecodeBody(body: seq<byte>): (r: Option<seq<Entry>>) {
    if |body| < COUNT_BYTES then None
    else
      var count := LE.Field(body, 0, 8);
      if count > (|body| - COUNT_BYTES) / ENTRY_FIXED then None
      else Parse(body, COUNT_BYTES, count)
  }

  function DecodeCheckpoint(d: Digests, data: seq<byte>): (r: Loaded) {
    if |data| < CONTAINER_HEADER then Refused(Truncated)
    else if data[..8] == LE.Zeros(8) then Refused(EmptyContainer)
    else if data[..8] != INDEX_MAGIC then Refused(ForeignMagic)
    else if LE.Field(data, 8, 4) != INDEX_VERSION then Refused(UnsupportedFormat)
    else
      var bodyBytes := LE.Field(data, 20, 8);
      if bodyBytes > |data| - CONTAINER_HEADER then Refused(Truncated)
      else
        var body := data[CONTAINER_HEADER..CONTAINER_HEADER + bodyBytes];
        if d.Crc(body) != LE.Field(data, 28, 4) then Refused(BadBodyCrc)
        else
          match DecodeBody(body)
          case None => Refused(MalformedBody)
          case Some(es) => Checkpoint(LE.Field(data, 12, 8), es)
  }

  // One iteration's reads. Every slice is bounds-checked, so no corrupt length
  // walks the parser off the body.
  method ReadOne(body: seq<byte>, cursor: nat) returns (r: Option<(Entry, nat)>)
    requires cursor <= |body|
    ensures r == ParseOne(body, cursor)
  {
    if |body| - cursor < ENTRY_FIXED {
      return None;
    }
    hide LE.Value;
    var keyLen := LE.Load(body, cursor, 4);
    var slot := LE.Load(body, cursor + 4, 8);
    var payloadBytes := LE.Load(body, cursor + 12, 8);
    var generation := LE.Load(body, cursor + 20, 8);
    var commitSeq := LE.Load(body, cursor + 28, 8);
    var at := cursor + ENTRY_FIXED;
    if keyLen == 0 || keyLen > |body| - at {
      return None;
    }
    return Some((Entry(body[at..at + keyLen], slot, payloadBytes, generation, commitSeq), at + keyLen));
  }

  // The cursor loop of the decoder.
  method ParseEntries(body: seq<byte>) returns (r: Option<seq<Entry>>)
    ensures r == DecodeBody(body)
  {
    if |body| < COUNT_BYTES {
      return None;
    }
    hide LE.Value, Parse;
    var count := LE.Load(body, 0, 8);
    if count > (|body| - COUNT_BYTES) / ENTRY_FIXED {
      return None;
    }
    r := ParseFrom(body, count);
  }

  method ParseFrom(body: seq<byte>, count: nat) returns (r: Option<seq<Entry>>)
    requires COUNT_BYTES <= |body|
    ensures r == Parse(body, COUNT_BYTES, count)
  {
    hide LE.Value, ParseOne, Parse, Prepend;
    var cursor := COUNT_BYTES;
    var parsed: seq<Entry> := [];
    var i := 0;
    PrependNone(Parse(body, COUNT_BYTES, count));
    while i < count
      invariant 0 <= i <= count && COUNT_BYTES <= cursor <= |body|
      invariant Prepend(parsed, Parse(body, cursor, count - i)) == Parse(body, COUNT_BYTES, count)
    {
      var one := ReadOne(body, cursor);
      ParseStep(parsed, body, cursor, count - i);
      if one.None? {
        return None;
      }
      parsed, cursor := parsed + [one.value.0], one.value.1;
      i := i + 1;
    }
    ParseEnd(parsed, body, cursor);
    return Some(parsed);
  }

  ghost function Prepend(front: seq<Entry>, r: Option<seq<Entry>>): Option<seq<Entry>> {
    match r
    case None => None
    case Some(es) => Some(front + es)
  }

  lemma PrependNone(r: Option<seq<Entry>>)
    ensures Prepend([], r) == r
  {
    if r.Some? {
      assert [] + r.value == r.value;
    }
  }

  lemma ParseEnd(front: seq<Entry>, body: seq<byte>, cursor: nat)
    requires cursor <= |body|
    ensures Prepend(front, Parse(body, cursor, 0)) == Some(front)
  {
    assert front + [] == front;
  }

  lemma ParseStep(front: seq<Entry>, body: seq<byte>, cursor: nat, count: nat)
    requires cursor <= |body| && count > 0
    ensures var one := ParseOne(body, cursor);
            Prepend(front, Parse(body, cursor, count)) ==
            if one.None? then None else Prepend(front + [one.value.0], Parse(body, one.value.1, count - 1))
  {
    var one := ParseOne(body, cursor);
    if one.Some? {
      var rest := Parse(body, one.value.1, count - 1);
      if rest.Some? {
        assert front + [one.value.0] + rest.value == front + ([one.value.0] + rest.value);
      }
    }
  }

  // ---- round trips ----

  // Reading one encoded entry, whatever precedes and follows it.
  lemma ParseOneOfEncoded(body: seq<byte>, c: nat, e: Entry)
    requires Storable(e) && c <= |body| && EntryFixed(e) + e.key <= body[c..]
    ensures ParseOne(body, c) == Some((e, c + ENTRY_FIXED + |e.key|))
  {
    hide LE.Bytes, LE.Value;
    var f := EntryFixed(e);
    FixedSlices(e);
    assert body[c..c + 36] == f && body[c + 36..c + 36 + |e.key|] == e.key;
    assert body[c..c + 4] == f[..4] && body[c + 4..c + 12] == f[4..12] && body[c + 12..c + 20] == f[12..20];
    assert body[c + 20..c + 28] == f[20..28] && body[c + 28..c + 36] == f[28..36];
    LE.Word32(|e.key|);
    LE.Word64(e.slot);
    LE.Word64(e.payloadBytes);
    LE.Word64(e.generation);
    LE.Word64(e.commitSeq);
  }

  lemma FixedSlices(e: Entry)
    ensures var f := EntryFixed(e);
            && f[..4] == LE.Bytes(|e.key|, 4) && f[4..12] == LE.Bytes(e.slot, 8)
            && f[12..20] == LE.Bytes(e.payloadBytes, 8) && f[20..28] == LE.Bytes(e.generation, 8)
            && f[28..36] == LE.Bytes(e.commitSeq, 8)
  {
    hide LE.Bytes;
    var f := EntryFixed(e);
    var a := LE.Bytes(|e.key|, 4) + LE.Bytes(e.slot, 8);
    var b := LE.Bytes(e.generation, 8) + LE.Bytes(e.commitSeq, 8);
    assert f == a + LE.Bytes(e.payloadBytes, 8) + b;
    assert f[..4] == a[..4] && f[4..12] == a[4..12] && f[20..28] == b[..8] && f[28..36] == b[8..16];
  }

  lemma {:induction false} ParseEncoded(body: seq<byte>, c: nat, es: seq<Entry>)
    requires forall e :: e in es ==> Storable(e)
    requires c <= |body| && EncodeEntries(es) <= body[c..]
    ensures Parse(body, c, |es|) == Some(es)
    decreases |es|
  {
    hide EntryFixed, ParseOne;
    if es != [] {
      var one, rest := EntryFixed(es[0]) + es[0].key, EncodeEntries(es[1..]);
      assert one + rest <= body[c..];
      PrefixParts(body[c..], one, rest);
      ParseOneOfEncoded(body, c, es[0]);
      assert body[c..][|one|..] == body[c + |one|..];
      ParseEncoded(body, c + |one|, es[1..]);
      assert [es[0]] + es[1..] == es;
    }
  }

  lemma PrefixParts(s: seq<byte>, a: seq<byte>, b: seq<byte>)
    requires a + b <= s
    ensures a <= s && b <= s[|a|..]
  {
    assert a == (a + b)[..|a|] && b == (a + b)[|a|..];
  }

  lemma {:induction false} EncodedSizeAtLeast(es: seq<Entry>)
    ensures |EncodeEntries(es)| >= ENTRY_FIXED * |es|
  {
    if es != [] {
      EncodedSizeAtLeast(es[1..]);
    }
  }

  lemma BodyRoundTrip(es: seq<Entry>)
    requires |es| < LE.U64
    requires forall e :: e in es ==> Storable(e)
    ensures DecodeBody(Body(es)) == Some(es)
  {
    var body := Body(es);
    assert body[0..8] == LE.Bytes(|es|, 8);
    LE.Word64(|es|);
    EncodedSizeAtLeast(es);
    assert body[COUNT_BYTES..] == EncodeEntries(es);
    ParseEncoded(body, COUNT_BYTES, es);
  }

  lemma HeaderSlices(d: Digests, body: seq<byte>, sequence: nat)
    ensures var h := HeaderOf(d, body, sequence);
            && h[..8] == INDEX_MAGIC && h[8..12] == LE.Bytes(INDEX_VERSION, 4)
            && h[12..20] == LE.Bytes(sequence, 8) && h[20..28] == LE.Bytes(|body|, 8)
            && h[28..32] == LE.Bytes(d.Crc(body), 4)
  {
    hide LE.Bytes;
    var h := HeaderOf(d, body, sequence);
    var a := INDEX_MAGIC + LE.Bytes(INDEX_VERSION, 4) + LE.Bytes(sequence, 8);
    var b := LE.Bytes(|body|, 8) + LE.Bytes(d.Crc(body), 4);
    assert h == a + b + LE.Zeros(CONTAINER_HEADER - 32);
    assert h[..8] == a[..8] && h[8..12] == a[8..12] && h[12..20] == a[12..20];
    assert h[20..28] == b[..8] && h[28..32] == b[8..12];
  }

  // Decoding an encoded checkpoint returns it, whatever bytes follow the
  // image in the container: the zero padding, or a stale longer tail.
  lemma CheckpointRoundTrip(d: Digests, es: seq<Entry>, sequence: nat, tail: seq<byte>)
    requires |es| < LE.U64 && |Body(es)| < LE.U64 && sequence < LE.U64
    requires forall e :: e in es ==> Storable(e)
    ensures DecodeCheckpoint(d, ContainerImage(d, es, sequence) + tail) == Checkpoint(sequence, es)
  {
    hide LE.Bytes, LE.Value, DecodeBody, EncodeEntries;
    var body := Body(es);
    var h := HeaderOf(d, body, sequence);
    var data := ContainerImage(d, es, sequence) + tail;
    HeaderSlices(d, body, sequence);
    assert data[..CONTAINER_HEADER] == h;
    assert data[..8] == h[..8] && data[8..12] == h[8..12] && data[12..20] == h[12..20];
    assert data[20..28] == h[20..28] && data[28..32] == h[28..32];
    assert data[CONTAINER_HEADER..CONTAINER_HEADER + |body|] == body;
    assert INDEX_MAGIC[0] != LE.Zeros(8)[0];
    LE.Word32(INDEX_VERSION);
    LE.Word64(sequence);
    LE.Word64(|body|);
    LE.Word32(d.Crc(body));
    BodyRoundTrip(es);
  }

  // The reverse direction, as far as it is true: whatever is accepted starts
  // with the encoding of what was read (unread bytes may follow).
  lemma {:induction false} ParsedIsPrefix(body: seq<byte>, cursor: nat, count: nat)
    requires cursor <= |body| && Parse(body, cursor, count).Some?
    ensures var es := Parse(body, cursor, count).value;
            |es| == count && EncodeEntries(es) <= body[cursor..]
    decreases count
  {
    hide ParseOne, EntryFixed;
    if count > 0 {
      var (e, next) := ParseOne(body, cursor).value;
      ParsedOneIsPrefix(body, cursor);
      ParsedIsPrefix(body, next, count - 1);
      var es := Parse(body, cursor, count).value;
      assert es[1..] == Parse(body, next, count - 1).value;
      assert body[cursor..] == body[cursor..next] + body[next..];
    }
  }

  lemma Rejoin(s: seq<byte>, a: nat, b: nat, c: nat)
    requires a <= b <= c <= |s|
    ensures s[a..b] + s[b..c] == s[a..c]
  {
  }

  lemma ParsedOneIsPrefix(body: seq<byte>, cursor: nat)
    requires cursor <= |body| && ParseOne(body, cursor).Some?
    ensures var (e, next) := ParseOne(body, cursor).value;
            EntryFixed(e) + e.key == body[cursor..next]
  {
    hide LE.Bytes, LE.Value;
    var (e, next) := ParseOne(body, cursor).value;
    var c := cursor;
    LE.ValueThenBytes(body[c..c + 4]);
    LE.ValueThenBytes(body[c + 4..c + 12]);
    LE.ValueThenBytes(body[c + 12..c + 20]);
    LE.ValueThenBytes(body[c + 20..c + 28]);
    LE.ValueThenBytes(body[c + 28..c + 36]);
    Rejoin(body, c, c + 4, c + 12);
    Rejoin(body, c, c + 12, c + 20);
    Rejoin(body, c, c + 20, c + 28);
    Rejoin(body, c, c + 28, c + 36);
    Rejoin(body, c, c + 36, next);
  }

  // ---- container geometry ----

  function ContainerBytes(maxEntries: nat, maxKeyBytes: nat): (r: nat) {
    RoundUp(CONTAINER_HEADER + COUNT_BYTES + maxEntries * (ENTRY_FIXED + maxKeyBytes), ALIGNMENT)
  }

  lemma OneMore(n: nat, each: nat)
    ensures (n + 1) * each == n * each + each
  {
  }

  lemma AtMostTimes(n: nat, m: nat, each: nat)
    requires n <= m
    ensures n * each <= m * each
  {
  }

  lemma {:induction false} EncodedSizeAtMost(es: seq<Entry>, maxKeyBytes: nat)
    requires forall e :: e in es ==> |e.key| <= maxKeyBytes
    ensures |EncodeEntries(es)| <= |es| * (ENTRY_FIXED + maxKeyBytes)
  {
    hide EntryFixed;
    if es != [] {
      EncodedSizeAtMost(es[1..], maxKeyBytes);
      OneMore(|es| - 1, ENTRY_FIXED + maxKeyBytes);
    }
  }

  // The overflow error of the writer is unreachable: any index of at most
  // maxEntries admissible keys encodes into one container.
  lemma ImageFits(d: Digests, es: seq<Entry>, sequence: nat, maxEntries: nat, maxKeyBytes: nat)
    requires |es| <= maxEntries
    requires forall e :: e in es ==> |e.key| <= maxKeyBytes
    ensures |ContainerImage(d, es, sequence)| <= ContainerBytes(maxEntries, maxKeyBytes)
  {
    hide EncodeEntries, LE.Bytes, RoundUp;
    EncodedSizeAtMost(es, maxKeyBytes);
    AtMostTimes(|es|, maxEntries, ENTRY_FIXED + maxKeyBytes);
    RoundUpMonotone(CONTAINER_HEADER + |Body(es)|,
                    CONTAINER_HEADER + COUNT_BYTES + maxEntries * (ENTRY_FIXED + maxKeyBytes));
  }

  // ---- which container to write, which to read ----

  // An empty or unreadable container reports sequence 0; prefer the first of
  // those, otherwise the oldest.
  function NextContainer(sequences: seq<nat>): (r: nat)
    ensures sequences != [] ==> r < |sequences|
    ensures sequences != [] && sequences[r] == 0 ==> forall i :: 0 <= i < r ==> sequences[i] != 0
    ensures sequences != [] && sequences[r] != 0 ==> forall i :: 0 <= i < |sequences| ==> sequences[r] <= sequences[i]
  {
    if sequences == [] then 0 else
      var n := |sequences| - 1;
      var before := NextContainer(sequences[..n]);
      assert n > 0 ==> forall i :: 0 <= i < n ==> sequences[i] == sequences[..n][i];
      if n > 0 && sequences[before] == 0 then before
      else if n > 0 && sequences[before] <= sequences[n] then before
      else n
  }

  // The container with the highest nonzero sequence.
  function SelectContainer(sequences: seq<nat>): (r: Option<nat>)
    ensures r.None? <==> forall i :: 0 <= i < |sequences| ==> sequences[i] == 0
    ensures r.Some? ==> r.value < |sequences| && sequences[r.value] != 0
    ensures r.Some? ==> forall i :: 0 <= i < |sequences| ==> sequences[i] <= sequences[r.value]
  {
    if sequences == [] then None else
      var n := |sequences| - 1;
      var before := SelectContainer(sequences[..n]);
      assert forall i :: 0 <= i < n ==> sequences[i] == sequences[..n][i];
      if sequences[n] != 0 && (before.None? || sequences[n] > sequences[before.value]) then Some(n) else before
  }

  method ScanForNext(sequences: seq<nat>) returns (r: nat)
    ensures r == NextContainer(sequences)
  {
    if sequences == [] {
      return 0;
    }
    for i := 0 to |sequences|
      invariant forall j :: 0 <= j < i ==> sequences[j] != 0
    {
      if sequences[i] == 0 {
        NextIsUnique(sequences, i);
        return i;
      }
    }
    r := 0;
    for i := 1 to |sequences|
      invariant r < i && forall j :: 0 <= j < i ==> sequences[r] <= sequences[j]
      invariant forall j :: 0 <= j < r ==> sequences[r] < sequences[j]
    {
      if sequences[i] < sequences[r] {
        r := i;
      }
    }
    OldestIsUnique(sequences, r);
  }

  lemma {:induction false} NextIsUnique(sequences: seq<nat>, i: nat)
    requires i < |sequences| && sequences[i] == 0
    requires forall j :: 0 <= j < i ==> sequences[j] != 0
    ensures NextContainer(sequences) == i
  {
    var n := |sequences| - 1;
    if i < n {
      NextIsUnique(sequences[..n], i);
    }
  }

  lemma {:induction false} OldestIsUnique(sequences: seq<nat>, r: nat)
    requires r < |sequences| && forall j :: 0 <= j < |sequences| ==> sequences[j] != 0
    requires forall j :: 0 <= j < |sequences| ==> sequences[r] <= sequences[j]
    requires forall j :: 0 <= j < r ==> sequences[r] < sequences[j]
    ensures NextContainer(sequences) == r
  {
    var n := |sequences| - 1;
    if r < n {
      OldestIsUnique(sequences[..n], r);
    }
  }

  method ScanForNewest(sequences: seq<nat>) returns (found: bool, chosen: nat)
    ensures found == SelectContainer(sequences).Some?
    ensures found ==> chosen == SelectContainer(sequences).value
  {
    found, chosen := false, 0;
    for i := 0 to |sequences|
      invariant found == SelectContainer(sequences[..i]).Some?
      invariant found ==> chosen == SelectContainer(sequences[..i]).value
    {
      assert sequences[..i + 1][..i] == sequences[..i];
      if sequences[i] != 0 && (!found || sequences[i] > sequences[chosen]) {
        found, chosen := true, i;
      }
    }
    assert sequences[..|sequences|] == sequences;
  }

  // Nonzero sequences are pairwise distinct.
  ghost predicate DistinctSequences(sequences: seq<nat>) {
    forall i, j :: 0 <= i < j < |sequences| && sequences[i] != 0 ==> sequences[i] != sequences[j]
  }

  // With two containers or more, the one chosen for writing never holds the
  // newest state: this is the whole basis of crash atomicity.
  lemma WriteSparesNewest(sequences: seq<nat>)
    requires |sequences| >= 2 && DistinctSequences(sequences)
    ensures SelectContainer(sequences) != Some(NextContainer(sequences))
  {
    var w := NextContainer(sequences);
    if sequences[w] != 0 {
      var other := if w == 0 then 1 else 0;
      assert sequences[other] != sequences[w];
    }
  }

  // A completed write with a sequence above all others becomes the newest;
  // a torn one leaves the newest where it was.
  lemma AfterWrite(sequences: seq<nat>, sequence: nat)
    requires |sequences| >= 2 && DistinctSequences(sequences)
    requires sequence == 0 || forall i :: 0 <= i < |sequences| ==> sequences[i] < sequence
    ensures var w := NextContainer(sequences);
            var after := sequences[w := sequence];
            && DistinctSequences(after)
            && SelectContainer(after) == if sequence == 0 then SelectContainer(sequences) else Some(w)
  {
    hide SelectContainer, NextContainer;
    WriteSparesNewest(sequences);
    var w := NextContainer(sequences);
    var after := sequences[w := sequence];
    var was, now := SelectContainer(sequences), SelectContainer(after);
    if sequence != 0 {
      assert after[w] == sequence && now.Some? && after[now.value] >= sequence;
    } else if was.Some? {
      assert after[was.value] == sequences[was.value] && now.Some? && now.value != w;
      assert sequences[now.value] == sequences[was.value];
    } else {
      assert forall i :: 0 <= i < |after| ==> after[i] == 0;
    }
  }
}
