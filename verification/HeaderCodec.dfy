// The object header: one 4096-byte record per slot whose validity is the
// statement that the slot's payload is durable.
module HeaderCodec {
  import opened Common
  import LE = LittleEndian

  const HEADER_BYTES: nat := 4096
  const MAGIC: seq<byte> := [84, 85, 84, 84, 73, 79, 66, 74]  // "TUTTIOBJ"
  const VERSION: nat := 1
  const CRC_COVERED: nat := 56

  // The two digests of the on-media format, left uninterpreted: every result
  // below holds for whatever functions are put here.
  datatype Digests = Digests(crc32c: seq<byte> -> nat, identity: seq<byte> -> nat) {
    function Crc(data: seq<byte>): (r: nat)
      ensures r < LE.U32
    {
      crc32c(data) % LE.U32
    }

    function Identity(data: seq<byte>): (r: nat)
      ensures r < LE.U64
    {
      identity(data) % LE.U64
    }
  }

  // What a header records about a key; two keys with the same fingerprint
  // cannot be told apart on media.
  datatype Fingerprint = Fingerprint(identity: nat, keyLen: nat, keyCrc: nat)

  function FingerprintOf(d: Digests, key: Key): (r: Fingerprint) {
    Fingerprint(d.Identity(key), |key| % LE.U32, d.Crc(key))
  }

  datatype Fields = Fields(id: Fingerprint, payloadBytes: nat, generation: nat, commitSeq: nat)

  datatype Rejection =
    | EmptySlot | BadMagic | UnsupportedVersion | BadHeaderCrc | IdentityMismatch
    | KeyCrcMismatch | PayloadBytesMismatch | GenerationMismatch | TruncatedBuffer

  datatype Verdict = Accepted(fields: Fields) | Rejected(why: Rejection)

  datatype Expectation = Expectation(key: Key, payloadBytes: nat, generation: nat, checkGeneration: bool)

  // ---- the encoded image ----

  function Covered(f: Fields): (r: seq<byte>)
    ensures |r| == CRC_COVERED
  {
    MAGIC + LE.Bytes(VERSION, 4) + LE.Zeros(4) + LE.Bytes(f.id.identity, 8) +
    LE.Bytes(f.payloadBytes, 8) + LE.Bytes(f.generation, 8) + LE.Bytes(f.id.keyLen, 4) +
    LE.Bytes(f.id.keyCrc, 4) + LE.Bytes(f.commitSeq, 8)
  }

  function Image(d: Digests, f: Fields): (r: seq<byte>)
    ensures |r| == HEADER_BYTES
  {
    Covered(f) + LE.Bytes(d.Crc(Covered(f)), 4) + LE.Zeros(HEADER_BYTES - CRC_COVERED - 4)
  }

  function FieldsFor(d: Digests, key: Key, payloadBytes: nat, generation: nat, commitSeq: nat): (r: Fields) {
    Fields(FingerprintOf(d, key), payloadBytes, generation, commitSeq)
  }

  // Zero the header's bytes, so that padding is deterministic.
  method Clear(out: array<byte>)
    requires out.Length >= HEADER_BYTES
    modifies out
    ensures out[..] == LE.Zeros(HEADER_BYTES) + old(out[HEADER_BYTES..])
  {
    for i := 0 to HEADER_BYTES
      invariant forall j :: 0 <= j < i ==> out[j] == 0
      invariant forall j :: i <= j < out.Length ==> out[j] == old(out[j])
    {
      out[i] := 0;
    }
  }

  method StoreMagic(out: array<byte>)
    requires out.Length >= HEADER_BYTES
    modifies out
    ensures out[..8] == MAGIC && out[8..] == old(out[8..])
  {
    for i := 0 to |MAGIC|
      invariant out[..i] == MAGIC[..i]
      invariant out[i..] == old(out[i..])
    {
      ghost var before, after := out[..i], out[i..];
      out[i] := MAGIC[i];
      assert out[..i + 1] == before + [MAGIC[i]];
      assert out[i + 1..] == after[1..];
    }
  }

  // Everything the header CRC covers, written into a cleared buffer.
  method StoreCovered(out: array<byte>, f: Fields)
    requires out.Length >= HEADER_BYTES
    requires out[..HEADER_BYTES] == LE.Zeros(HEADER_BYTES)
    modifies out
    ensures out[..CRC_COVERED] == Covered(f)
    ensures out[CRC_COVERED..] == old(out[CRC_COVERED..])
  {
    hide LE.Bytes;
    ghost var was := out[..];
    StoreMagic(out);
    LE.Store(out, 8, VERSION, 4);
    assert out[12..] == was[12..];
    assert out[..16] == out[..12] + out[12..][..4];
    assert out[12..][..4] == was[12..16] == LE.Zeros(4);
    LE.Store(out, 16, f.id.identity, 8);
    assert out[24..] == was[24..];
    LE.Store(out, 24, f.payloadBytes, 8);
    assert out[32..] == was[32..];
    LE.Store(out, 32, f.generation, 8);
    assert out[40..] == was[40..];
    LE.Store(out, 40, f.id.keyLen, 4);
    assert out[44..] == was[44..];
    LE.Store(out, 44, f.id.keyCrc, 4);
    assert out[48..] == was[48..];
    LE.Store(out, 48, f.commitSeq, 8);
    assert out[56..] == was[56..];
  }

  // Fill a caller's buffer, field by field. Refuses, leaving the buffer
  // alone, a short buffer, an empty key or an empty payload.
  method Encode(d: Digests, out: array<byte>, key: Key, payloadBytes: nat, generation: nat, commitSeq: nat)
    returns (ok: bool)
    modifies out
    ensures ok == (out.Length >= HEADER_BYTES && key != [] && payloadBytes != 0)
    ensures !ok ==> out[..] == old(out[..])
    ensures ok ==> out[..] ==
                   Image(d, FieldsFor(d, key, payloadBytes, generation, commitSeq)) + old(out[HEADER_BYTES..])
  {
    if out.Length < HEADER_BYTES || key == [] || payloadBytes == 0 {
      return false;
    }
    hide LE.Bytes;
    Clear(out);
    ghost var tail := out[HEADER_BYTES..];
    assert out[CRC_COVERED..] == LE.Zeros(HEADER_BYTES - CRC_COVERED) + tail;
    StoreCovered(out, FieldsFor(d, key, payloadBytes, generation, commitSeq));
    ghost var after := out[CRC_COVERED..];
    LE.Store(out, CRC_COVERED, d.Crc(out[..CRC_COVERED]), 4);
    assert out[60..] == after[4..];
    assert out[60..] == (LE.Zeros(HEADER_BYTES - CRC_COVERED) + tail)[4..] ==
           LE.Zeros(HEADER_BYTES - 60) + tail;
    assert out[..] == out[..60] + out[60..];
    return true;
  }

  // ---- decoding ----

  function ReadFields(data: seq<byte>): (r: Fields)
    requires |data| >= HEADER_BYTES
  {
    Fields(
      Fingerprint(LE.Field(data, 16, 8), LE.Field(data, 40, 4), LE.Field(data, 44, 4)),
      LE.Field(data, 24, 8), LE.Field(data, 32, 8), LE.Field(data, 48, 8))
  }

  // Structural checks only, cheapest first; the CRC before any content.
  function ValidateStructure(d: Digests, data: seq<byte>): (r: Verdict)
    ensures r.Accepted? ==> |data| >= HEADER_BYTES && r.fields == ReadFields(data)
  {
    if |data| < HEADER_BYTES then Rejected(TruncatedBuffer)
    else if data[..8] == LE.Zeros(8) then Rejected(EmptySlot)
    else if data[..8] != MAGIC then Rejected(BadMagic)
    else if LE.Field(data, 8, 4) != VERSION then Rejected(UnsupportedVersion)
    else if LE.Field(data, CRC_COVERED, 4) != d.Crc(data[..CRC_COVERED]) then Rejected(BadHeaderCrc)
    else Accepted(ReadFields(data))
  }

  function Decode(d: Digests, data: seq<byte>, want: Expectation): (r: Verdict) {
    if want.key == [] || want.payloadBytes == 0 then Rejected(TruncatedBuffer)
    else
      var structural := ValidateStructure(d, data);
      if structural.Rejected? then structural
      else
        var f := structural.fields;
        if f.id.identity != d.Identity(want.key) then Rejected(IdentityMismatch)
        else if f.id.keyLen != |want.key| || f.id.keyCrc != d.Crc(want.key) then Rejected(KeyCrcMismatch)
        else if f.payloadBytes != want.payloadBytes then Rejected(PayloadBytesMismatch)
        else if want.checkGeneration && f.generation != want.generation then Rejected(GenerationMismatch)
        else Accepted(f)
  }

  // ---- what the two sides promise each other ----

  ghost predicate InRange(f: Fields) {
    && f.id.identity < LE.U64 && f.id.keyLen < LE.U32 && f.id.keyCrc < LE.U32
    && f.payloadBytes < LE.U64 && f.generation < LE.U64 && f.commitSeq < LE.U64
  }

  lemma CoveredSlices(f: Fields)
    ensures var c := Covered(f);
            && c[..8] == MAGIC && c[8..12] == LE.Bytes(VERSION, 4) && c[16..24] == LE.Bytes(f.id.identity, 8)
            && c[24..32] == LE.Bytes(f.payloadBytes, 8) && c[32..40] == LE.Bytes(f.generation, 8)
            && c[40..44] == LE.Bytes(f.id.keyLen, 4) && c[44..48] == LE.Bytes(f.id.keyCrc, 4)
            && c[48..56] == LE.Bytes(f.commitSeq, 8)
  {
    hide LE.Bytes;
    var c := Covered(f);
    var a := MAGIC + LE.Bytes(VERSION, 4);
    var b := LE.Zeros(4) + LE.Bytes(f.id.identity, 8) + LE.Bytes(f.payloadBytes, 8);
    var e := LE.Bytes(f.generation, 8) + LE.Bytes(f.id.keyLen, 4);
    var g := LE.Bytes(f.id.keyCrc, 4) + LE.Bytes(f.commitSeq, 8);
    assert c == a + b + e + g;
    assert c[..8] == a[..8] && c[8..12] == a[8..12];
    assert c[16..24] == b[4..12] && c[24..32] == b[12..20];
    assert c[32..40] == e[..8] && c[40..44] == e[8..12];
    assert c[44..48] == g[..4] && c[48..56] == g[4..12];
  }

  // Whatever follows the covered bytes on media, an encoded header decodes
  // structurally to exactly the fields that were encoded.
  lemma ImageValidates(d: Digests, f: Fields)
    requires InRange(f)
    ensures ValidateStructure(d, Image(d, f)) == Accepted(f)
  {
    hide LE.Bytes, LE.Value;
    var image := Image(d, f);
    var c := Covered(f);
    CoveredSlices(f);
    assert image[..56] == c && image[56..60] == LE.Bytes(d.Crc(c), 4);
    assert image[..8] == c[..8] && image[8..12] == c[8..12] && image[16..24] == c[16..24];
    assert image[24..32] == c[24..32] && image[32..40] == c[32..40] && image[40..44] == c[40..44];
    assert image[44..48] == c[44..48] && image[48..56] == c[48..56];
    assert MAGIC[0] != LE.Zeros(8)[0];
    LE.Word32(VERSION);
    LE.Word32(d.Crc(c));
    LE.Word64(f.id.identity);
    LE.Word64(f.payloadBytes);
    LE.Word64(f.generation);
    LE.Word32(f.id.keyLen);
    LE.Word32(f.id.keyCrc);
    LE.Word64(f.commitSeq);
  }

  // A header written for one key is accepted for another expectation exactly
  // when the fingerprints, the sizes and (if compared) the generations agree;
  // in particular it is accepted for its own key.
  lemma DecodeOfImage(d: Digests, key: Key, payloadBytes: nat, generation: nat, commitSeq: nat, want: Expectation)
    requires key != [] && payloadBytes != 0 && want.key != [] && want.payloadBytes != 0
    requires |key| < LE.U32 && |want.key| < LE.U32
    requires payloadBytes < LE.U64 && generation < LE.U64 && commitSeq < LE.U64
    ensures var f := FieldsFor(d, key, payloadBytes, generation, commitSeq);
            var r := Decode(d, Image(d, f), want);
            && (r.Accepted? <==>
                FingerprintOf(d, key) == FingerprintOf(d, want.key) && payloadBytes == want.payloadBytes &&
                (want.checkGeneration ==> generation == want.generation))
            && (r.Accepted? ==> r.fields == f)
  {
    hide ValidateStructure, Image;
    ImageValidates(d, FieldsFor(d, key, payloadBytes, generation, commitSeq));
  }

  // Acceptance of arbitrary media bytes: the covered bytes are, up to the four
  // padding bytes the format leaves unused, an encoding of the expected key.
  lemma AcceptedIsAnEncoding(d: Digests, data: seq<byte>, want: Expectation)
    requires Decode(d, data, want).Accepted?
    requires |want.key| < LE.U32
    ensures var f := Decode(d, data, want).fields;
            && f.id == FingerprintOf(d, want.key) && f.payloadBytes == want.payloadBytes
            && (want.checkGeneration ==> f.generation == want.generation)
            && data[..12] == Covered(f)[..12] && data[16..56] == Covered(f)[16..]
            && data[56..60] == LE.Bytes(d.Crc(data[..56]), 4)
  {
    hide LE.Bytes, LE.Value;
    var f := Decode(d, data, want).fields;
    LE.ValueThenBytes(data[8..12]);
    LE.ValueThenBytes(data[56..60]);
    assert data[..12] == data[..8] + data[8..12];
    FieldBytes(data);
    CoveredEnds(f);
  }

  lemma CoveredEnds(f: Fields)
    ensures Covered(f)[..12] == MAGIC + LE.Bytes(VERSION, 4)
    ensures Covered(f)[16..] ==
            LE.Bytes(f.id.identity, 8) + LE.Bytes(f.payloadBytes, 8) + LE.Bytes(f.generation, 8) +
            LE.Bytes(f.id.keyLen, 4) + LE.Bytes(f.id.keyCrc, 4) + LE.Bytes(f.commitSeq, 8)
  {
    hide LE.Bytes;
    var rest := LE.Bytes(f.id.identity, 8) + LE.Bytes(f.payloadBytes, 8) + LE.Bytes(f.generation, 8) +
                LE.Bytes(f.id.keyLen, 4) + LE.Bytes(f.id.keyCrc, 4) + LE.Bytes(f.commitSeq, 8);
    assert Covered(f) == (MAGIC + LE.Bytes(VERSION, 4)) + LE.Zeros(4) + rest;
  }

  // The field bytes of any buffer are determined by the values read there.
  lemma FieldBytes(data: seq<byte>)
    requires |data| >= HEADER_BYTES
    ensures var f := ReadFields(data);
            data[16..56] ==
            LE.Bytes(f.id.identity, 8) + LE.Bytes(f.payloadBytes, 8) + LE.Bytes(f.generation, 8) +
            LE.Bytes(f.id.keyLen, 4) + LE.Bytes(f.id.keyCrc, 4) + LE.Bytes(f.commitSeq, 8)
  {
    hide LE.Bytes, LE.Value;
    LE.ValueThenBytes(data[16..24]);
    LE.ValueThenBytes(data[24..32]);
    LE.ValueThenBytes(data[32..40]);
    LE.ValueThenBytes(data[40..44]);
    LE.ValueThenBytes(data[44..48]);
    LE.ValueThenBytes(data[48..56]);
    assert data[16..56] ==
           data[16..24] + data[24..32] + data[32..40] + data[40..44] + data[44..48] + data[48..56];
  }

  // Bytes that no expectation can accept.
  ghost predicate Unreadable(d: Digests, data: seq<byte>) {
    ValidateStructure(d, data).Rejected?
  }

  // Zeroing runs upward through a slot, so a crash leaves a zeroed prefix. Any
  // nonempty zeroed prefix already makes the header unreadable.
  lemma ZeroedPrefixRejects(d: Digests, data: seq<byte>, n: nat)
    requires 0 < n <= |data|
    ensures Unreadable(d, LE.Zeros(n) + data[n..])
  {
    var after := LE.Zeros(n) + data[n..];
    if |after| >= HEADER_BYTES {
      assert after[..8][0] == 0;
    }
  }
}
