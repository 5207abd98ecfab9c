// Explicit little-endian field access, independent of the host's byte order.
module LittleEndian {
  import opened Common

  const U32: nat := 0x1_0000_0000
  const U64: nat := 0x1_0000_0000_0000_0000

  // Number of values that fit in n bytes.
  function Span(n: nat): (r: nat)
    ensures r > 0
  {
    if n == 0 then 1 else 256 * Span(n - 1)
  }

  // The low n bytes of v, least significant first: the cast to a narrower
  // integer type drops the rest.
  function Bytes(v: nat, n: nat): (r: seq<byte>)
    ensures |r| == n
  {
    if n == 0 then [] else [v % 256] + Bytes(v / 256, n - 1)
  }

  function Value(b: seq<byte>): (r: nat)
    ensures r < Span(|b|)
  {
    if b == [] then 0 else b[0] + 256 * Value(b[1..])
  }

  function Zeros(n: nat): (r: seq<byte>)
    ensures |r| == n && forall i :: 0 <= i < n ==> r[i] == 0
  {
    seq(n, _ => 0)
  }

  lemma {:induction false} BytesThenValue(v: nat, n: nat)
    requires v < Span(n)
    ensures Value(Bytes(v, n)) == v
  {
    if n > 0 {
      BytesThenValue(v / 256, n - 1);
      assert Bytes(v, n)[1..] == Bytes(v / 256, n - 1);
    }
  }

  lemma {:induction false} ValueThenBytes(b: seq<byte>)
    ensures Bytes(Value(b), |b|) == b
  {
    if b != [] {
      ValueThenBytes(b[1..]);
      assert Value(b) % 256 == b[0] && Value(b) / 256 == Value(b[1..]);
    }
  }

  lemma Spans()
    ensures Span(4) == U32 && Span(8) == U64
  {
    assert Span(4) == U32;
    assert Span(8) == 256 * (256 * (256 * (256 * Span(4))));
  }

  lemma Word32(v: nat)
    requires v < U32
    ensures Value(Bytes(v, 4)) == v
  {
    Spans();
    BytesThenValue(v, 4);
  }

  lemma Word64(v: nat)
    requires v < U64
    ensures Value(Bytes(v, 8)) == v
  {
    Spans();
    BytesThenValue(v, 8);
  }

  // The field of n bytes at offset off.
  function Field(data: seq<byte>, off: nat, n: nat): (r: nat)
    requires off + n <= |data|
  {
    Value(data[off..off + n])
  }

  // Store the low n bytes of v at out[off..off+n], shifting v right by eight
  // bits per byte written.
  method Store(out: array<byte>, off: nat, v: nat, n: nat)
    requires off + n <= out.Length
    modifies out
    ensures out[..off + n] == old(out[..off]) + Bytes(v, n)
    ensures out[off + n..] == old(out[off + n..])
  {
    var rest := v;
    ghost var before := out[..off];
    for i := 0 to n
      invariant out[..off + i] + Bytes(rest, n - i) == before + Bytes(v, n)
      invariant out[off + i..] == old(out[off + i..])
    {
      ghost var done := out[..off + i];
      out[off + i] := rest % 256;
      assert out[..off + i + 1] == done + [rest % 256];
      assert out[off + i + 1..] == old(out[off + i..])[1..];
      rest := rest / 256;
    }
    assert out[..off + n] + [] == out[..off + n];
  }

  lemma {:induction false} ValueAppend(b: seq<byte>, x: byte)
    ensures Value(b + [x]) == Value(b) + Span(|b|) * x
  {
    if b == [] {
      assert [x][1..] == [];
    } else {
      ValueAppend(b[1..], x);
      assert (b + [x])[1..] == b[1..] + [x];
      ValueUnfolds(b);
      ValueUnfolds(b + [x]);
      hide Value, Span;
      Scale(Span(|b| - 1), x);
    }
  }

  lemma ValueUnfolds(b: seq<byte>)
    requires b != []
    ensures Value(b) == b[0] + 256 * Value(b[1..]) && Span(|b|) == 256 * Span(|b| - 1)
  {
  }

  lemma Scale(s: nat, x: nat)
    ensures 256 * s * x == 256 * (s * x)
  {
  }

  // Load the n-byte field at off, adding each byte at its own power of 256.
  method Load(data: seq<byte>, off: nat, n: nat) returns (v: nat)
    requires off + n <= |data|
    ensures v == Field(data, off, n)
  {
    v := 0;
    var scale: nat := 1;
    for i := 0 to n
      invariant v == Value(data[off..off + i]) && scale == Span(i)
    {
      ValueAppend(data[off..off + i], data[off + i]);
      assert data[off..off + i + 1] == data[off..off + i] + [data[off + i]];
      v := v + scale * data[off + i];
      scale := scale * 256;
    }
  }
}
