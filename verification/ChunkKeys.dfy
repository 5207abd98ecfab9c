// Chunk identity: token prefixes hashed in a chain, and the wire key that adds
// a layer number to a chunk key.
module ChunkKeys {
  import opened Common
  import LE = LittleEndian

  const KEY_BYTES: nat := 16
  const TOKEN_BYTES: nat := 8
  const LAYER_BYTES: nat := 2

  type Token = x: int | 0 <= x < 0x1_0000_0000_0000_0000 witness 0

  // The hash, left uninterpreted.
  type Hash = seq<byte> -> Key

  function Encode(tokens: seq<Token>): (r: seq<byte>)
    ensures |r| == TOKEN_BYTES * |tokens|
  {
    if tokens == [] then [] else LE.Bytes(tokens[0], TOKEN_BYTES) + Encode(tokens[1..])
  }

  function Digest(hash: Hash, parent: Key, chunk: seq<Token>): Key {
    hash(parent + Encode(chunk))
  }

  // How many whole chunks there are, and what n of them hold.
  function Chunks(size: nat, step: nat): nat
    requires step > 0
  {
    if size < step then 0 else 1 + Chunks(size - step, step)
  }

  // n times step, by addition.
  function Times(n: nat, step: nat): nat { if n == 0 then 0 else Times(n - 1, step) + step }

  lemma {:induction false} TimesIsProduct(n: nat, step: nat)
    ensures Times(n, step) == n * step
  {
    if n > 0 {
      TimesIsProduct(n - 1, step);
      assert (n - 1) * step + step == n * step;
    }
  }

  lemma {:induction false} ChunksFit(size: nat, step: nat, n: nat)
    requires step > 0
    ensures n <= Chunks(size, step) <==> Times(n, step) <= size
  {
    if n > 0 && size >= step {
      ChunksFit(size - step, step, n - 1);
    } else if n > 0 {
      assert Times(n, step) >= step;
    }
  }

  // The keys of the whole chunks of tokens, each hashed onto the one before.
  function Chain(hash: Hash, step: nat, parent: Key, tokens: seq<Token>): (r: seq<Key>)
    requires step > 0
    ensures |r| == Chunks(|tokens|, step)
    decreases |tokens|
  {
    if |tokens| < step then []
    else
      var key := Digest(hash, parent, tokens[..step]);
      [key] + Chain(hash, step, key, tokens[step..])
  }

  function LastKey(parent: Key, keys: seq<Key>): Key {
    if keys == [] then parent else keys[|keys| - 1]
  }

  // The folding loop.
  method HashKeys(hash: Hash, step: nat, tokens: seq<Token>, start: nat, parent: Key)
    returns (keys: seq<Key>, last: Key)
    requires step > 0
    ensures keys == if start <= |tokens| then Chain(hash, step, parent, tokens[start..]) else []
    ensures last == LastKey(parent, keys)
  {
    hide Digest, Chain, Chunks;
    keys, last := [], parent;
    var i := start;
    while i + step <= |tokens|
      invariant i >= start && last == LastKey(parent, keys)
      invariant if i > |tokens| then i == start && keys == []
                else keys + Chain(hash, step, last, tokens[i..]) == Chain(hash, step, parent, tokens[start..])
      decreases |tokens| + step - i
    {
      assert tokens[i..][..step] == tokens[i..i + step] && tokens[i..][step..] == tokens[i + step..];
      ChainUnfolds(hash, step, last, tokens[i..]);
      ghost var rest := Chain(hash, step, Digest(hash, last, tokens[i..i + step]), tokens[i + step..]);
      last := Digest(hash, last, tokens[i..i + step]);
      assert keys + ([last] + rest) == keys + [last] + rest;
      keys := keys + [last];
      i := i + step;
    }
    if i <= |tokens| {
      ChainEnds(hash, step, last, tokens[i..]);
    }
  }

  lemma ChainEnds(hash: Hash, step: nat, parent: Key, tokens: seq<Token>)
    requires step > |tokens|
    ensures Chain(hash, step, parent, tokens) == []
  {
  }

  // Folding in two parts at a chunk boundary, carrying the parent, is folding
  // at once.
  lemma {:induction false} FoldInParts(hash: Hash, step: nat, parent: Key, tokens: seq<Token>, n: nat)
    requires step > 0 && Times(n, step) <= |tokens|
    ensures var m := Times(n, step);
            var first := Chain(hash, step, parent, tokens[..m]);
            Chain(hash, step, parent, tokens) == first + Chain(hash, step, LastKey(parent, first), tokens[m..])
    decreases n
  {
    hide Digest, Chain, Chunks;
    if n == 0 {
      assert tokens[..0] == [] && tokens[0..] == tokens;
      ChainEnds(hash, step, parent, []);
    } else {
      var m := Times(n - 1, step);
      var key, rest := Digest(hash, parent, tokens[..step]), tokens[step..];
      FoldInParts(hash, step, key, rest, n - 1);
      var front, tail := tokens[..m + step], Chain(hash, step, key, rest[..m]);
      FrontParts(tokens, step, m);
      ChainUnfolds(hash, step, parent, front);
      ChainUnfolds(hash, step, parent, tokens);
      LastOfLonger(parent, key, tail);
      var last := Chain(hash, step, LastKey(key, tail), rest[m..]);
      assert [key] + (tail + last) == [key] + tail + last;
    }
  }

  lemma FrontParts(tokens: seq<Token>, step: nat, m: nat)
    requires step + m <= |tokens|
    ensures var front, rest := tokens[..m + step], tokens[step..];
            front[..step] == tokens[..step] && front[step..] == rest[..m] && rest[m..] == tokens[m + step..]
  {
  }

  lemma LastOfLonger(parent: Key, key: Key, tail: seq<Key>)
    ensures LastKey(parent, [key] + tail) == LastKey(key, tail)
  {
  }

  lemma ChainUnfolds(hash: Hash, step: nat, parent: Key, tokens: seq<Token>)
    requires 0 < step <= |tokens|
    ensures var key := Digest(hash, parent, tokens[..step]);
            Chain(hash, step, parent, tokens) == [key] + Chain(hash, step, key, tokens[step..])
  {
    hide Digest;
  }

  // ---- a key stands for its whole prefix ----

  // What is hashed for each key of the chain.
  function Inputs(hash: Hash, step: nat, parent: Key, tokens: seq<Token>): (r: seq<seq<byte>>)
    requires step > 0
    ensures |r| == Chunks(|tokens|, step)
    decreases |tokens|
  {
    if |tokens| < step then []
    else
      [parent + Encode(tokens[..step])] + Inputs(hash, step, Digest(hash, parent, tokens[..step]), tokens[step..])
  }

  // None of the first n steps of two chains hash different inputs alike.
  ghost predicate NoCollision(hash: Hash, a: seq<seq<byte>>, b: seq<seq<byte>>, n: nat) {
    forall j :: 0 <= j < n && j < |a| && j < |b| && hash(a[j]) == hash(b[j]) ==> a[j] == b[j]
  }

  lemma {:induction false} EncodeInjective(a: seq<Token>, b: seq<Token>)
    requires |a| == |b| && Encode(a) == Encode(b)
    ensures a == b
  {
    hide LE.Bytes, LE.Value;
    if a != [] {
      var ea, eb := Encode(a), Encode(b);
      assert ea[..TOKEN_BYTES] == LE.Bytes(a[0], TOKEN_BYTES) && eb[..TOKEN_BYTES] == LE.Bytes(b[0], TOKEN_BYTES);
      assert ea[TOKEN_BYTES..] == Encode(a[1..]) && eb[TOKEN_BYTES..] == Encode(b[1..]);
      TokenFits(a[0]);
      TokenFits(b[0]);
      LE.BytesThenValue(a[0], TOKEN_BYTES);
      LE.BytesThenValue(b[0], TOKEN_BYTES);
      EncodeInjective(a[1..], b[1..]);
      assert a == [a[0]] + a[1..] && b == [b[0]] + b[1..];
    }
  }

  lemma TokenFits(t: Token)
    ensures t < LE.Span(TOKEN_BYTES)
  {
    LE.Spans();
  }

  lemma InputInjective(p: Key, a: seq<Token>, q: Key, b: seq<Token>)
    requires |a| == |b| && p + Encode(a) == q + Encode(b)
    ensures p == q && a == b
  {
    hide Encode;
    var left, right := p + Encode(a), q + Encode(b);
    assert p == left[..|left| - |Encode(a)|] && q == right[..|right| - |Encode(b)|];
    assert Encode(a) == left[|p|..] && Encode(b) == right[|q|..];
    EncodeInjective(a, b);
  }

  lemma InputsUnfold(hash: Hash, step: nat, parent: Key, tokens: seq<Token>)
    requires 0 < step <= |tokens|
    ensures Inputs(hash, step, parent, tokens) ==
            [parent + Encode(tokens[..step])] + Inputs(hash, step, Digest(hash, parent, tokens[..step]), tokens[step..])
  {
    hide Digest, Encode;
  }

  // Two token sequences agree on their i-th key exactly when they agree on the
  // whole prefix up to it, unless the two chains themselves hit a collision.
  lemma {:induction false} KeyIdentifiesPrefix(hash: Hash, step: nat, p: Key, a: seq<Token>, q: Key, b: seq<Token>,
                                               i: nat)
    requires step > 0 && Times(i + 1, step) <= |a| && Times(i + 1, step) <= |b|
    requires NoCollision(hash, Inputs(hash, step, p, a), Inputs(hash, step, q, b), i + 1)
    ensures i < |Chain(hash, step, p, a)| && i < |Chain(hash, step, q, b)|
    ensures Chain(hash, step, p, a)[i] == Chain(hash, step, q, b)[i] <==>
            p == q && a[..Times(i + 1, step)] == b[..Times(i + 1, step)]
    decreases i
  {
    hide Encode, Chain, Inputs, NoCollision, Chunks;
    ChunksFit(|a|, step, i + 1);
    ChunksFit(|b|, step, i + 1);
    ChainUnfolds(hash, step, p, a);
    ChainUnfolds(hash, step, q, b);
    InputsUnfold(hash, step, p, a);
    InputsUnfold(hash, step, q, b);
    var a0, b0, m := a[..step], b[..step], Times(i, step);
    var n := m + step;
    FirstInputs(hash, step, p, a, q, b, i);
    if Digest(hash, p, a0) == Digest(hash, q, b0) {
      InputInjective(p, a0, q, b0);
    }
    if i > 0 {
      KeyIdentifiesPrefix(hash, step, Digest(hash, p, a0), a[step..], Digest(hash, q, b0), b[step..], i - 1);
      SamePrefixes(a, b, step, n);
    }
  }

  // Prefixes agree if their two parts do.
  lemma SamePrefixes(a: seq<Token>, b: seq<Token>, m: nat, n: nat)
    requires m <= n <= |a| && n <= |b|
    ensures a[..n] == b[..n] <==> a[..m] == b[..m] && a[m..][..n - m] == b[m..][..n - m]
  {
    assert a[..n] == a[..m] + a[m..][..n - m] && b[..n] == b[..m] + b[m..][..n - m];
    assert a[..n][..m] == a[..m] && b[..n][..m] == b[..m];
    assert a[..n][m..] == a[m..][..n - m] && b[..n][m..] == b[m..][..n - m];
  }

  lemma FirstInputs(hash: Hash, step: nat, p: Key, a: seq<Token>, q: Key, b: seq<Token>, i: nat)
    requires 0 < step <= |a| && step <= |b|
    requires NoCollision(hash, Inputs(hash, step, p, a), Inputs(hash, step, q, b), i + 1)
    ensures Digest(hash, p, a[..step]) == Digest(hash, q, b[..step]) ==> p + Encode(a[..step]) == q + Encode(b[..step])
    ensures NoCollision(hash, Inputs(hash, step, Digest(hash, p, a[..step]), a[step..]),
                        Inputs(hash, step, Digest(hash, q, b[..step]), b[step..]), i)
  {
    hide Encode, Inputs;
    InputsUnfold(hash, step, p, a);
    InputsUnfold(hash, step, q, b);
    var left, right := Inputs(hash, step, p, a), Inputs(hash, step, q, b);
    assert left[0] == p + Encode(a[..step]) && right[0] == q + Encode(b[..step]);
    assert left[1..] == Inputs(hash, step, Digest(hash, p, a[..step]), a[step..]);
    assert right[1..] == Inputs(hash, step, Digest(hash, q, b[..step]), b[step..]);
  }

  // ---- wire keys ----

  datatype Wire = Wire(chunk: Key, layer: nat)

  function DeriveIoKey(chunk: Key, layer: nat): (r: Option<Key>)
    ensures r.Some? <==> |chunk| == KEY_BYTES && layer < LE.Span(LAYER_BYTES)
  {
    if |chunk| != KEY_BYTES || layer >= LE.Span(LAYER_BYTES) then None else Some(chunk + LE.Bytes(layer, LAYER_BYTES))
  }

  // Any nonempty key can be read: a short one is all chunk and layer 0.
  function DecodeIoKey(key: Key): (r: Option<Wire>)
    ensures r.Some? <==> key != []
  {
    if key == [] then None
    else if |key| <= KEY_BYTES then Some(Wire(key, 0))
    else Some(Wire(key[..KEY_BYTES], LE.Value(key[KEY_BYTES..])))
  }

  // Deriving and decoding are inverse on exactly the 18-byte keys.
  lemma IoKeyRoundTrip(chunk: Key, layer: nat, key: Key)
    ensures DeriveIoKey(chunk, layer).Some? ==> DecodeIoKey(DeriveIoKey(chunk, layer).value) == Some(Wire(chunk, layer))
    ensures (key != [] && DeriveIoKey(DecodeIoKey(key).value.chunk, DecodeIoKey(key).value.layer) == Some(key)) <==>
            |key| == KEY_BYTES + LAYER_BYTES
  {
    hide LE.Bytes, LE.Value;
    if DeriveIoKey(chunk, layer).Some? {
      LE.BytesThenValue(layer, LAYER_BYTES);
      var k := chunk + LE.Bytes(layer, LAYER_BYTES);
      assert k[..KEY_BYTES] == chunk && k[KEY_BYTES..] == LE.Bytes(layer, LAYER_BYTES);
    }
    if |key| == KEY_BYTES + LAYER_BYTES {
      LE.ValueThenBytes(key[KEY_BYTES..]);
      assert key == key[..KEY_BYTES] + key[KEY_BYTES..];
    }
  }
}
