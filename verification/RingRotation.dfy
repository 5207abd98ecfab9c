// Waves go round the window: the slots ever taken are the window's slots over
// and over, in order, so a wave is met again only once the window is used up.
module RingRotation {
  import opened Common
  import opened RingWindow

  // ---- arithmetic of going round ----

  function Mod(a: nat, n: nat): (r: nat)
    requires n > 0
    ensures r < n
  {
    a % n
  }

  lemma RotateIsModulo(start: nat, i: nat, n: nat)
    requires start < n && i < n
    ensures Rotate(start, i, n) == Mod(start + i, n)
  {
    hide Mod;
    if start + i < n {
      ModuloStep(0, start + i, n);
    } else {
      ModuloStep(1, start + i - n, n);
    }
  }

  lemma ModuloStep(q: int, r: nat, n: nat)
    requires r < n && q * n + r >= 0
    ensures Mod(q * n + r, n) == r
  {
    var x := q * n + r;
    var d := x / n - q;
    assert x == x / n * n + x % n;
    assert x / n * n == (q + d) * n == q * n + d * n;
    assert (d > 0 ==> d * n >= n) && (d < 0 ==> d * n + n <= 0);
  }

  lemma ModuloAdd(a: nat, i: nat, n: nat)
    requires n > 0
    ensures Mod(Mod(a, n) + i, n) == Mod(a + i, n)
  {
    var q, r := (a % n + i) / n, (a % n + i) % n;
    assert a == a / n * n + a % n && a % n + i == q * n + r;
    assert a + i == (a / n + q) * n + r by {
      assert (a / n + q) * n == a / n * n + q * n;
    }
    ModuloStep(a / n + q, r, n);
  }

  lemma ModuloApart(a: nat, b: nat, n: nat)
    requires a < b < a + n
    ensures Mod(a, n) != Mod(b, n)
  {
    var d := b / n - a / n;
    assert a == a / n * n + a % n && b == b / n * n + b % n;
    assert b - a == d * n + b % n - a % n by {
      assert b / n * n - a / n * n == d * n;
    }
    assert (d >= 1 ==> d * n >= n) && (d <= 0 ==> d * n <= 0);
  }

  lemma NoRemainder(n: nat)
    requires n > 0
    ensures Mod(0, n) == 0
  {
  }

  lemma Sane(g: Geometry)
    requires g.Valid()
    ensures 0 < g.perWave <= g.slots
  {
  }

  // ---- over runs ----

  // Slots taken by the first k calls, waves that raised included.
  ghost function Taken(g: Geometry, calls: seq<Call>, k: nat): nat
    requires k <= |calls|
  {
    if k == 0 then 0 else Taken(g, calls, k - 1) + (if Acquires(g, calls[k - 1]) then calls[k - 1].n else 0)
  }

  ghost predicate Acquires(g: Geometry, c: Call) { c.AcquireCall? && 1 <= c.n <= g.perWave }

  lemma TakenGrows(g: Geometry, calls: seq<Call>, i: nat, k: nat)
    requires i < k <= |calls| && Acquires(g, calls[i])
    ensures Taken(g, calls, i) + calls[i].n <= Taken(g, calls, k)
  {
    if i + 1 < k {
      TakenGrows(g, calls, i, k - 1);
    }
  }

  // In every run of a window that is not split in halves the cursor is where
  // the slots taken so far have brought it.
  lemma {:induction false} CursorGoesRound(g: Geometry, states: seq<Ring>, calls: seq<Call>, k: nat)
    requires g.Valid() && !g.Halves() && Run(g, states, calls) && k <= |calls|
    ensures states[k].cursor == Mod(Taken(g, calls, k), g.slots)
  {
    hide Run, Apply, Mod, Geometry.Valid;
    Sane(g);
    RunStep(g, states, calls, k);
    if k == 0 {
      FirstState(g, states, calls);
      NoRemainder(g.slots);
    } else {
      CursorGoesRound(g, states, calls, k - 1);
      CursorStep(g, states[k - 1], calls[k - 1]);
      if Acquires(g, calls[k - 1]) {
        ModuloAdd(Taken(g, calls, k - 1), calls[k - 1].n, g.slots);
      }
    }
  }

  lemma FirstState(g: Geometry, states: seq<Ring>, calls: seq<Call>)
    requires g.Valid() && Run(g, states, calls)
    ensures |states| > 0 && states[0].cursor == 0 && states[0].wave == -1
  {
  }

  lemma CursorStep(g: Geometry, r: Ring, c: Call)
    requires g.Valid() && !g.Halves() && r.cursor < g.slots && r.wave >= -1
    ensures Apply(g, r, c).cursor == if Acquires(g, c) then Mod(r.cursor + c.n, g.slots) else r.cursor
  {
    hide SlotsFor, Hit, Raisers, Mod, NextCursor;
    if Acquires(g, c) {
      CursorAfter(g, r, c.n);
    }
  }

  lemma CursorAfter(g: Geometry, r: Ring, n: nat)
    requires g.Valid() && !g.Halves() && r.cursor < g.slots && n <= g.slots
    ensures NextCursor(g, r, n) == Mod(r.cursor + n, g.slots)
  {
    if n < g.slots {
      ModuloStep(0, n, g.slots);
      RotateIsModulo(r.cursor, n, g.slots);
    } else {
      ModuloStep(1, 0, g.slots);
      ModuloStep(1, r.cursor, g.slots);
    }
  }

  // ROTATION. In every run the slots handed out, counted from the first wave
  // on, are the slots of the window in order, over and over.
  lemma SlotsGoRound(g: Geometry, states: seq<Ring>, calls: seq<Call>, k: nat, i: nat)
    requires g.Valid() && !g.Halves() && Run(g, states, calls) && k < |calls| && Acquires(g, calls[k])
    requires i < calls[k].n
    ensures states[k].cursor < g.slots && states[k].wave >= -1
    ensures SlotsFor(g, states[k], calls[k].n)[i] == g.base + Mod(Taken(g, calls, k) + i, g.slots)
  {
    hide Run, Mod, Rotate;
    RunStep(g, states, calls, k + 1);
    CursorGoesRound(g, states, calls, k);
    RotateIsModulo(states[k].cursor, i, g.slots);
    ModuloAdd(Taken(g, calls, k), i, g.slots);
  }

  // Two waves meet only once the window has been gone round: no slot of an
  // earlier wave is handed out while the slots taken since fit beside it.
  lemma MetOnlyAfterARound(g: Geometry, states: seq<Ring>, calls: seq<Call>, i: nat, k: nat)
    requires g.Valid() && !g.Halves() && Run(g, states, calls) && i < k < |calls|
    requires Acquires(g, calls[i]) && Acquires(g, calls[k])
    requires Taken(g, calls, k) + calls[k].n - Taken(g, calls, i) <= g.slots
    ensures states[i].cursor < g.slots && states[i].wave >= -1 && states[k].cursor < g.slots && states[k].wave >= -1
    ensures !Overlaps(SlotsFor(g, states[i], calls[i].n), SlotsFor(g, states[k], calls[k].n))
  {
    hide Run, SlotsFor, Taken, Geometry.Valid;
    RunStep(g, states, calls, i + 1);
    RunStep(g, states, calls, k + 1);
    var a, b := SlotsFor(g, states[i], calls[i].n), SlotsFor(g, states[k], calls[k].n);
    forall x, y | 0 <= x < |a| && 0 <= y < |b|
      ensures a[x] != b[y]
    {
      SlotsApart(g, states, calls, i, x, k, y);
    }
  }

  lemma SlotsApart(g: Geometry, states: seq<Ring>, calls: seq<Call>, i: nat, x: nat, k: nat, y: nat)
    requires g.Valid() && !g.Halves() && Run(g, states, calls) && i < k < |calls|
    requires Acquires(g, calls[i]) && Acquires(g, calls[k]) && x < calls[i].n && y < calls[k].n
    requires Taken(g, calls, k) + calls[k].n - Taken(g, calls, i) <= g.slots
    ensures states[i].cursor < g.slots && states[i].wave >= -1 && states[k].cursor < g.slots && states[k].wave >= -1
    ensures SlotsFor(g, states[i], calls[i].n)[x] != SlotsFor(g, states[k], calls[k].n)[y]
  {
    hide Run, SlotsFor, Taken, Mod, Geometry.Valid;
    TakenGrows(g, calls, i, k);
    SlotsGoRound(g, states, calls, i, x);
    SlotsGoRound(g, states, calls, k, y);
    ModuloApart(Taken(g, calls, i) + x, Taken(g, calls, k) + y, g.slots);
  }

  // ---- two halves ----

  ghost function Waves(g: Geometry, calls: seq<Call>, k: nat): nat
    requires k <= |calls|
  {
    if k == 0 then 0 else Waves(g, calls, k - 1) + (if Acquires(g, calls[k - 1]) then 1 else 0)
  }

  // In every run wave numbers count the acquisitions; with two halves the
  // waves use them in turn, from the start of the half.
  lemma {:induction false} WavesAreCounted(g: Geometry, states: seq<Ring>, calls: seq<Call>, k: nat)
    requires g.Valid() && Run(g, states, calls) && k <= |calls|
    ensures states[k].wave == Waves(g, calls, k) - 1 && states[k].cursor < g.slots
    ensures g.Halves() ==>
              forall n :: 0 <= n <= g.perWave ==>
                SlotsFor(g, states[k], n) == RunFrom(HalfStart(g, Waves(g, calls, k)), n)
  {
    hide Run, Acquire, RunFrom;
    RunStep(g, states, calls, k);
    FirstState(g, states, calls);
    if k > 0 {
      WavesAreCounted(g, states, calls, k - 1);
      WaveStep(g, states[k - 1], calls[k - 1]);
    }
  }

  lemma WaveStep(g: Geometry, r: Ring, c: Call)
    requires g.Valid() && r.cursor < g.slots && r.wave >= -1
    ensures Apply(g, r, c).wave == r.wave + (if Acquires(g, c) then 1 else 0) && Apply(g, r, c).cursor < g.slots
  {
    hide SlotsFor, Hit, Raisers, NextCursor;
  }

  // ---- what a wave gets ----

  // A successful acquisition makes its wave live on its slots; every wave it
  // does not meet stays as it was, event included, and every wave it meets is
  // gone. One whose wait raises adds no wave.
  lemma AcquireEffect(g: Geometry, r: Ring, n: nat, wait: bool, raises: nat -> bool, w: nat)
    requires g.Valid() && Inv(g, r) && 1 <= n <= g.perWave
    ensures var slots, r' := SlotsFor(g, r, n), Acquire(g, r, n, wait, raises);
            var ok := Raisers(r, slots, wait, raises) == {};
            && (ok <==> r.wave + 1 in r'.live)
            && (ok ==> r'.live[r.wave + 1] == slots && r.wave + 1 !in r'.events)
            && (w in r.live && !Overlaps(slots, r.live[w]) ==> w in r'.live && r'.live[w] == r.live[w])
            && (w in r.events && !Overlaps(slots, r.live[w]) ==> w in r'.events && r'.events[w] == r.events[w])
            && (w in r.live && Overlaps(slots, r.live[w]) && ok ==> w !in r'.live && w !in r'.events)
  {
    hide SlotsFor, Overlaps, Distinct, Raisers, Least;
  }
}
