// The staging ring: waves take runs of slots in rotation, and a wave that is
// about to be overwritten is waited for first.
module RingWindow {
  import opened Common

  // A completion handle, known by a number.
  type Event = nat

  datatype Geometry = Geometry(bufferBytes: nat, slots: nat, segment: nat, perWave: nat, base: nat) {
    // Every slot of the window lies in the buffer, and a wave fits the window.
    predicate Valid() {
      slots > 0 && segment > 0 && 0 < perWave <= slots && (base + slots) * segment <= bufferBytes
    }

    // Twice the wave capacity: two halves used in turn.
    predicate Halves() { slots == 2 * perWave }
  }

  // The constructor's arguments; without a wave capacity the window is split in
  // two halves.
  function Configure(bufferBytes: nat, slots: int, segment: int, perWave: Option<int>, base: int): (r: Option<Geometry>)
    ensures r.Some? ==> r.value.Valid() && (perWave.None? ==> r.value.Halves())
  {
    if slots <= 0 || base < 0 || segment <= 0 || bufferBytes < (base + slots) * segment then None
    else if perWave.None? then
      (if slots < 2 || slots % 2 != 0 then None else Some(Geometry(bufferBytes, slots, segment, slots / 2, base)))
    else if perWave.value <= 0 || perWave.value > slots then None
    else Some(Geometry(bufferBytes, slots, segment, perWave.value, base))
  }

  // Exactly the valid geometries can be built, and exactly those of two halves
  // without naming a capacity.
  lemma ConfigureExactly(g: Geometry)
    ensures g.Valid() <==> Configure(g.bufferBytes, g.slots, g.segment, Some(g.perWave), g.base) == Some(g)
    ensures g.Valid() && g.Halves() <==> Configure(g.bufferBytes, g.slots, g.segment, None, g.base) == Some(g)
  {
    assert (g.base + g.slots) * g.segment <= g.bufferBytes <==> !(g.bufferBytes < (g.base + g.slots) * g.segment);
  }

  datatype Ring = Ring(wave: int, cursor: nat, events: map<nat, Event>, live: map<nat, seq<nat>>)

  const EMPTY: Ring := Ring(-1, 0, map[], map[])

  // ---- which slots a wave gets ----

  function Rotate(start: nat, i: nat, n: nat): (r: nat)
    requires start < n && i < n
    ensures r < n
  {
    if start + i < n then start + i else start + i - n
  }

  function RunFrom(start: nat, n: nat): (s: seq<nat>)
    ensures |s| == n && forall i :: 0 <= i < n ==> s[i] == start + i
  {
    seq(n, i => start + i)
  }

  function Wrapped(base: nat, cursor: nat, slots: nat, n: nat): (s: seq<nat>)
    requires cursor < slots && n <= slots
    ensures |s| == n && forall i :: 0 <= i < n ==> s[i] == base + Rotate(cursor, i, slots)
  {
    seq(n, i requires 0 <= i < n => base + Rotate(cursor, i, slots))
  }

  function SlotsFor(g: Geometry, r: Ring, n: nat): (s: seq<nat>)
    requires g.Valid() && n <= g.perWave && r.cursor < g.slots && r.wave >= -1
    ensures |s| == n && forall i :: 0 <= i < n ==> g.base <= s[i] < g.base + g.slots
    ensures Distinct(s)
  {
    if g.Halves() then RunFrom(g.base + (if (r.wave + 1) % 2 == 0 then 0 else g.perWave), n)
    else Wrapped(g.base, r.cursor, g.slots, n)
  }

  predicate Overlaps(a: seq<nat>, b: seq<nat>) { exists x :: x in a && x in b }

  // The live waves that a set of slots runs into.
  function Hit(r: Ring, slots: seq<nat>): set<nat> { set w | w in r.live && Overlaps(slots, r.live[w]) }

  function HitBelow(r: Ring, slots: seq<nat>, n: nat): set<nat> { set w | w in Hit(r, slots) && w < n }

  datatype Acquired = Acquired(wave: nat, slots: seq<nat>)

  // The overwritten waves whose event can be waited for.
  function Waitable(r: Ring, slots: seq<nat>): set<nat> { set w | w in Hit(r, slots) && w in r.events }

  function WaitableBelow(r: Ring, slots: seq<nat>, n: nat): set<nat> { set w | w in Waitable(r, slots) && w < n }

  // The waves whose wait would raise.
  ghost function Raisers(r: Ring, slots: seq<nat>, wait: bool, raises: nat -> bool): set<nat> {
    set w | w in Waitable(r, slots) && wait && raises(w)
  }

  ghost predicate IsLeast(s: set<nat>, m: nat) { m in s && forall x :: x in s ==> m <= x }

  ghost function Least(s: set<nat>): (m: nat)
    requires s != {}
    ensures m in s && forall x :: x in s ==> m <= x
  {
    LeastExists(s);
    var m :| IsLeast(s, m);
    m
  }

  lemma {:induction false} LeastExists(s: set<nat>)
    requires s != {}
    ensures exists m :: IsLeast(s, m)
  {
    var y :| y in s;
    if s == {y} {
      assert IsLeast(s, y);
    } else {
      var rest := s - {y};
      assert s == rest + {y};
      LeastExists(rest);
      var m :| IsLeast(rest, m);
      LeastOfMore(rest, m, y);
    }
  }

  lemma LeastOfMore(rest: set<nat>, m: nat, y: nat)
    requires IsLeast(rest, m)
    ensures IsLeast(rest + {y}, if m < y then m else y)
  {
  }

  function NextCursor(g: Geometry, r: Ring, n: nat): (c: nat)
    requires g.Valid() && r.cursor < g.slots
    ensures c < g.slots
  {
    if g.Halves() then r.cursor else Rotate(r.cursor, n % g.slots, g.slots)
  }

  // The wave number and the cursor are taken first. A wait that raises leaves
  // the waves behind it, and its own wave without its event.
  ghost function Acquire(g: Geometry, r: Ring, n: nat, wait: bool, raises: nat -> bool): Ring
    requires g.Valid() && n <= g.perWave && r.cursor < g.slots && r.wave >= -1
  {
    var slots := SlotsFor(g, r, n);
    var hit, bad := Hit(r, slots), Raisers(r, slots, wait, raises);
    if bad == {} then Ring(r.wave + 1, NextCursor(g, r, n), r.events - hit, (r.live - hit)[r.wave + 1 := slots])
    else
      Ring(r.wave + 1, NextCursor(g, r, n),
           r.events - HitBelow(r, slots, Least(bad) + 1), r.live - HitBelow(r, slots, Least(bad)))
  }

  // The waves waited for: all with an event, up to the first that raises.
  ghost function WaitedFor(g: Geometry, r: Ring, n: nat, wait: bool, raises: nat -> bool): set<nat>
    requires g.Valid() && n <= g.perWave && r.cursor < g.slots && r.wave >= -1
  {
    var slots := SlotsFor(g, r, n);
    var bad := Raisers(r, slots, wait, raises);
    if !wait then {} else if bad == {} then Waitable(r, slots) else WaitableBelow(r, slots, Least(bad) + 1)
  }

  function Complete(r: Ring, wave: nat, event: Event): Ring {
    if wave in r.live then r.(events := r.events[wave := event]) else r
  }

  function Drain(r: Ring): Ring { r.(events := map[], live := map[]) }

  // ---- what every call keeps ----

  ghost predicate InRange(g: Geometry, s: seq<nat>) { forall i :: 0 <= i < |s| ==> g.base <= s[i] < g.base + g.slots }

  // Live waves hold pairwise disjoint slots of the window, and only live waves
  // have an event.
  ghost predicate Inv(g: Geometry, r: Ring) {
    && r.wave >= -1 && r.cursor < g.slots
    && (forall w :: w in r.live ==> w <= r.wave && InRange(g, r.live[w]) && Distinct(r.live[w]))
    && (forall v, w :: v in r.live && w in r.live && v != w ==> !Overlaps(r.live[v], r.live[w]))
    && (forall w :: w in r.events ==> w in r.live)
  }

  lemma OverlapsSymmetric(a: seq<nat>, b: seq<nat>)
    ensures Overlaps(a, b) <==> Overlaps(b, a)
  {
    if x :| x in a && x in b {
      assert x in b && x in a;
    }
    if x :| x in b && x in a {
      assert x in a && x in b;
    }
  }

  lemma AcquireKeeps(g: Geometry, r: Ring, n: nat, wait: bool, raises: nat -> bool)
    requires g.Valid() && Inv(g, r) && 1 <= n <= g.perWave
    ensures Inv(g, Acquire(g, r, n, wait, raises))
  {
    hide SlotsFor, Overlaps, Distinct, Raisers;
    var slots, r' := SlotsFor(g, r, n), Acquire(g, r, n, wait, raises);
    forall v, w | v in r'.live && w in r'.live && v != w
      ensures !Overlaps(r'.live[v], r'.live[w])
    {
      OverlapsSymmetric(r'.live[v], r'.live[w]);
    }
  }

  // A slot's place in the buffer; only the window's own slots have one.
  function SlotOffset(g: Geometry, slot: int): (r: Option<nat>)
    requires g.Valid()
    ensures r.Some? <==> g.base <= slot < g.base + g.slots
    ensures r.Some? ==> r.value + g.segment <= g.bufferBytes
  {
    if g.base <= slot < g.base + g.slots then
      Scaled(slot + 1, g.base + g.slots, g.segment);
      Some(slot * g.segment)
    else None
  }

  // Different slots never share a byte.
  lemma OffsetsDisjoint(g: Geometry, a: int, b: int)
    requires g.Valid() && a < b && SlotOffset(g, a).Some? && SlotOffset(g, b).Some?
    ensures SlotOffset(g, a).value + g.segment <= SlotOffset(g, b).value
  {
    Scaled(a + 1, b, g.segment);
  }

  lemma Scaled(a: nat, b: nat, each: nat)
    requires a <= b
    ensures a * each <= b * each
  {
  }

  // ---- two halves ----

  // With two halves the only live wave a new one can run into is the one
  // before last.
  function HalfStart(g: Geometry, wave: nat): nat { g.base + (if wave % 2 == 0 then 0 else g.perWave) }

  ghost predicate Alternating(g: Geometry, r: Ring) {
    forall w :: w in r.live ==>
      && w >= r.wave - 1 && r.live[w] != []
      && |r.live[w]| <= g.perWave && r.live[w] == RunFrom(HalfStart(g, w), |r.live[w]|)
  }

  lemma HalvesMeet(g: Geometry, r: Ring, n: nat, w: nat)
    requires g.Valid() && g.Halves() && Inv(g, r) && Alternating(g, r) && 1 <= n <= g.perWave && w in r.live
    ensures Overlaps(SlotsFor(g, r, n), r.live[w]) <==> w == r.wave - 1
  {
    hide Inv, RunFrom, Distinct;
    WaveRange(g, r, w);
    HalvesMeetIff(g, r.wave + 1, n, w, |r.live[w]|);
  }

  lemma WaveRange(g: Geometry, r: Ring, w: nat)
    requires Inv(g, r) && w in r.live
    ensures w <= r.wave
  {
  }

  // Two waves one apart use different halves; two apart, the same one.
  lemma HalvesMeetIff(g: Geometry, v: nat, n: nat, w: nat, m: nat)
    requires 0 < n <= g.perWave && 0 < m <= g.perWave && (w == v - 1 || w == v - 2)
    ensures Overlaps(RunFrom(HalfStart(g, v), n), RunFrom(HalfStart(g, w), m)) <==> w == v - 2
  {
    var a, b := RunFrom(HalfStart(g, v), n), RunFrom(HalfStart(g, w), m);
    assert forall x :: x in a ==> HalfStart(g, v) <= x < HalfStart(g, v) + g.perWave;
    assert forall x :: x in b ==> HalfStart(g, w) <= x < HalfStart(g, w) + g.perWave;
    assert w == v - 2 ==> a[0] == b[0] && a[0] in a && b[0] in b;
  }

  lemma HalvesCollide(g: Geometry, r: Ring, n: nat, wait: bool, raises: nat -> bool)
    requires g.Valid() && g.Halves() && Inv(g, r) && Alternating(g, r) && 1 <= n <= g.perWave
    ensures forall w :: w in Hit(r, SlotsFor(g, r, n)) <==> w in r.live && w == r.wave - 1
    ensures Raisers(r, SlotsFor(g, r, n), wait, raises) == {} ==> Alternating(g, Acquire(g, r, n, wait, raises))
  {
    hide Overlaps, Raisers;
    forall w | w in r.live
      ensures Overlaps(SlotsFor(g, r, n), r.live[w]) <==> w == r.wave - 1
    {
      HalvesMeet(g, r, n, w);
    }
  }

  // ---- every run ----

  datatype Call =
    | AcquireCall(n: nat, wait: bool, raises: nat -> bool)
    | CompleteCall(wave: nat, event: Event)
    | DrainCall

  ghost function Apply(g: Geometry, r: Ring, c: Call): Ring
    requires g.Valid() && r.cursor < g.slots && r.wave >= -1
  {
    match c
    case AcquireCall(n, wait, raises) => if 1 <= n <= g.perWave then Acquire(g, r, n, wait, raises) else r
    case CompleteCall(w, e) => Complete(r, w, e)
    case DrainCall => Drain(r)
  }

  // The waves whose events a call waits for.
  ghost function Waits(g: Geometry, r: Ring, c: Call): set<nat>
    requires g.Valid() && r.cursor < g.slots && r.wave >= -1
  {
    match c
    case AcquireCall(n, wait, raises) => if 1 <= n <= g.perWave then WaitedFor(g, r, n, wait, raises) else {}
    case CompleteCall(_, _) => {}
    case DrainCall => r.events.Keys
  }

  ghost predicate Raised(g: Geometry, r: Ring, c: Call)
    requires g.Valid() && r.cursor < g.slots && r.wave >= -1
  {
    c.AcquireCall? && 1 <= c.n <= g.perWave && Raisers(r, SlotsFor(g, r, c.n), c.wait, c.raises) != {}
  }

  // The states a run goes through, one more than calls.
  ghost predicate Run(g: Geometry, states: seq<Ring>, calls: seq<Call>)
    requires g.Valid()
  {
    && |states| == |calls| + 1 && states[0] == EMPTY
    && forall i :: 0 <= i < |calls| ==>
         states[i].cursor < g.slots && states[i].wave >= -1 && states[i + 1] == Apply(g, states[i], calls[i])
  }

  lemma ApplyKeeps(g: Geometry, r: Ring, c: Call)
    requires g.Valid() && Inv(g, r)
    ensures Inv(g, Apply(g, r, c))
    ensures g.Halves() && Alternating(g, r) && !Raised(g, r, c) ==> Alternating(g, Apply(g, r, c))
  {
    hide Inv, Alternating, Acquire, Raisers;
    InvFacts(g, r);
    match c {
      case AcquireCall(n, wait, raises) =>
        if 1 <= n <= g.perWave {
          AcquireKeeps(g, r, n, wait, raises);
          if g.Halves() && Alternating(g, r) {
            HalvesCollide(g, r, n, wait, raises);
          }
        }
      case CompleteCall(w, e) => CompleteKeeps(g, r, w, e);
      case DrainCall => DrainKeeps(g, r);
    }
  }

  // DISJOINT WAVES. After any calls, raising waits included, the live waves
  // hold disjoint slots of the window; as long as no wait has raised, a window
  // of two halves holds only the last two waves.
  lemma {:induction false} LiveWavesAreDisjoint(g: Geometry, states: seq<Ring>, calls: seq<Call>, k: nat)
    requires g.Valid() && Run(g, states, calls) && k <= |calls|
    ensures Inv(g, states[k])
    ensures g.Halves() && (forall i :: 0 <= i < k ==> !Raised(g, states[i], calls[i])) ==> Alternating(g, states[k])
  {
    if k == 0 {
      EmptyKeeps(g);
    } else {
      hide Inv, Alternating, Apply, Raised;
      LiveWavesAreDisjoint(g, states, calls, k - 1);
      ApplyKeeps(g, states[k - 1], calls[k - 1]);
    }
  }

  lemma EmptyKeeps(g: Geometry)
    requires g.Valid()
    ensures Inv(g, EMPTY) && Alternating(g, EMPTY)
  {
  }

  // An event leaves the table only in a call that waits for it.
  lemma NoSilentDrop(g: Geometry, r: Ring, c: Call, w: nat)
    requires g.Valid() && Inv(g, r) && w in r.events && (c.AcquireCall? ==> c.wait)
    ensures w in Apply(g, r, c).events || w in Waits(g, r, c)
  {
    hide SlotsFor, Overlaps, Distinct;
  }

  // OVERWRITE PROTECTION. Whatever happens in between, a wave that had a
  // completion event registered and is no longer live was waited for.
  lemma {:induction false} OverwrittenWasWaitedFor(g: Geometry, states: seq<Ring>, calls: seq<Call>, i: nat, k: nat,
                                                   w: nat)
    requires g.Valid() && Run(g, states, calls) && i <= k <= |calls|
    requires forall j :: 0 <= j < |calls| && calls[j].AcquireCall? ==> calls[j].wait
    requires w in states[i].events && w !in states[k].live
    ensures exists j :: i <= j < k && w in states[j].events && w in Waits(g, states[j], calls[j])
    decreases k - i
  {
    hide Apply, Waits;
    LiveWavesAreDisjoint(g, states, calls, i);
    assert i < k;
    NoSilentDrop(g, states[i], calls[i], w);
    if w in states[i + 1].events {
      OverwrittenWasWaitedFor(g, states, calls, i + 1, k, w);
    }
  }

  // A call waits in vain for a wave: the wait raises, the first to do so.
  ghost predicate WaitFails(g: Geometry, r: Ring, c: Call, w: nat)
    requires g.Valid() && r.cursor < g.slots && r.wave >= -1
  {
    Raised(g, r, c) && w == Least(Raisers(r, SlotsFor(g, r, c.n), c.wait, c.raises))
  }

  // LOSING AN EVENT, one call. A wave stays live and loses its event if and only
  // if the wait for it raised.
  lemma LosesEventIff(g: Geometry, r: Ring, c: Call, w: nat)
    requires g.Valid() && Inv(g, r) && w in r.events && (c.AcquireCall? ==> c.wait)
    ensures w in Apply(g, r, c).live && w !in Apply(g, r, c).events <==> WaitFails(g, r, c, w)
  {
    hide SlotsFor, Overlaps, Distinct;
  }

  // The next acquisition that overwrites such a wave does not wait for it.
  lemma RaisingWaitIsNotRepeated(g: Geometry, r: Ring, c: Call, w: nat, n: nat, raises: nat -> bool)
    requires g.Valid() && Inv(g, r) && c.AcquireCall? && c.wait && 1 <= n <= g.perWave && WaitFails(g, r, c, w)
    ensures var r' := Apply(g, r, c);
            && w in r'.live && w !in r'.events && r'.cursor < g.slots && r'.wave >= -1
            && w !in WaitedFor(g, r', n, true, raises)
  {
    hide SlotsFor, Overlaps, Distinct;
    ApplyKeeps(g, r, c);
    InvFacts(g, Apply(g, r, c));
  }

  lemma EventsComeFromComplete(g: Geometry, r: Ring, c: Call, w: nat)
    requires g.Valid() && Inv(g, r)
    ensures w !in r.events && w in Apply(g, r, c).events ==> c.CompleteCall? && c.wave == w
    ensures w in r.live && c.CompleteCall? && c.wave == w ==> w in Apply(g, r, c).events
    ensures w <= r.wave && w in Apply(g, r, c).live ==> w in r.live
    ensures w <= r.wave ==> w <= Apply(g, r, c).wave
  {
    hide SlotsFor, Overlaps, Distinct;
  }

  // Call j waited in vain for the wave, and nothing was registered since.
  ghost predicate LostAt(g: Geometry, states: seq<Ring>, calls: seq<Call>, w: nat, j: nat, k: nat)
    requires g.Valid() && Run(g, states, calls) && k <= |calls|
  {
    && j < k && w in states[j].events && WaitFails(g, states[j], calls[j], w)
    && forall l :: j < l < k ==> !(calls[l].CompleteCall? && calls[l].wave == w)
  }

  ghost predicate Lost(g: Geometry, states: seq<Ring>, calls: seq<Call>, w: nat, i: nat, k: nat)
    requires g.Valid() && Run(g, states, calls) && k <= |calls|
  {
    exists j :: i <= j && LostAt(g, states, calls, w, j, k)
  }

  // LOSING AN EVENT, over runs. A live wave that once had an event is without
  // one, and so will be overwritten without a wait, if and only if its own wait
  // raised and no event was registered for it since.
  lemma {:induction false} UnguardedIff(g: Geometry, states: seq<Ring>, calls: seq<Call>, i: nat, k: nat, w: nat)
    requires g.Valid() && Run(g, states, calls) && i <= k <= |calls|
    requires forall j :: 0 <= j < |calls| && calls[j].AcquireCall? ==> calls[j].wait
    requires w in states[i].events
    ensures w <= states[k].wave
    ensures w in states[k].live ==>
              (w !in states[k].events <==> Lost(g, states, calls, w, i, k))
    decreases k
  {
    hide Apply, WaitFails, Run;
    RunStep(g, states, calls, k);
    LiveWavesAreDisjoint(g, states, calls, i);
    if i < k {
      UnguardedIff(g, states, calls, i, k - 1, w);
      LiveWavesAreDisjoint(g, states, calls, k - 1);
      EventsComeFromComplete(g, states[k - 1], calls[k - 1], w);
      if w in states[k - 1].events {
        LosesEventIff(g, states[k - 1], calls[k - 1], w);
      }
      if w in states[k].live {
        LostNext(g, states, calls, i, k - 1, w);
      }
    }
  }

  lemma RunStep(g: Geometry, states: seq<Ring>, calls: seq<Call>, k: nat)
    requires g.Valid() && Run(g, states, calls) && k <= |calls|
    ensures |states| == |calls| + 1
    ensures k > 0 ==>
              && states[k - 1].cursor < g.slots && states[k - 1].wave >= -1
              && states[k] == Apply(g, states[k - 1], calls[k - 1])
  {
    hide Apply;
    assert k > 0 ==> states[k - 1 + 1] == states[k];
  }

  // What one more call adds to the record.
  lemma LostNext(g: Geometry, states: seq<Ring>, calls: seq<Call>, i: nat, k: nat, w: nat)
    requires g.Valid() && Run(g, states, calls) && i <= k < |calls|
    ensures Lost(g, states, calls, w, i, k + 1) <==>
              || (w in states[k].events && WaitFails(g, states[k], calls[k], w))
              || (!(calls[k].CompleteCall? && calls[k].wave == w) && Lost(g, states, calls, w, i, k))
  {
    hide Apply, WaitFails;
    var next := k + 1;
    if j :| i <= j && LostAt(g, states, calls, w, j, next) {
      if j < k {
        assert !(calls[k].CompleteCall? && calls[k].wave == w);
        assert LostAt(g, states, calls, w, j, k);
      }
    }
    if w in states[k].events && WaitFails(g, states[k], calls[k], w) {
      assert LostAt(g, states, calls, w, k, next);
    }
    if !(calls[k].CompleteCall? && calls[k].wave == w) {
      if j :| i <= j && LostAt(g, states, calls, w, j, k) {
        assert LostAt(g, states, calls, w, j, next);
      }
    }
  }

  // A run in which it happens, in every window of two halves: the wait for wave
  // 0 raises, the caller goes on, and two waves later the slots of wave 0 are
  // handed out again without a wait.
  lemma OverwrittenWithoutWait(g: Geometry, e: Event) returns (states: seq<Ring>, calls: seq<Call>)
    requires g.Valid() && g.Halves()
    ensures Run(g, states, calls) && |calls| == 6 && calls[1] == CompleteCall(0, e)
    ensures forall j :: 0 <= j < |calls| && calls[j].AcquireCall? ==> calls[j].wait
    ensures 0 in states[2].events && WaitFails(g, states[3], calls[3], 0)
    ensures 0 in states[5].live && 0 !in Waits(g, states[5], calls[5]) && 0 !in states[6].live
  {
    hide Apply, WaitFails, Waits;
    states, calls := LostStates(g, e), LostCalls(e);
    FirstCalls(g, e);
    LastCalls(g, e);
  }

  function LostCalls(e: Event): seq<Call> {
    var take, fail := AcquireCall(1, true, _ => false), AcquireCall(1, true, w => w == 0);
    [take, CompleteCall(0, e), take, fail, take, take]
  }

  function LostStates(g: Geometry, e: Event): seq<Ring> {
    var a, b := [g.base], [g.base + g.perWave];
    [EMPTY, Ring(0, 0, map[], map[0 := a]), Ring(0, 0, map[0 := e], map[0 := a]),
     Ring(1, 0, map[0 := e], map[0 := a, 1 := b]), Ring(2, 0, map[], map[0 := a, 1 := b]),
     Ring(3, 0, map[], map[0 := a, 3 := b]), Ring(4, 0, map[], map[4 := a, 3 := b])]
  }

  lemma FirstCalls(g: Geometry, e: Event)
    requires g.Valid() && g.Halves()
    ensures var states, calls := LostStates(g, e), LostCalls(e);
            && Apply(g, states[0], calls[0]) == states[1] && Apply(g, states[1], calls[1]) == states[2]
            && Apply(g, states[2], calls[2]) == states[3]
            && WaitFails(g, states[3], calls[3], 0) && Apply(g, states[3], calls[3]) == states[4]
  {
    hide Acquire, WaitFails;
    var states := LostStates(g, e);
    Takes(g, states[0], {}, states[1]);
    Takes(g, states[2], {}, states[3]);
    FailsOn(g, states[3]);
  }

  lemma LastCalls(g: Geometry, e: Event)
    requires g.Valid() && g.Halves()
    ensures var states, calls := LostStates(g, e), LostCalls(e);
            && Apply(g, states[4], calls[4]) == states[5] && Apply(g, states[5], calls[5]) == states[6]
            && Waits(g, states[5], calls[5]) == {}
  {
    hide Acquire, WaitedFor;
    var states := LostStates(g, e);
    Takes(g, states[4], {1}, states[5]);
    Takes(g, states[5], {0}, states[6]);
  }

  // One slot at the start of the next half.
  function HalfSlot(g: Geometry, r: Ring): seq<nat>
    requires r.wave >= -1
  {
    [HalfStart(g, r.wave + 1)]
  }

  lemma Singles(x: nat, y: nat)
    ensures Overlaps([x], [y]) <==> x == y
  {
    assert x == y ==> x in [x] && x in [y];
  }

  lemma HalfHit(g: Geometry, r: Ring, hit: set<nat>)
    requires g.Valid() && g.Halves() && r.wave >= -1 && r.cursor < g.slots && hit <= r.live.Keys
    requires forall w :: w in r.live ==> |r.live[w]| == 1 && (w in hit <==> r.live[w] == HalfSlot(g, r))
    ensures SlotsFor(g, r, 1) == HalfSlot(g, r) && Hit(r, SlotsFor(g, r, 1)) == hit
  {
    hide Overlaps;
    assert RunFrom(HalfStart(g, r.wave + 1), 1) == HalfSlot(g, r);
    forall w | w in r.live
      ensures Overlaps(HalfSlot(g, r), r.live[w]) <==> w in hit
    {
      Singles(HalfStart(g, r.wave + 1), r.live[w][0]);
      assert r.live[w] == [r.live[w][0]];
    }
  }

  // An acquisition of one slot whose waits succeed.
  lemma Takes(g: Geometry, r: Ring, hit: set<nat>, r': Ring)
    requires g.Valid() && g.Halves() && r.wave >= -1 && r.cursor < g.slots && hit <= r.live.Keys && hit !! r.events.Keys
    requires forall w :: w in r.live ==> |r.live[w]| == 1 && (w in hit <==> r.live[w] == HalfSlot(g, r))
    requires r' == Ring(r.wave + 1, r.cursor, r.events, (r.live - hit)[r.wave + 1 := HalfSlot(g, r)])
    ensures Apply(g, r, AcquireCall(1, true, _ => false)) == r' && WaitedFor(g, r, 1, true, _ => false) == {}
  {
    hide SlotsFor, Hit;
    HalfHit(g, r, hit);
    assert r.events - hit == r.events;
  }

  // The wait for wave 0 raises.
  lemma FailsOn(g: Geometry, r: Ring)
    requires g.Valid() && g.Halves() && r.wave == 1 && r.cursor < g.slots
    requires r.live == map[0 := [g.base], 1 := [g.base + g.perWave]] && r.events.Keys == {0}
    ensures var c := AcquireCall(1, true, w => w == 0);
            WaitFails(g, r, c, 0) && Apply(g, r, c) == Ring(2, r.cursor, map[], r.live)
  {
    hide SlotsFor, Hit;
    HalfHit(g, r, {0});
    var slots := SlotsFor(g, r, 1);
    assert Raisers(r, slots, true, w => w == 0) == {0};
    assert HitBelow(r, slots, 0) == {} && HitBelow(r, slots, 1) == {0};
    assert r.events - {0} == map[] && r.live - {} == r.live;
  }

  lemma CompleteKeeps(g: Geometry, r: Ring, w: nat, e: Event)
    requires Inv(g, r)
    ensures Inv(g, Complete(r, w, e)) && (Alternating(g, r) ==> Alternating(g, Complete(r, w, e)))
  {
    hide Overlaps, Distinct;
  }

  lemma DrainKeeps(g: Geometry, r: Ring)
    requires Inv(g, r)
    ensures Inv(g, Drain(r)) && Alternating(g, Drain(r))
  {
    hide Overlaps, Distinct;
  }

  // ---- the window object ----

  class Window {
    const g: Geometry
    var wave: int
    var cursor: nat
    var events: map<nat, Event>
    var live: map<nat, seq<nat>>

    function View(): Ring
      reads this
    {
      Ring(wave, cursor, events, live)
    }

    constructor (g: Geometry)
      requires g.Valid()
      ensures this.g == g && View() == EMPTY
    {
      this.g := g;
      wave, cursor, events, live := -1, 0, map[], map[];
    }

    // Waits, oldest first, for every registered event of a wave it overwrites
    // (unless told not to), before the slots are handed out. None: bad count,
    // or a wait raised.
    method AcquireSlots(n: nat, wait: bool, raises: nat -> bool) returns (got: Option<Acquired>, waited: set<nat>)
      requires g.Valid() && Inv(g, View())
      modifies this
      ensures Inv(g, View())
      ensures !(1 <= n <= g.perWave) ==> got.None? && View() == old(View()) && waited == {}
      ensures 1 <= n <= g.perWave ==> View() == Acquire(g, old(View()), n, wait, raises)
      ensures 1 <= n <= g.perWave ==> waited == WaitedFor(g, old(View()), n, wait, raises)
      ensures 1 <= n <= g.perWave ==>
                got == if Raisers(old(View()), SlotsFor(g, old(View()), n), wait, raises) != {} then None
                       else Some(Acquired(old(wave) + 1, SlotsFor(g, old(View()), n)))
    {
      hide SlotsFor, Overlaps, Inv;
      waited := {};
      if n < 1 || n > g.perWave {
        return None, waited;
      }
      InvFacts(g, View());
      AcquireKeeps(g, View(), n, wait, raises);
      ghost var before := View();
      var slots := SlotsFor(g, View(), n);
      wave, cursor := wave + 1, NextCursor(g, View(), n);
      var raised: bool;
      raised, waited := Evict(slots, wait, raises, before);
      if raised {
        return None, waited;
      }
      live := live[wave := slots];
      return Some(Acquired(wave, slots)), waited;
    }

    // The loop over old waves.
    method Evict(slots: seq<nat>, wait: bool, raises: nat -> bool, ghost before: Ring)
      returns (raised: bool, waited: set<nat>)
      requires live == before.live && events == before.events && wave == before.wave + 1 && wave >= 0
      requires forall w :: w in live ==> w < wave
      modifies this`events, this`live
      ensures var bad := Raisers(before, slots, wait, raises);
              && raised == (bad != {})
              && live == before.live - (if raised then HitBelow(before, slots, Least(bad)) else Hit(before, slots))
              && events ==
                 before.events - (if raised then HitBelow(before, slots, Least(bad) + 1) else Hit(before, slots))
              && waited == (if !wait then {} else if raised then WaitableBelow(before, slots, Least(bad) + 1)
                            else Waitable(before, slots))
    {
      hide Overlaps, Hit, HitBelow, Least, Waitable, WaitableBelow, Raisers;
      NothingBelow(before, slots);
      raised, waited := false, {};
      for w := 0 to wave
        invariant live == before.live - HitBelow(before, slots, w) &&
                  events == before.events - HitBelow(before, slots, w)
        invariant forall v :: v in Raisers(before, slots, wait, raises) ==> v >= w
        invariant waited == if !wait then {} else WaitableBelow(before, slots, w)
      {
        HitNext(before, slots, w);
        HitIff(before, slots, w);
        WaitableNext(before, slots, w);
        RaiserIff(before, slots, wait, raises, w);
        if w in live {
          var meets := Meets(slots, live[w]);
          if meets {
            var stale := if w in events then Some(events[w]) else None;
            events := events - {w};
            if stale.Some? && wait {
              waited := waited + {w};
              if raises(w) {
                return true, waited;
              }
            }
            live := live - {w};
          }
        }
      }
      HitAll(before, slots, wave);
    }

    method CompleteWave(w: nat, event: Event) returns (ok: bool)
      requires Inv(g, View())
      modifies this`events
      ensures Inv(g, View()) && View() == Complete(old(View()), w, event)
      ensures ok == (w <= wave && w in live)
    {
      hide Overlaps, Distinct;
      CompleteKeeps(g, View(), w, event);
      if w > wave || w !in live {
        return false;
      }
      events := events[w := event];
      return true;
    }

    // Every wait is made, whatever the others did; the first error comes out at
    // the end.
    method DrainAll(raises: nat -> bool) returns (failed: bool, waited: set<nat>)
      requires Inv(g, View())
      modifies this`events, this`live
      ensures Inv(g, View()) && View() == Drain(old(View())) && waited == old(events).Keys
      ensures failed <==> exists w :: w in old(events) && raises(w)
    {
      hide Overlaps, Distinct;
      DrainKeeps(g, View());
      failed, waited := false, {};
      while events != map[]
        invariant waited == old(events).Keys - events.Keys && events.Keys <= old(events).Keys
        invariant failed <==> exists w :: w in waited && raises(w)
        decreases events.Keys
      {
        var w :| w in events;
        waited := waited + {w};
        if raises(w) {
          failed := true;
        }
        events, live := events - {w}, live - {w};
      }
      live := map[];
    }
  }

  method Meets(a: seq<nat>, b: seq<nat>) returns (found: bool)
    ensures found == Overlaps(a, b)
  {
    for i := 0 to |a|
      invariant forall j :: 0 <= j < i ==> a[j] !in b
    {
      if a[i] in b {
        return true;
      }
    }
    return false;
  }

  lemma HitIff(r: Ring, slots: seq<nat>, w: nat)
    ensures w in Hit(r, slots) <==> w in r.live && Overlaps(slots, r.live[w])
  {
  }

  lemma HitNext(r: Ring, slots: seq<nat>, n: nat)
    ensures HitBelow(r, slots, n + 1) == HitBelow(r, slots, n) + (if n in Hit(r, slots) then {n} else {})
  {
  }

  lemma NothingBelow(r: Ring, slots: seq<nat>)
    ensures HitBelow(r, slots, 0) == {} && WaitableBelow(r, slots, 0) == {}
  {
  }

  lemma WaitableNext(r: Ring, slots: seq<nat>, n: nat)
    ensures WaitableBelow(r, slots, n + 1) ==
            WaitableBelow(r, slots, n) + (if n in Hit(r, slots) && n in r.events then {n} else {})
    ensures n !in HitBelow(r, slots, n)
  {
  }

  lemma RaiserIff(r: Ring, slots: seq<nat>, wait: bool, raises: nat -> bool, w: nat)
    ensures w in Raisers(r, slots, wait, raises) <==> w in Hit(r, slots) && w in r.events && wait && raises(w)
  {
  }

  lemma HitAll(r: Ring, slots: seq<nat>, n: nat)
    requires forall w :: w in r.live ==> w < n
    ensures HitBelow(r, slots, n) == Hit(r, slots) && WaitableBelow(r, slots, n) == Waitable(r, slots)
    ensures forall wait, raises, w :: w in Raisers(r, slots, wait, raises) ==> w < n
  {
  }

  lemma InvFacts(g: Geometry, r: Ring)
    requires Inv(g, r)
    ensures r.wave >= -1 && r.cursor < g.slots && forall w :: w in r.live ==> w <= r.wave
  {
  }
}
