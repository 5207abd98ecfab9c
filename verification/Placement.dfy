// Slot number -> media location. Slots rotate over the mounts; each mount
// packs a fixed number of its slots into numbered segment files.
module Placement {
  import opened Common

  datatype Geometry = Geometry(
    mounts: seq<string>, rank: nat, slotBytes: nat, slotsPerFile: nat, headerBytes: nat
  ) {
    ghost predicate Valid() {
      && mounts != [] && (forall i :: 0 <= i < |mounts| ==> mounts[i] != "")
      && slotsPerFile > 0 && 0 < headerBytes <= slotBytes
    }

    function FileBytes(): nat { slotsPerFile * slotBytes }

    function Device(slot: nat): (r: nat)
      requires mounts != []
      ensures r < |mounts|
    {
      slot % |mounts|
    }

    function FileId(slot: nat): nat
      requires mounts != [] && slotsPerFile > 0
    {
      slot / |mounts| / slotsPerFile
    }

    // Position of the slot inside its file.
    function Position(slot: nat): (r: nat)
      requires mounts != [] && slotsPerFile > 0
      ensures r < slotsPerFile
    {
      slot / |mounts| % slotsPerFile
    }

    function HeaderOffset(slot: nat): nat
      requires mounts != [] && slotsPerFile > 0
    {
      Position(slot) * slotBytes
    }

    function PayloadOffset(slot: nat): nat
      requires mounts != [] && slotsPerFile > 0
    {
      HeaderOffset(slot) + headerBytes
    }

    // What the header leaves of a slot.
    function PayloadBytes(): int { slotBytes - headerBytes }

    function Subdir(): string { "r" + Decimal(rank) + "/segments" }

    function Path(slot: nat): string
      requires mounts != [] && slotsPerFile > 0
    {
      Join(Join(mounts[Device(slot)], Subdir()), Decimal(FileId(slot)) + ".seg")
    }

    function GroupSlots(): nat { slotsPerFile * |mounts| }
  }

  function Join(dir: string, leaf: string): string {
    if dir == "" then leaf
    else if dir[|dir| - 1] == '/' then dir + leaf
    else dir + "/" + leaf
  }

  // ---- decimal file numbers ----

  function Digit(n: nat): (c: char)
    requires n < 10
    ensures '0' <= c <= '9' && c != '/'
  {
    '0' + n as char
  }

  function Decimal(n: nat): (r: string)
    ensures r != "" && forall c :: c in r ==> c != '/'
  {
    if n < 10 then [Digit(n)] else Decimal(n / 10) + [Digit(n % 10)]
  }

  lemma {:induction false} DecimalInjective(a: nat, b: nat)
    requires Decimal(a) == Decimal(b)
    ensures a == b
    decreases a
  {
    var last := |Decimal(a)| - 1;
    assert Decimal(a)[last] == Digit(a % 10) && Decimal(b)[last] == Digit(b % 10);
    assert (a >= 10 <==> last > 0) && (b >= 10 <==> last > 0);
    if a >= 10 {
      assert Decimal(a)[..last] == Decimal(a / 10) && Decimal(b)[..last] == Decimal(b / 10);
      DecimalInjective(a / 10, b / 10);
    }
  }

  // ---- when two slots share a file ----

  // A mount with the separator that joining adds.
  function Normal(mount: string): string {
    if mount != "" && mount[|mount| - 1] == '/' then mount else mount + "/"
  }

  lemma SplitAtLastSlash(a: string, l: string, b: string, m: string)
    requires a + "/" + l == b + "/" + m
    requires '/' !in l && '/' !in m
    ensures a == b && l == m
  {
    var s := a + "/" + l;
    assert s[|a|] == '/' && s[|b|] == '/';
    assert forall i :: |a| < i < |s| ==> s[i] == l[i - |a| - 1] && s[i] != '/';
    assert forall i :: |b| < i < |s| ==> s[i] == m[i - |b| - 1] && s[i] != '/';
    assert |a| == |b|;
    assert a == s[..|a|] && b == s[..|b|] && l == s[|a| + 1..] && m == s[|b| + 1..];
  }

  lemma SamePathIff(g: Geometry, a: nat, b: nat)
    requires g.Valid()
    ensures g.Path(a) == g.Path(b) <==>
            g.FileId(a) == g.FileId(b) && Normal(g.mounts[g.Device(a)]) == Normal(g.mounts[g.Device(b)])
  {
    hide Decimal;
    var ma, mb := Normal(g.mounts[g.Device(a)]), Normal(g.mounts[g.Device(b)]);
    var la, lb := Decimal(g.FileId(a)) + ".seg", Decimal(g.FileId(b)) + ".seg";
    PathForm(g, a);
    PathForm(g, b);
    if g.Path(a) == g.Path(b) {
      SplitAtLastSlash(ma + g.Subdir(), la, mb + g.Subdir(), lb);
      var n, k := |la| - 4, |g.Subdir()|;
      assert Decimal(g.FileId(a)) == la[..n] && Decimal(g.FileId(b)) == lb[..n];
      DecimalInjective(g.FileId(a), g.FileId(b));
      assert ma == (ma + g.Subdir())[..|ma|] && mb == (mb + g.Subdir())[..|mb|];
    }
  }

  lemma PathForm(g: Geometry, slot: nat)
    requires g.Valid()
    ensures g.Path(slot) ==
            Normal(g.mounts[g.Device(slot)]) + g.Subdir() + "/" + (Decimal(g.FileId(slot)) + ".seg")
  {
    hide Decimal;
    var mount := g.mounts[g.Device(slot)];
    var dir := Join(mount, g.Subdir());
    assert dir == Normal(mount) + g.Subdir();
    assert g.Subdir()[|g.Subdir()| - 1] == 's';
    assert dir[|dir| - 1] == 's';
  }

  // ---- arithmetic of the layout ----

  lemma TimesOrder(i: nat, j: nat, each: nat)
    requires i < j
    ensures i * each + each <= j * each
  {
    assert (i + 1) * each <= j * each;
  }

  lemma DivisionForm(n: nat, k: nat)
    requires k > 0
    ensures n == n / k * k + n % k
  {
  }

  // The slot at a given device, file and position: the inverse of placement.
  function SlotAt(g: Geometry, device: nat, file: nat, position: nat): nat {
    (file * g.slotsPerFile + position) * |g.mounts| + device
  }

  lemma DivModOfForm(q: nat, r: nat, k: nat)
    requires r < k
    ensures (q * k + r) / k == q && (q * k + r) % k == r
  {
    DivisionForm(q * k + r, k);
    var d := (q * k + r) / k - q;
    assert d * k == r - (q * k + r) % k by {
      assert (q * k + r) / k * k - q * k == d * k;
    }
    assert (d > 0 ==> d * k >= k) && (d < 0 ==> d * k + k <= 0);
  }

  lemma PlacementIsBijective(g: Geometry, slot: nat, device: nat, file: nat, position: nat)
    requires g.Valid() && device < |g.mounts| && position < g.slotsPerFile
    ensures SlotAt(g, g.Device(slot), g.FileId(slot), g.Position(slot)) == slot
    ensures var s := SlotAt(g, device, file, position);
            g.Device(s) == device && g.FileId(s) == file && g.Position(s) == position
  {
    DivisionForm(slot, |g.mounts|);
    DivisionForm(slot / |g.mounts|, g.slotsPerFile);
    var q := file * g.slotsPerFile + position;
    DivModOfForm(q, device, |g.mounts|);
    DivModOfForm(file, position, g.slotsPerFile);
  }

  ghost predicate Disjoint(lo: nat, lo': nat, size: nat) {
    lo + size <= lo' || lo' + size <= lo
  }

  // Every slot lies wholly inside its file, and distinct slots differ in
  // device, in file, or in a disjoint byte range.
  lemma RegionsAreDisjoint(g: Geometry, a: nat, b: nat)
    requires g.Valid() && a != b
    ensures g.HeaderOffset(a) + g.slotBytes <= g.FileBytes()
    ensures g.HeaderOffset(a) <= g.PayloadOffset(a) <= g.HeaderOffset(a) + g.slotBytes
    ensures g.Device(a) != g.Device(b) || g.FileId(a) != g.FileId(b) ||
            Disjoint(g.HeaderOffset(a), g.HeaderOffset(b), g.slotBytes)
  {
    TimesOrder(g.Position(a), g.slotsPerFile, g.slotBytes);
    PlacementIsBijective(g, a, 0, 0, 0);
    PlacementIsBijective(g, b, 0, 0, 0);
    if g.Position(a) < g.Position(b) {
      TimesOrder(g.Position(a), g.Position(b), g.slotBytes);
    } else if g.Position(b) < g.Position(a) {
      TimesOrder(g.Position(b), g.Position(a), g.slotBytes);
    }
  }

  // A byte of the slot's file belongs to the slot, to its header, or to its payload.
  ghost predicate InSlot(g: Geometry, slot: nat, off: nat)
    requires g.Valid()
  {
    g.HeaderOffset(slot) <= off < g.HeaderOffset(slot) + g.slotBytes
  }

  ghost predicate InHeader(g: Geometry, slot: nat, off: nat)
    requires g.Valid()
  {
    g.HeaderOffset(slot) <= off < g.HeaderOffset(slot) + g.headerBytes
  }

  ghost predicate InPayload(g: Geometry, slot: nat, off: nat)
    requires g.Valid()
  {
    g.PayloadOffset(slot) <= off < g.PayloadOffset(slot) + g.PayloadBytes()
  }

  // The header and the payload of a slot share no byte and together are
  // exactly the slot; so no header of one slot meets a payload or a header of
  // another one in the same file.
  lemma SlotSplitsInTwo(g: Geometry, a: nat, b: nat, off: nat)
    requires g.Valid()
    ensures InSlot(g, a, off) <==> InHeader(g, a, off) || InPayload(g, a, off)
    ensures !(InHeader(g, a, off) && InPayload(g, a, off))
    ensures g.headerBytes + g.PayloadBytes() == g.slotBytes
    ensures a != b && g.Device(a) == g.Device(b) && g.FileId(a) == g.FileId(b) ==>
              !(InHeader(g, a, off) && (InHeader(g, b, off) || InPayload(g, b, off))) &&
              !(InPayload(g, a, off) && InPayload(g, b, off))
  {
    hide Geometry.HeaderOffset, Geometry.Device, Geometry.FileId;
    if a != b {
      RegionsAreDisjoint(g, a, b);
    }
  }

  // Two ranks never share a file, whatever their mounts and geometry.
  lemma RanksApart(g: Geometry, h: Geometry, a: nat, b: nat)
    requires g.Valid() && h.Valid() && g.Path(a) == h.Path(b)
    ensures g.rank == h.rank
  {
    hide Decimal, Geometry.Path, Geometry.Device, Geometry.FileId, Geometry.Subdir;
    PathForm(g, a);
    PathForm(h, b);
    var mg, mh := Normal(g.mounts[g.Device(a)]), Normal(h.mounts[h.Device(b)]);
    SplitAtLastSlash(mg + g.Subdir(), Decimal(g.FileId(a)) + ".seg", mh + h.Subdir(), Decimal(h.FileId(b)) + ".seg");
    assert mg == mg[..|mg| - 1] + "/" && mh == mh[..|mh| - 1] + "/";
    SubdirNamesRank(g, h, mg[..|mg| - 1], mh[..|mh| - 1]);
  }

  lemma SubdirNamesRank(g: Geometry, h: Geometry, mg: string, mh: string)
    requires mg + "/" + g.Subdir() == mh + "/" + h.Subdir()
    ensures g.rank == h.rank
  {
    hide Decimal;
    var rg, rh := "r" + Decimal(g.rank), "r" + Decimal(h.rank);
    assert mg + "/" + g.Subdir() == (mg + "/" + rg) + "/" + "segments";
    assert mh + "/" + h.Subdir() == (mh + "/" + rh) + "/" + "segments";
    SplitAtLastSlash(mg + "/" + rg, "segments", mh + "/" + rh, "segments");
    SplitAtLastSlash(mg, rg, mh, rh);
    assert Decimal(g.rank) == rg[1..] && Decimal(h.rank) == rh[1..];
    DecimalInjective(g.rank, h.rank);
  }

  ghost predicate Apart(g: Geometry, a: nat, b: nat)
    requires g.Valid()
  {
    g.Path(a) != g.Path(b) || Disjoint(g.HeaderOffset(a), g.HeaderOffset(b), g.slotBytes)
  }

  // No two mounts differ only by a trailing separator.
  ghost predicate MountsSeparate(g: Geometry)
    requires g.Valid()
  {
    forall i, j :: 0 <= i < j < |g.mounts| ==> Normal(g.mounts[i]) != Normal(g.mounts[j])
  }

  // Distinct slots never share a byte exactly when the mounts are separate.
  lemma SlotsApartIffMountsSeparate(g: Geometry)
    requires g.Valid()
    ensures MountsSeparate(g) <==> forall a: nat, b: nat :: a != b ==> Apart(g, a, b)
  {
    if MountsSeparate(g) {
      forall a: nat, b: nat | a != b
        ensures Apart(g, a, b)
      {
        SamePathIff(g, a, b);
        RegionsAreDisjoint(g, a, b);
      }
    } else {
      var i, j :| 0 <= i < j < |g.mounts| && Normal(g.mounts[i]) == Normal(g.mounts[j]);
      FirstSlot(g, i);
      FirstSlot(g, j);
      SamePathIff(g, i, j);
      assert !Apart(g, i, j);
    }
  }

  lemma FirstSlot(g: Geometry, device: nat)
    requires g.Valid() && device < |g.mounts|
    ensures g.Device(device) == device && g.FileId(device) == 0 && g.HeaderOffset(device) == 0
  {
    PlacementIsBijective(g, 0, device, 0, 0);
    assert SlotAt(g, device, 0, 0) == device;
  }

  // Where a path is first listed.
  ghost function FirstAt(paths: seq<string>, m: string): (r: nat)
    ensures r <= |paths| && (r < |paths| ==> paths[r] == m) && m !in paths[..r]
  {
    if paths == [] then 0
    else
      var n := |paths| - 1;
      var r := FirstAt(paths[..n], m);
      assert paths[..n][..r] == paths[..r];
      if r < n || paths[n] == m then r else n + 1
  }

  lemma FirstHere(paths: seq<string>, i: nat)
    requires i < |paths|
    ensures paths[i] !in paths[..i] ==> FirstAt(paths, paths[i]) == i
  {
    var r := FirstAt(paths, paths[i]);
    assert r < i ==> paths[r] in paths[..i];
  }

  // The mount list keeps the first of each repeated mount path, in the order
  // in which they are listed.
  method DedupMounts(paths: seq<string>) returns (mounts: seq<string>)
    ensures Distinct(mounts) && forall m :: m in mounts <==> m in paths
    ensures forall i, j :: 0 <= i < j < |mounts| ==> FirstAt(paths, mounts[i]) < FirstAt(paths, mounts[j])
  {
    mounts := [];
    for i := 0 to |paths|
      invariant Distinct(mounts) && forall m :: m in mounts <==> m in paths[..i]
      invariant forall j :: 0 <= j < |mounts| ==> FirstAt(paths, mounts[j]) < i
      invariant forall j, k :: 0 <= j < k < |mounts| ==> FirstAt(paths, mounts[j]) < FirstAt(paths, mounts[k])
    {
      FirstHere(paths, i);
      if paths[i] !in mounts {
        mounts := mounts + [paths[i]];
      }
    }
  }

  // Comparing mount strings is weaker than comparing the directories they
  // join to: the same mount written with and without a trailing separator
  // passes the duplicate filter and puts slots 0 and 1 on the same bytes.
  lemma TrailingSlashAliases(rank: nat, slotBytes: nat, slotsPerFile: nat, headerBytes: nat)
    requires slotsPerFile > 0 && 0 < headerBytes <= slotBytes
    ensures var g := Geometry(["/a", "/a/"], rank, slotBytes, slotsPerFile, headerBytes);
            Distinct(g.mounts) && g.Valid() && g.Path(0) == g.Path(1) && g.HeaderOffset(0) == g.HeaderOffset(1)
  {
    var g := Geometry(["/a", "/a/"], rank, slotBytes, slotsPerFile, headerBytes);
    assert Distinct(g.mounts) by {
      assert |g.mounts[0]| != |g.mounts[1]|;
    }
    FirstSlot(g, 0);
    FirstSlot(g, 1);
    assert Normal("/a") == "/a/" == Normal("/a/");
    SamePathIff(g, 0, 1);
  }

  // ---- file groups ----

  // The first slot of the group a slot belongs to.
  function GroupOf(slot: nat, n: nat): (start: nat)
    requires n > 0
    ensures start == slot / n * n && start <= slot
  {
    DivisionForm(slot, n);
    slot / n * n
  }

  lemma GroupIsSomething(g: Geometry)
    requires g.Valid()
    ensures g.GroupSlots() > 0
  {
    TimesOrder(0, g.slotsPerFile, |g.mounts|);
  }

  // First slots of the files forming the group of `slot`.
  function GroupFirsts(g: Geometry, slot: nat, total: nat): (r: seq<nat>)
    requires g.Valid()
  {
    GroupIsSomething(g);
    var start := GroupOf(slot, g.GroupSlots());
    var n := if start + |g.mounts| <= total then |g.mounts| else if start < total then total - start else 0;
    seq(n, d requires 0 <= d => start + d)
  }

  method GroupPaths(g: Geometry, slot: nat, total: nat) returns (paths: seq<string>)
    requires g.Valid()
    ensures |paths| == |GroupFirsts(g, slot, total)|
    ensures forall i :: 0 <= i < |paths| ==> paths[i] == g.Path(GroupFirsts(g, slot, total)[i])
  {
    hide Geometry.Path;
    paths := [];
    GroupIsSomething(g);
    var start := GroupOf(slot, g.GroupSlots());
    for device := 0 to |g.mounts|
      invariant |paths| == device <= |GroupFirsts(g, slot, total)|
      invariant forall i :: 0 <= i < |paths| ==> paths[i] == g.Path(GroupFirsts(g, slot, total)[i])
    {
      var first := start + device;
      if first >= total {
        break;
      }
      paths := paths + [g.Path(first)];
    }
  }

  // The path list of a slot's group holds that slot's own file.
  lemma GroupHoldsItsSlots(g: Geometry, slot: nat, total: nat)
    requires g.Valid() && slot < total
    ensures var firsts := GroupFirsts(g, slot, total);
            g.Device(slot) < |firsts| && g.Path(firsts[g.Device(slot)]) == g.Path(slot)
  {
    var n, s := |g.mounts|, g.slotsPerFile;
    var file := g.FileId(slot);
    GroupStart(g, slot);
    var start := slot / g.GroupSlots() * g.GroupSlots();
    PlacementIsBijective(g, slot, g.Device(slot), file, 0);
    var first := SlotAt(g, g.Device(slot), file, 0);
    assert first == start + g.Device(slot);
    assert first <= slot by {
      assert g.Position(slot) * n >= 0;
      assert (file * s + g.Position(slot)) * n == file * s * n + g.Position(slot) * n;
    }
    SamePathIff(g, first, slot);
  }

  lemma GroupStart(g: Geometry, slot: nat)
    requires g.Valid()
    ensures slot / g.GroupSlots() * g.GroupSlots() == g.FileId(slot) * g.slotsPerFile * |g.mounts|
  {
    var n, s := |g.mounts|, g.slotsPerFile;
    var q := slot / n;
    DivisionForm(slot, n);
    DivisionForm(q, s);
    var r := q % s * n + slot % n;
    assert r < s * n by {
      TimesOrder(q % s, s, n);
    }
    assert slot == q / s * (s * n) + r by {
      assert (q / s * s + q % s) * n == q / s * s * n + q % s * n;
      assert q / s * s * n == q / s * (s * n);
    }
    DivModOfForm(q / s, r, s * n);
    assert q / s * (s * n) == q / s * s * n;
  }
}
