/** mappages over a range, the kernel map and setupkvm. */
module VmKernel {
  import opened Common
  import opened VmPages
  import opened VmCode
  import opened VmSpaces
  import opened VmCost
  import opened VmGrow
  import opened VmFree

  /** Pages [v0, v) of d now map consecutive frames from f on; everything else translates as before. */
  ghost predicate MappedRun(s: Sys, t: Sys, d: nat, v0: nat, v: nat, f: nat, perm: nat)
    requires perm < 4096
  {
    && |t.pages| == |s.pages|
    && forall e: nat, p: nat, x: nat :: s.IsDir(e) && p < NENTRIES && x < NENTRIES ==>
         Lookup(t.pages, e, p, x)
         == if e == d && v0 <= 1024 * p + x < v then Entry(f + (1024 * p + x - v0), perm) else Lookup(s.pages, e, p, x)
  }

  ghost predicate NothingMapped(s: Sys, d: nat, v0: nat, v: nat)
    requires d < |s.pages|
  {
    forall p: nat, x: nat :: p < NENTRIES && x < NENTRIES && v0 <= 1024 * p + x < v ==> Lookup(s.pages, d, p, x) == 0
  }

  lemma RunStep(s: Sys, t: Sys, u: Sys, d: nat, v0: nat, v: nat, p: nat, x: nat, f: nat, perm: nat)
    requires perm < 4096 && v == 1024 * p + x && v0 <= v && Kept(s, t) && p < NENTRIES && x < NENTRIES
    requires MappedRun(s, t, d, v0, v, f, perm)
    requires OneMapped(t, u, d, p, x, Entry(f + (v - v0), perm))
    ensures MappedRun(s, u, d, v0, v + 1, f, perm)
  {
    forall e: nat, q: nat, y: nat | s.IsDir(e) && q < NENTRIES && y < NENTRIES
      ensures Lookup(u.pages, e, q, y)
              == if e == d && v0 <= 1024 * q + y < v + 1 then Entry(f + (1024 * q + y - v0), perm)
                 else Lookup(s.pages, e, q, y)
    {
      assert t.IsDir(e);
      FlatInjective(p, x, q, y);
    }
  }

  lemma TablesOnlyTwice(s: Sys, t: Sys, u: Sys)
    requires TablesOnly(s, t) && TablesOnly(t, u) && Kept(t, u)
    ensures TablesOnly(s, u)
  {
  }

  /** mappages at page v: the pages before it are mapped, with the tables they take. */
  ghost predicate Mapping(s: Sys, t: Sys, d: nat, v0: nat, v: nat, f: nat, perm: nat)
    requires perm < 4096
  {
    && Grew(s, t, d) && TablesOnly(s, t) && t.held == s.held
    && MappedRun(s, t, d, v0, v, f, perm) && Bought(s, t, d, v0, v, 0)
  }

  lemma MappingStart(s: Sys, d: nat, v0: nat, f: nat, perm: nat)
    requires Ok(s) && s.IsDir(d) && perm < 4096
    ensures Mapping(s, s, d, v0, v0, f, perm)
  {
    BoughtNone(s, d, v0);
  }

  lemma MappingNext(s: Sys, t: Sys, u: Sys, d: nat, v0: nat, v: nat, next: nat, p: nat, x: nat, f: nat, perm: nat)
    requires perm < 4096 && v0 <= v < 0x10_0000 && v == 1024 * p + x && USER <= p && x < NENTRIES && Mapping(s, t, d, v0, v, f, perm)
    requires Placed(t, u, d, p, x, f + (v - v0), perm) && next == v + 1
    ensures Mapping(s, u, d, v0, next, f, perm)
  {
    GrewTwice(s, t, u, d);
    TablesOnlyTwice(s, t, u);
    RunStep(s, t, u, d, v0, v, p, x, f, perm);
    TableTook(t, u, d, p);
    assert v / 1024 == p;
    BoughtNext(s, t, u, d, v0, v, 0, 0);
  }

  /** Memory ran out with some entry of pages [v0, v) still without a table. */
  ghost predicate RanOut(s: Sys, t: Sys, d: nat, v0: nat, v: nat) {
    t.free == [] && Conserved(s, t, d, 0) && TableSet(t.pages[d]) < TableSet(s.pages[d]) + Through(v0, v)
  }

  lemma RanOutAt(s: Sys, t: Sys, d: nat, v0: nat, v: nat, end: nat)
    requires v0 <= v < end <= 0x10_0000 && Bought(s, t, d, v0, v, 0) && t.free == [] && v / 1024 !in TableSet(t.pages[d])
    ensures RanOut(s, t, d, v0, end)
  {
    ThroughMore(v0, v, end);
  }

  /** Only d has changed, by tables and what they map. */
  ghost predicate Confined(s: Sys, t: Sys, d: nat) {
    && Grew(s, t, d) && TablesOnly(s, t) && t.held == s.held
    && forall e: nat, p: nat, x: nat :: s.IsDir(e) && e != d && p < NENTRIES && x < NENTRIES ==>
         Lookup(t.pages, e, p, x) == Lookup(s.pages, e, p, x)
  }

  /** How mappages of pages [v0, end) ends. */
  ghost predicate MapEnd(s: Sys, t: Sys, d: nat, v0: nat, end: nat, f: nat, perm: nat, r: MapOutcome)
    requires perm < 4096 && d < |s.pages|
  {
    match r
    case MapDone => Mapping(s, t, d, v0, end, f, perm)
    case NoMemory => Confined(s, t, d) && RanOut(s, t, d, v0, end)
    case Remap => Confined(s, t, d) && !NothingMapped(s, d, v0, end)
  }

  /** mappages for kernel addresses, from frame f on.  All the pages that [va, va + size) touches are
      mapped, in order; "remap" happens only if one of them was mapped before; it fails only if memory runs out. */
  method Mappages(vm: Vm, d: nat, va: nat, size: nat, f: nat, perm: nat) returns (r: MapOutcome)
    requires Ok(vm.S()) && vm.S().IsDir(d) && perm < 4096
    requires KERNBASE <= va && 0 < size && va + size <= 0x1_0000_0000
    modifies vm
    ensures MapEnd(old(vm.S()), vm.S(), d, va / 4096, (va + size - 1) / 4096 + 1, f, perm, r)
  {
    r := MapRange(vm, d, va / 4096, (va + size - 1) / 4096, f, perm);
  }

  /** The loop, from page v0 to page `last`. */
  method MapRange(vm: Vm, d: nat, v0: nat, last: nat, f: nat, perm: nat) returns (r: MapOutcome)
    requires Ok(vm.S()) && vm.S().IsDir(d) && perm < 4096 && 0x80000 <= v0 <= last < 0x10_0000
    modifies vm
    ensures MapEnd(old(vm.S()), vm.S(), d, v0, last + 1, f, perm, r)
  {
    ghost var s := vm.S();
    var v, pa := v0, f;
    MappingStart(s, d, v0, f, perm);
    while true
      invariant v0 <= v <= last && pa == f + (v - v0) && Mapping(s, vm.S(), d, v0, v, f, perm)
      decreases last - v
    {
      var next;
      r, next := MapRound(vm, d, v, v / 1024, v % 1024, pa, perm, s, v0, last + 1, f);
      if !r.MapDone? { return; }
      if v == last {
        MappingEnd(s, vm.S(), d, v0, next, last + 1, f, perm);
        return;
      }
      v, pa := next, pa + 1;
    }
  }

  lemma MappingEnd(s: Sys, t: Sys, d: nat, v0: nat, v: nat, end: nat, f: nat, perm: nat)
    requires perm < 4096 && d < |s.pages| && Mapping(s, t, d, v0, v, f, perm) && v == end
    ensures MapEnd(s, t, d, v0, end, f, perm, MapDone)
  {
  }

  lemma MappingStops(s: Sys, t: Sys, d: nat, v0: nat, v: nat, p: nat, x: nat, end: nat, f: nat, perm: nat, r: MapOutcome)
    requires perm < 4096 && s.IsDir(d) && v0 <= v < end <= 0x10_0000 && v == 1024 * p + x && p < NENTRIES && x < NENTRIES
    requires Mapping(s, t, d, v0, v, f, perm)
    requires (r.NoMemory? && t.free == [] && !Present(t.pages[d][p])) || (r.Remap? && Lookup(t.pages, d, p, x) != 0)
    ensures MapEnd(s, t, d, v0, end, f, perm, r)
  {
    assert v / 1024 == p;
    if r.NoMemory? { RanOutAt(s, t, d, v0, v, end); }
  }

  method MapRound(vm: Vm, d: nat, v: nat, p: nat, x: nat, pa: nat, perm: nat, ghost s: Sys, ghost v0: nat, ghost end: nat, ghost f: nat)
      returns (r: MapOutcome, next: nat)
    requires perm < 4096 && v0 <= v < end <= 0x10_0000 && v == 1024 * p + x && USER <= p && x < NENTRIES && pa == f + (v - v0)
    requires Ok(s) && s.IsDir(d) && Mapping(s, vm.S(), d, v0, v, f, perm)
    modifies vm
    ensures next == v + 1
    ensures r.MapDone? ==> Mapping(s, vm.S(), d, v0, next, f, perm)
    ensures !r.MapDone? ==> MapEnd(s, vm.S(), d, v0, end, f, perm, r)
  {
    ghost var t := vm.S();
    next := v + 1;
    r := vm.MapPage(d, p, x, pa, perm);
    if r.MapDone? {
      MappingNext(s, t, vm.S(), d, v0, v, next, p, x, f, perm);
    } else {
      MappingStops(s, t, d, v0, v, p, x, end, f, perm, r);
    }
  }

  // ---- the kernel map ----

  /** A row of kmap: addresses in bytes, [start, end) physical. */
  datatype Region = Region(va: nat, start: nat, end: nat, perm: nat) {
    /** k->phys_end - k->phys_start, in 32 bits. */
    function Size(): (r: nat) { (end - start) % 0x1_0000_0000 }

    predicate Covers(v: nat) { va / 4096 <= v < (va + Size()) / 4096 }
  }

  /** kmap; `data` is the frame number of the first page of kernel data. */
  function Kmap(data: nat): (m: seq<Region>)
    requires 0x100 < data < 0xE000
    ensures |m| == 4
  {
    [ Region(0x8000_0000, 0, 0x10_0000, PTE_W),
      Region(0x8010_0000, 0x10_0000, 4096 * data, 0),
      Region(0x8000_0000 + 4096 * data, 4096 * data, 0xE00_0000, PTE_W),
      Region(0xFE00_0000, 0xFE00_0000, 0, PTE_W) ]
  }

  /** The entry the first k rows give page number v. */
  function RowEntry(m: seq<Region>, k: nat, v: nat): (w: nat)
    requires k <= |m| && forall i :: 0 <= i < |m| ==> m[i].perm < 4096
  {
    if k == 0 then 0
    else if m[k - 1].Covers(v) then Entry(m[k - 1].start / 4096 + (v - m[k - 1].va / 4096), m[k - 1].perm)
    else RowEntry(m, k - 1, v)
  }

  /** The kernel's entry for page number v: physical memory at KERNBASE, text read-only, devices in place. */
  function KernelEntry(data: nat, v: nat): (w: nat) {
    if 0x80000 <= v < 0x8E000 then Entry(v - 0x80000, if 0x80100 <= v < 0x80000 + data then 0 else PTE_W)
    else if 0xFE000 <= v < 0x10_0000 then Entry(v, PTE_W)
    else 0
  }

  lemma RowShape(data: nat, k: nat)
    requires 0x100 < data < 0xE000 && k < 4
    ensures var r := Kmap(data)[k];
      && r.perm < 4096 && KERNBASE <= r.va && 0 < r.Size() && r.va + r.Size() <= 0x1_0000_0000
      && (r.va + r.Size() - 1) / 4096 + 1 == (r.va + r.Size()) / 4096
  {
  }

  /** The rows together are the identity-at-an-offset map the kernel expects. */
  lemma RowsAreKernel(data: nat, v: nat)
    requires 0x100 < data < 0xE000
    ensures (forall i :: 0 <= i < 4 ==> Kmap(data)[i].perm < 4096) && RowEntry(Kmap(data), 4, v) == KernelEntry(data, v)
  {
    var m := Kmap(data);
    assert RowEntry(m, 4, v) == if m[3].Covers(v) then Entry(v, PTE_W) else RowEntry(m, 3, v);
    assert RowEntry(m, 3, v) == if m[2].Covers(v) then Entry(v - 0x80000, PTE_W) else RowEntry(m, 2, v);
    assert RowEntry(m, 2, v) == if m[1].Covers(v) then Entry(v - 0x80000, 0) else RowEntry(m, 1, v);
    assert RowEntry(m, 1, v) == if m[0].Covers(v) then Entry(v - 0x80000, PTE_W) else 0;
  }

  /** No two rows overlap. */
  lemma RowFresh(data: nat, k: nat, j: nat, v: nat)
    requires 0x100 < data < 0xE000 && j <= k < 4 && Kmap(data)[k].Covers(v)
    ensures (forall i :: 0 <= i < 4 ==> Kmap(data)[i].perm < 4096) && RowEntry(Kmap(data), j, v) == 0
  {
    if j > 0 {
      RowFresh(data, k, j - 1, v);
      assert !Kmap(data)[j - 1].Covers(v);
    }
  }

  // ---- setupkvm ----

  /** As if nothing had happened: every page is where it was, every translation and all memory the same. */
  ghost predicate Untouched(s: Sys, u: Sys) {
    Kept(s, u) && u.owner == s.owner && u.held == s.held && FreeSet(u) == FreeSet(s) && SameMaps(s, u)
  }

  /** A new address space d, whose kernel half is what the first k rows say and whose user half is empty. */
  ghost predicate NewSpace(s: Sys, t: Sys, d: nat, m: seq<Region>, k: nat)
    requires k <= |m| && forall i :: 0 <= i < |m| ==> m[i].perm < 4096
  {
    && Grew(s, t, d) && SameMaps(s, t) && t.held == s.held && d !in s.owner && t.IsDir(d)
    && (forall g :: g in t.owner && g !in s.owner ==> g == d || t.owner[g].Table?)
    && (forall p: nat, x: nat :: p < NENTRIES && x < NENTRIES ==> Lookup(t.pages, d, p, x) == RowEntry(m, k, 1024 * p + x))
    && Paid(s, t, d)
  }

  /** The directory entries that the kernel map goes through. */
  ghost function KernelTables(): (r: set<nat>) { set q: nat | q < NENTRIES && KernelTable(q) }

  predicate KernelTable(q: nat) { 512 <= q < 568 || 1016 <= q < 1024 }

  const KERNPAGES: nat := 65    // the directory and 64 tables

  lemma KernelTablesSize()
    ensures |KernelTables()| == KERNPAGES - 1
  {
    RangeSize(512, 568);
    RangeSize(1016, 1024);
    var a, b := Range(512, 568), Range(1016, 1024);
    forall q: nat ensures q in KernelTables() <==> q in a || q in b { assert (Lies(q, 512, 568) <==> 512 <= q < 568) && (Lies(q, 1016, 1024) <==> 1016 <= q < 1024); }
    assert KernelTables() == a + b && a !! b;
  }

  /** The directory d and its tables, all for the kernel map, came from the free list. */
  ghost predicate Paid(s: Sys, t: Sys, d: nat) {
    d < |t.pages| && TableSet(t.pages[d]) <= KernelTables() && |t.free| + |TableSet(t.pages[d])| + 1 == |s.free|
  }

  function WithDir(u: Sys, d: nat): (t: Sys)
    requires d < |u.pages|
  {
    Sys(u.kend, u.pages[d := ZeroPage()], u.head, u.free, u.owner[d := Dir], u.held - {d})
  }

  lemma WithDirOk(u: Sys, d: nat)
    requires Ok(u) && d in u.held && d < |u.pages|
    ensures Ok(WithDir(u, d)) && Total(WithDir(u, d)) == Total(u) && SameMaps(u, WithDir(u, d))
    ensures forall p: nat, x: nat :: p < NENTRIES && x < NENTRIES ==> Lookup(WithDir(u, d).pages, d, p, x) == 0
  {
    var t := WithDir(u, d);
    LinkedKept(u, t);
    forall e: nat, p: nat, x: nat | u.IsDir(e) && p < NENTRIES && x < NENTRIES
      ensures Lookup(t.pages, e, p, x) == Lookup(u.pages, e, p, x)
    {
      assert TablesOwned(u, e);
    }
    forall f | f in t.owner ensures RoleHolds(t, f) { if f != d { assert RoleHolds(u, f); } }
    forall e | t.IsDir(e) ensures TablesOwned(t, e) && MemoryOwned(t, e) {
      if e != d { assert TablesOwned(u, e) && MemoryOwned(u, e); }
    }
    assert Apart(t) && Total(t) == Total(u);
  }

  lemma NewDir(s: Sys, m: seq<Region>)
    requires Ok(s) && s.free != [] && forall i :: 0 <= i < |m| ==> m[i].perm < 4096
    ensures s.head < |s.pages| && NewSpace(s, WithDir(Popped(s), s.head), s.head, m, 0)
  {
    PopOk(s);
    WithDirOk(Popped(s), s.head);
    assert s.held + {s.head} - {s.head} == s.held;
    assert s.head in s.free;
    assert TableSet(ZeroPage()) == {};
  }

  /** One more row. */
  lemma NextRow(s: Sys, t: Sys, u: Sys, d: nat, data: nat, k: nat)
    requires 0x100 < data < 0xE000 && k < 4 && forall i :: 0 <= i < 4 ==> Kmap(data)[i].perm < 4096
    requires NewSpace(s, t, d, Kmap(data), k)
    requires var r := Kmap(data)[k]; Mapping(t, u, d, r.va / 4096, (r.va + r.Size()) / 4096, r.start / 4096, r.perm)
    ensures NewSpace(s, u, d, Kmap(data), k + 1)
  {
    GrewTwice(s, t, u, d);
    RowTables(data, k);
    forall e: nat, p: nat, x: nat | s.IsDir(e) && p < NENTRIES && x < NENTRIES
      ensures Lookup(u.pages, e, p, x) == Lookup(s.pages, e, p, x)
    {
      assert t.IsDir(e) && e != d;
    }
    forall p: nat, x: nat | p < NENTRIES && x < NENTRIES
      ensures Lookup(u.pages, d, p, x) == RowEntry(Kmap(data), k + 1, 1024 * p + x)
    {
      assert t.IsDir(d);
    }
  }

  lemma RowTables(data: nat, k: nat)
    requires 0x100 < data < 0xE000 && k < 4
    ensures var r := Kmap(data)[k]; Through(r.va / 4096, (r.va + r.Size()) / 4096) <= KernelTables()
  {
    var r := Kmap(data)[k];
    forall q: nat | q < NENTRIES && Passed(q, r.va / 4096, (r.va + r.Size()) / 4096) ensures KernelTable(q) { }
  }

  /** A row fails only with fewer pages than the whole map takes. */
  lemma RowShort(s: Sys, t: Sys, u: Sys, d: nat, data: nat, k: nat)
    requires 0x100 < data < 0xE000 && k < 4 && Paid(s, t, d)
    requires var r := Kmap(data)[k]; RanOut(t, u, d, r.va / 4096, (r.va + r.Size()) / 4096)
    ensures |s.free| < KERNPAGES
  {
    RowTables(data, k);
    KernelTablesSize();
    SubsetSize(TableSet(u.pages[d]), KernelTables());
  }

  lemma RowUnmapped(s: Sys, t: Sys, d: nat, data: nat, k: nat)
    requires 0x100 < data < 0xE000 && k < 4 && forall i :: 0 <= i < 4 ==> Kmap(data)[i].perm < 4096
    requires NewSpace(s, t, d, Kmap(data), k)
    ensures var r := Kmap(data)[k]; NothingMapped(t, d, r.va / 4096, (r.va + r.Size()) / 4096)
  {
    var r := Kmap(data)[k];
    forall p: nat, x: nat | p < NENTRIES && x < NENTRIES && r.va / 4096 <= 1024 * p + x < (r.va + r.Size()) / 4096
      ensures Lookup(t.pages, d, p, x) == 0
    {
      RowFresh(data, k, k, 1024 * p + x);
    }
  }

  lemma BackToOwner(s: Sys, t: Sys, u: Sys, d: nat)
    requires Ok(s) && Grew(s, t, d) && d !in s.owner && Freed(t, u, d)
    ensures u.owner == s.owner
  {
    forall g | g in s.owner ensures Space(s, g) != d && Space(t, g) == Space(s, g) { assert RoleHolds(s, g); }
    forall g | g in u.owner ensures g in s.owner { assert g in t.owner && Space(t, g) != d; }
  }

  /** A space that did not exist before, freed: back to the start. */
  lemma BackToStart(s: Sys, t: Sys, u: Sys, d: nat)
    requires Ok(s) && Grew(s, t, d) && SameMaps(s, t) && t.held == s.held && d !in s.owner && Freed(t, u, d)
    ensures Untouched(s, u)
  {
    BackToOwner(s, t, u, d);
    BackToFree(s, t, u, d);
    assert SameMaps(s, u) by {
      forall e: nat, p: nat, x: nat | s.IsDir(e) && p < NENTRIES && x < NENTRIES
        ensures Lookup(u.pages, e, p, x) == Lookup(s.pages, e, p, x)
      {
        assert u.IsDir(e);
      }
    }
    assert Total(u) == Total(s);
  }

  lemma BackToFree(s: Sys, t: Sys, u: Sys, d: nat)
    requires Ok(s) && Grew(s, t, d) && t.held == s.held && Freed(t, u, d) && u.owner == s.owner
    ensures FreeSet(u) == FreeSet(s)
  {
    forall g | g in FreeSet(u) || g in FreeSet(s) ensures g in FreeSet(u) && g in FreeSet(s) {
      assert g in Total(t) && g in Total(s);
    }
  }

  /** setupkvm: with the pages it takes, a new directory with the whole kernel map and no user memory; otherwise
      nothing has changed. */
  method Setupkvm(vm: Vm, data: nat) returns (d: nat, panicked: bool)
    requires Ok(vm.S()) && 0x100 < data < 0xE000
    modifies vm
    ensures !panicked && (d == 0 <==> |old(vm.free)| < KERNPAGES)
    ensures d == 0 ==> Untouched(old(vm.S()), vm.S())
    ensures d != 0 ==> d in FreeSet(old(vm.S())) && FreshSpace(old(vm.S()), vm.S(), d, data)
  {
    ghost var s := vm.S();
    forall k | 0 <= k < 4 ensures Kmap(data)[k].perm < 4096 { RowShape(data, k); }
    if vm.free != [] { NewDir(s, Kmap(data)); }
    d := vm.Kalloc();
    if d == 0 { return 0, false; }
    vm.pages := vm.pages[d := ZeroPage()];
    vm.owner, vm.held := vm.owner[d := Dir], vm.held - {d};
    panicked := false;
    var k := 0;
    while k < 4
      invariant 0 <= k <= 4 && NewSpace(s, vm.S(), d, Kmap(data), k) && !panicked
    {
      var ok;
      ok, panicked := MapRow(vm, d, data, k, s);
      if !ok { return 0, panicked; }
      k := k + 1;
    }
    FreshSpaceIs(s, vm.S(), d, data);
  }

  /** One row of kmap, or the way out. */
  method MapRow(vm: Vm, d: nat, data: nat, k: nat, ghost s: Sys) returns (ok: bool, panicked: bool)
    requires Ok(s) && 0x100 < data < 0xE000 && k < 4 && forall i :: 0 <= i < 4 ==> Kmap(data)[i].perm < 4096
    requires NewSpace(s, vm.S(), d, Kmap(data), k)
    modifies vm
    ensures !panicked
    ensures ok ==> NewSpace(s, vm.S(), d, Kmap(data), k + 1)
    ensures !ok ==> Untouched(s, vm.S()) && |s.free| < KERNPAGES
  {
    ghost var t := vm.S();
    RowUnmapped(s, t, d, data, k);
    var o := PutRow(vm, d, data, k);
    ok, panicked := o.MapDone?, false;
    if ok {
      NextRow(s, t, vm.S(), d, data, k);
    } else {
      panicked := Abandon(vm, d, data, k, s, t);
    }
  }

  /** mappages with a row of kmap. */
  method PutRow(vm: Vm, d: nat, data: nat, k: nat) returns (o: MapOutcome)
    requires Ok(vm.S()) && vm.S().IsDir(d) && 0x100 < data < 0xE000 && k < 4 && Kmap(data)[k].perm < 4096
    modifies vm
    ensures var r := Kmap(data)[k]; MapEnd(old(vm.S()), vm.S(), d, r.va / 4096, (r.va + r.Size()) / 4096, r.start / 4096, r.perm, o)
  {
    var r := Kmap(data)[k];
    RowShape(data, k);
    o := Mappages(vm, d, r.va, r.Size(), r.start / 4096, r.perm);
  }

  /** freevm of a half-built space. */
  method Abandon(vm: Vm, d: nat, data: nat, k: nat, ghost s: Sys, ghost t: Sys) returns (panicked: bool)
    requires Ok(s) && 0x100 < data < 0xE000 && k < 4 && forall i :: 0 <= i < 4 ==> Kmap(data)[i].perm < 4096
    requires NewSpace(s, t, d, Kmap(data), k) && Confined(t, vm.S(), d)
    requires var r := Kmap(data)[k]; RanOut(t, vm.S(), d, r.va / 4096, (r.va + r.Size()) / 4096)
    modifies vm
    ensures !panicked && Untouched(s, vm.S()) && |s.free| < KERNPAGES
  {
    ghost var u := vm.S();
    RowShort(s, t, u, d, data, k);
    SpaceKept(s, t, u, d);
    panicked := Freevm(vm, d);
    BackToStart(s, u, vm.S(), d);
  }

  /** What a fresh address space looks like. */
  ghost predicate FreshSpace(s: Sys, t: Sys, d: nat, data: nat) {
    && Grew(s, t, d) && SameMaps(s, t) && t.held == s.held && d !in s.owner && t.IsDir(d)
    && (forall p: nat, x: nat :: p < NENTRIES && x < NENTRIES ==> Lookup(t.pages, d, p, x) == KernelEntry(data, 1024 * p + x))
    && TableSet(t.pages[d]) == KernelTables() && |t.free| + KERNPAGES == |s.free|
  }

  lemma FreshSpaceIs(s: Sys, t: Sys, d: nat, data: nat)
    requires 0x100 < data < 0xE000 && forall i :: 0 <= i < 4 ==> Kmap(data)[i].perm < 4096
    requires NewSpace(s, t, d, Kmap(data), 4)
    ensures FreshSpace(s, t, d, data)
  {
    forall p: nat, x: nat | p < NENTRIES && x < NENTRIES ensures Lookup(t.pages, d, p, x) == KernelEntry(data, 1024 * p + x) {
      RowsAreKernel(data, 1024 * p + x);
    }
    forall q: nat | q in KernelTables() ensures q in TableSet(t.pages[d]) {
      assert Lookup(t.pages, d, q, 0) == KernelEntry(data, 1024 * q + 0);
      assert KernelTable(q);
    }
    KernelTablesSize();
  }

  lemma SpaceKept(s: Sys, t: Sys, u: Sys, d: nat)
    requires Grew(s, t, d) && SameMaps(s, t) && d !in s.owner && t.IsDir(d) && Grew(t, u, d)
    requires forall e: nat, p: nat, x: nat :: t.IsDir(e) && e != d && p < NENTRIES && x < NENTRIES ==>
      Lookup(u.pages, e, p, x) == Lookup(t.pages, e, p, x)
    ensures Grew(s, u, d) && SameMaps(s, u) && u.IsDir(d)
  {
    GrewTwice(s, t, u, d);
    forall e: nat, p: nat, x: nat | s.IsDir(e) && p < NENTRIES && x < NENTRIES
      ensures Lookup(u.pages, e, p, x) == Lookup(s.pages, e, p, x)
    {
      assert t.IsDir(e);
    }
  }
}
