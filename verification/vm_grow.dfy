/** allocuvm: growing an address space, all or nothing. */
module VmGrow {
  import opened VmPages
  import opened VmCode
  import opened VmSpaces
  import opened VmCost

  /** Virtual page (p, x) of d is a new zeroed page, writable by the user, taken from the free list of s. */
  ghost predicate NewPage(s: Sys, t: Sys, d: nat, p: nat, x: nat)
    requires d < |t.pages| && p < NENTRIES && x < NENTRIES
  {
    var w := Lookup(t.pages, d, p, x);
    && w == Entry(FrameOf(w), PTE_W + PTE_U) && FrameOf(w) in FreeSet(s) && FrameOf(w) < |t.pages|
    && t.pages[FrameOf(w)] == ZeroPage()
  }

  /** Pages newly in use are page tables of d, or its memory in [lo, v). */
  ghost predicate NewRoles(s: Sys, t: Sys, d: nat, lo: nat, v: nat) {
    forall g :: g in t.owner && g !in s.owner ==> t.owner[g].Table? || Gone(t.owner[g], d, lo, v)
  }

  /** d has grown by the pages [lo, v) and nothing else has changed. */
  ghost predicate Grown(s: Sys, t: Sys, d: nat, lo: nat, v: nat) {
    && Grew(s, t, d) && NewRoles(s, t, d, lo, v)
    && (forall e: nat, p: nat, x: nat :: s.IsDir(e) && p < NENTRIES && x < NENTRIES && !(e == d && InRange(p, x, lo, v)) ==>
          Lookup(t.pages, e, p, x) == Lookup(s.pages, e, p, x))
    && (forall p: nat, x: nat :: d < |t.pages| && p < USER && x < NENTRIES && InRange(p, x, lo, v) ==> NewPage(s, t, d, p, x))
  }

  /** Nothing of d is mapped in [lo, hi). */
  ghost predicate Unmapped(s: Sys, d: nat, lo: nat, hi: nat)
    requires d < |s.pages|
  {
    forall p: nat, x: nat :: p < USER && x < NENTRIES && InRange(p, x, lo, hi) ==> Lookup(s.pages, d, p, x) == 0
  }

  /** One page has been added: frame f, holding pg, at (p, x). */
  ghost predicate Added(t: Sys, u: Sys, d: nat, p: nat, x: nat, f: nat, perm: nat, pg: Page) {
    && perm < 4096 && Grew(t, u, d) && OneMapped(t, u, d, p, x, Entry(f, perm))
    && f in FreeSet(t) && f < |u.pages| && u.pages[f] == pg && f in u.owner && u.owner[f] == User(d, p, x)
    && u.held == t.held && forall g :: g in u.owner && g !in t.owner ==> g == f || u.owner[g].Table?
  }

  lemma GrownStart(s: Sys, d: nat, lo: nat)
    requires Ok(s)
    ensures Grown(s, s, d, lo, lo)
  {
  }

  lemma GrownStep(s: Sys, t: Sys, u: Sys, d: nat, lo: nat, v: nat, p: nat, x: nat, f: nat)
    requires Ok(s) && Grown(s, t, d, lo, v) && Added(t, u, d, p, x, f, PTE_W + PTE_U, ZeroPage()) && s.IsDir(d)
    requires v == 1024 * p + x && p < USER && x < NENTRIES && lo <= v && s.held <= t.held
    ensures Grown(s, u, d, lo, v + 1)
  {
    GrewTwice(s, t, u, d);
    FreeShrinks(s, t);
    GrownPages(s, t, u, d, lo, v, p, x, f);
    assert NewRoles(s, u, d, lo, v + 1);
  }

  lemma GrownPages(s: Sys, t: Sys, u: Sys, d: nat, lo: nat, v: nat, p: nat, x: nat, f: nat)
    requires Ok(s) && Grown(s, t, d, lo, v) && Added(t, u, d, p, x, f, PTE_W + PTE_U, ZeroPage()) && s.IsDir(d) && Kept(s, u)
    requires v == 1024 * p + x && p < USER && x < NENTRIES && lo <= v && FreeSet(t) <= FreeSet(s)
    ensures forall e: nat, q: nat, y: nat ::
      s.IsDir(e) && q < NENTRIES && y < NENTRIES && !(e == d && InRange(q, y, lo, v + 1)) ==>
        Lookup(u.pages, e, q, y) == Lookup(s.pages, e, q, y)
    ensures forall q: nat, y: nat :: q < USER && y < NENTRIES && InRange(q, y, lo, v + 1) ==> NewPage(s, u, d, q, y)
  {
    forall e: nat, q: nat, y: nat |
      s.IsDir(e) && q < NENTRIES && y < NENTRIES && !(e == d && InRange(q, y, lo, v + 1))
      ensures Lookup(u.pages, e, q, y) == Lookup(s.pages, e, q, y)
    {
      assert t.IsDir(e);
    }
    forall q: nat, y: nat | q < USER && y < NENTRIES && InRange(q, y, lo, v + 1)
      ensures NewPage(s, u, d, q, y)
    {
      FlatInjective(p, x, q, y);
      assert t.IsDir(d);
      if (q, y) != (p, x) {
        assert NewPage(s, t, d, q, y) && MemoryOwned(t, d);
      }
    }
  }

  /** Taking the new pages out again leaves every translation as it was. */
  lemma Undone(s: Sys, t: Sys, u: Sys, d: nat, lo: nat, v: nat, hi: nat)
    requires Ok(s) && s.IsDir(d) && Grown(s, t, d, lo, v) && Dropped(t, u, d, lo, hi) && v <= hi && Unmapped(s, d, lo, hi)
    ensures Grew(s, u, d) && TablesOnly(s, u) && SameMaps(s, u)
  {
    UndoneMaps(s, t, u, d, lo, v, hi);
    NotGone(s, d, lo, hi);
    forall g | g in u.owner && g !in s.owner ensures u.owner[g].Table? && Space(u, g) == d {
      assert g in t.owner && Space(t, g) == d;
    }
  }

  lemma NotGone(s: Sys, d: nat, lo: nat, hi: nat)
    requires Ok(s) && s.IsDir(d) && Unmapped(s, d, lo, hi)
    ensures forall g :: g in s.owner ==> !Gone(s.owner[g], d, lo, hi)
  {
    forall g | g in s.owner ensures !Gone(s.owner[g], d, lo, hi) { assert RoleHolds(s, g); }
  }

  lemma UndoneMaps(s: Sys, t: Sys, u: Sys, d: nat, lo: nat, v: nat, hi: nat)
    requires s.IsDir(d) && Grown(s, t, d, lo, v) && Dropped(t, u, d, lo, hi) && v <= hi && Unmapped(s, d, lo, hi)
    ensures SameMaps(s, u)
  {
    forall e: nat, p: nat, x: nat | s.IsDir(e) && p < NENTRIES && x < NENTRIES
      ensures Lookup(u.pages, e, p, x) == Lookup(s.pages, e, p, x)
    {
      assert t.IsDir(e);
      if e == d && InRange(p, x, lo, hi) {
        assert Lookup(u.pages, e, p, x) == 0;
      } else {
        assert Lookup(t.pages, e, p, x) == Lookup(s.pages, e, p, x);
      }
    }
  }

  /** The caller of kalloc may write its page. */
  function Filled(u: Sys, f: nat, pg: Page): (w: Sys)
    requires f < |u.pages|
  {
    Sys(u.kend, u.pages[f := pg], u.head, u.free, u.owner, u.held)
  }

  lemma FilledOk(u: Sys, f: nat, pg: Page)
    requires Ok(u) && f in u.held
    ensures f < |u.pages| && Ok(Filled(u, f, pg)) && Total(Filled(u, f, pg)) == Total(u)
  {
    var w := Filled(u, f, pg);
    LinkedKept(u, w);
    SameTablesOk(u, w);
    assert FreeSet(w) == FreeSet(u);
  }

  /** u is t with a page popped, filled with pg and held by the caller. */
  ghost predicate Holding(t: Sys, u: Sys, f: nat, pg: Page) {
    && Ok(t) && Ok(u) && t.free != [] && f == t.head < |t.pages| && f in FreeSet(t) && f !in t.held
    && u == Sys(t.kend, t.pages[f := pg], u.head, u.free, t.owner, t.held + {f}) && Total(u) == Total(t)
  }

  lemma HoldingOk(t: Sys, pg: Page)
    requires Ok(t) && t.free != []
    ensures t.head < |t.pages| && Holding(t, Filled(Popped(t), t.head, pg), t.head, pg)
  {
    PopOk(t);
    FilledOk(Popped(t), t.head, pg);
  }

  lemma HoldingMaps(t: Sys, u: Sys, f: nat, pg: Page)
    requires Holding(t, u, f, pg)
    ensures SameMaps(t, u) && Kept(t, u)
  {
    assert forall g :: g in t.owner ==> g != f;
    forall e: nat, p: nat, x: nat | t.IsDir(e) && p < NENTRIES && x < NENTRIES
      ensures Lookup(u.pages, e, p, x) == Lookup(t.pages, e, p, x)
    {
      assert TablesOwned(t, e);
      LookupKept(t, u, e, p, x);
    }
  }

  lemma HoldingGrown(s: Sys, t: Sys, u: Sys, d: nat, lo: nat, v: nat, f: nat, pg: Page)
    requires Ok(s) && Grown(s, t, d, lo, v) && Holding(t, u, f, pg) && s.IsDir(d)
    ensures Grown(s, u, d, lo, v)
  {
    HoldingMaps(t, u, f, pg);
    GrewTwice(s, t, u, d);
    forall e: nat, p: nat, x: nat | s.IsDir(e) && p < NENTRIES && x < NENTRIES
      ensures Lookup(u.pages, e, p, x) == Lookup(t.pages, e, p, x)
    {
      assert t.IsDir(e);
    }
    forall p: nat, x: nat | d < |u.pages| && p < USER && x < NENTRIES && InRange(p, x, lo, v) ensures NewPage(s, u, d, p, x) {
      assert NewPage(s, t, d, p, x) && t.IsDir(d) && MemoryOwned(t, d);
    }
  }

  lemma AddedHeld(t: Sys, u: Sys, w: Sys, d: nat, p: nat, x: nat, f: nat, perm: nat, pg: Page)
    requires Holding(t, u, f, pg) && Grew(u, w, d) && perm < 4096 && OneMapped(u, w, d, p, x, Entry(f, perm))
    requires w.held == u.held - {f} && w.pages[f] == u.pages[f] && f in w.owner && w.owner[f] == User(d, p, x)
    requires forall g :: g in w.owner && g !in u.owner ==> g == f || w.owner[g].Table?
    ensures Added(t, w, d, p, x, f, perm, pg)
  {
    HoldingMaps(t, u, f, pg);
    GrewTwice(t, u, w, d);
    forall e: nat, q: nat, y: nat | t.IsDir(e) && q < NENTRIES && y < NENTRIES
      ensures Lookup(w.pages, e, q, y) == if (e, q, y) == (d, p, x) then Entry(f, perm) else Lookup(t.pages, e, q, y)
    {
      assert u.IsDir(e);
    }
    assert w.held == t.held;
  }

  ghost function PageCost(t: Sys, d: nat, p: nat): (n: nat)
    requires d < |t.pages|
  {
    if p in TableSet(t.pages[d]) then 1 else 2
  }

  lemma HoldingTook(t: Sys, u: Sys, w: Sys, d: nat, p: nat, f: nat, pg: Page)
    requires Holding(t, u, f, pg) && t.IsDir(d) && |u.free| == |t.free| - 1 && TableAt(u, w, d, p)
    ensures Took(t, w, d, p, 1)
  {
    assert d != f;
    TableTook(u, w, d, p);
  }

  /** A zeroed page was added at (p, x); or memory ran out, with page f in hand unless it is 0. */
  ghost predicate Tried(t: Sys, u: Sys, d: nat, p: nat, x: nat, ok: bool, f: nat)
    requires d < |t.pages|
  {
    match ok
    case true => Added(t, u, d, p, x, f, PTE_W + PTE_U, ZeroPage()) && Took(t, u, d, p, 1)
    case false => (if f == 0 then u == t else Holding(t, u, f, ZeroPage())) && |t.free| < PageCost(t, d, p)
  }

  /** One round of allocuvm's loop.  On failure f is the page in hand, or 0. */
  method AllocPage(vm: Vm, d: nat, p: nat, x: nat) returns (ok: bool, f: nat)
    requires Ok(vm.S()) && vm.S().IsDir(d) && p < USER && x < NENTRIES && Lookup(vm.pages, d, p, x) == 0
    modifies vm
    ensures Tried(old(vm.S()), vm.S(), d, p, x, ok, f)
  {
    ghost var t := vm.S();
    if vm.free != [] { HoldingOk(t, ZeroPage()); }
    f := vm.Kalloc();
    if f == 0 { return false, 0; }
    vm.pages := vm.pages[f := ZeroPage()];
    ghost var u := vm.S();
    HoldingMaps(t, u, f, ZeroPage());
    var r := vm.MapPage(d, p, x, f, PTE_W + PTE_U);
    ok := r.MapDone?;
    if ok {
      AddedHeld(t, u, vm.S(), d, p, x, f, PTE_W + PTE_U, ZeroPage());
      HoldingTook(t, u, vm.S(), d, p, f, ZeroPage());
    }
  }

  lemma UnmappedStill(s: Sys, t: Sys, d: nat, lo: nat, p: nat, x: nat, hi: nat)
    requires Grown(s, t, d, lo, 1024 * p + x) && s.IsDir(d) && Unmapped(s, d, lo, hi)
    requires p < USER && x < NENTRIES && lo <= 1024 * p + x < hi
    ensures Lookup(t.pages, d, p, x) == 0 && t.IsDir(d)
  {
    assert InRange(p, x, lo, hi);
  }

  /** Directory d has the same tables. */
  ghost predicate SameTables(t: Sys, u: Sys, d: nat) {
    d < |t.pages| && d < |u.pages| && TableSet(u.pages[d]) == TableSet(t.pages[d])
  }

  lemma DroppedTables(t: Sys, u: Sys, d: nat, lo: nat, hi: nat)
    requires Ok(t) && t.IsDir(d) && Dropped(t, u, d, lo, hi)
    ensures SameTables(t, u, d)
  {
    forall q: nat | q < NENTRIES ensures q in TableSet(u.pages[d]) <==> q in TableSet(t.pages[d]) {
      PresentIff(t, d, q);
      PresentIff(u, d, q);
      forall g | g in t.owner && t.owner[g] == Table(d, q) ensures g in u.owner && u.owner[g] == Table(d, q) { }
    }
  }

  /** allocuvm's way out: take back the pages added so far, and free the page in hand. */
  method GiveUp(vm: Vm, d: nat, oldsz: nat, newsz: nat, f: nat, ghost s: Sys, ghost t: Sys, ghost v: nat)
    returns (panicked: bool)
    requires Ok(s) && s.IsDir(d) && oldsz <= newsz < KERNBASE && v <= Up(newsz)
    requires Unmapped(s, d, Up(oldsz), Up(newsz)) && Grown(s, t, d, Up(oldsz), v) && t.held == s.held
    requires if f == 0 then vm.S() == t else Holding(t, vm.S(), f, ZeroPage())
    modifies vm
    ensures !panicked && vm.held == s.held
    ensures Grew(s, vm.S(), d) && TablesOnly(s, vm.S()) && SameMaps(s, vm.S()) && SameTables(t, vm.S(), d)
  {
    if f != 0 { HoldingGrown(s, t, vm.S(), d, Up(oldsz), v, f, ZeroPage()); }
    ghost var t' := vm.S();
    assert SameTables(t, t', d) by { assert t.IsDir(d); }
    var size;
    panicked, size := Deallocuvm(vm, d, newsz, oldsz);
    ghost var u := vm.S();
    if oldsz == newsz { NothingToDrop(t', d, Up(oldsz), Up(newsz)); }
    Undone(s, t', u, d, Up(oldsz), v, Up(newsz));
    DroppedTables(t', u, d, Up(oldsz), Up(newsz));
    if f != 0 {
      PushedMaps(s, u, d, f);
      panicked := vm.Kfree(f);
      assert s.held + {f} - {f} == s.held;
    }
  }

  lemma PushedMaps(s: Sys, u: Sys, d: nat, f: nat)
    requires Ok(s) && Grew(s, u, d) && TablesOnly(s, u) && SameMaps(s, u) && f in u.held
    ensures u.Allocatable(f) && f !in u.free
    ensures var w := Pushed(u, f); Grew(s, w, d) && TablesOnly(s, w) && SameMaps(s, w)
  {
    PushOk(u, f);
    var w := Pushed(u, f);
    forall e: nat, p: nat, x: nat | s.IsDir(e) && p < NENTRIES && x < NENTRIES
      ensures Lookup(w.pages, e, p, x) == Lookup(s.pages, e, p, x)
    {
      assert u.IsDir(e) && TablesOwned(u, e);
      LookupKept(u, w, e, p, x);
    }
    assert forall g :: g in u.owner ==> g != f;
  }

  /** Pages that growing d by [lo, hi) takes: frames, and tables for entries without one. */
  ghost function Need(s: Sys, d: nat, lo: nat, hi: nat): (n: nat)
    requires d < |s.pages| && lo <= hi
  {
    hi - lo + |NewTables(s.pages[d], lo, hi)|
  }

  /** Memory runs out before the second page for an entry of [lo, hi) without a table: no table is made. */
  ghost predicate NoTableMade(s: Sys, d: nat, lo: nat, hi: nat)
    requires d < |s.pages| && hi <= 0x80000
  {
    forall v: nat :: lo <= v < hi && v / 1024 !in TableSet(s.pages[d]) ==> |s.free| < v - lo + 2
  }

  /** Running out at page v means there were fewer pages than needed. */
  lemma ShortOf(s: Sys, t: Sys, d: nat, lo: nat, v: nat, hi: nat)
    requires lo <= v < hi <= 0x80000 && Bought(s, t, d, lo, v, v - lo) && |t.free| < PageCost(t, d, v / 1024)
    ensures |s.free| < Need(s, d, lo, hi)
  {
    RunsShort(s, t, d, lo, v, hi, v - lo, 1);
  }

  /** ... and whether a table has been made by then. */
  lemma MadeIff(s: Sys, t: Sys, d: nat, lo: nat, v: nat, hi: nat)
    requires lo <= v < hi <= 0x80000 && Bought(s, t, d, lo, v, v - lo) && |t.free| < PageCost(t, d, v / 1024)
    ensures TableSet(t.pages[d]) <= TableSet(s.pages[d]) <==> NoTableMade(s, d, lo, hi)
  {
    BoughtTables(s, t, d, lo, v, v - lo);
    if q :| q in NewTables(s.pages[d], lo, v) {
      var w := EntryPage(q, lo, v);
      assert q in TableSet(t.pages[d]) && |s.free| >= w - lo + 2;
    } else {
      assert NewTables(s.pages[d], lo, v) == {};
      forall w: nat | lo <= w < hi && w / 1024 !in TableSet(s.pages[d]) ensures |s.free| < w - lo + 2 {
        if w < v { EarlyTable(s, d, lo, w, v); }
      }
    }
  }

  lemma EarlyTable(s: Sys, d: nat, lo: nat, w: nat, v: nat)
    requires d < |s.pages| && lo <= w < v <= 0x80000
    ensures w / 1024 in TableSet(s.pages[d]) || w / 1024 in NewTables(s.pages[d], lo, v)
  {
    PageEntry(w, lo, v);
  }

  /** allocuvm's loop at page v. */
  ghost predicate Growing(s: Sys, t: Sys, d: nat, lo: nat, v: nat) {
    lo <= v && Grown(s, t, d, lo, v) && Bought(s, t, d, lo, v, v - lo) && t.held == s.held
  }

  /** How the loop ends: with the range, if there were pages enough, or with what a failure leaves. */
  ghost predicate GrowDone(s: Sys, t: Sys, d: nat, lo: nat, hi: nat, ok: bool)
    requires d < |s.pages| && lo <= hi
  {
    match ok
    case true => |s.free| >= Need(s, d, lo, hi) && Grown(s, t, d, lo, hi) && t.held == s.held
    case false => |s.free| < Need(s, d, lo, hi) && Failed(s, t, d, lo, hi) && t.held == s.held
  }

  /** What allocuvm is called with. */
  ghost predicate CanGrow(s: Sys, d: nat, lo: nat, hi: nat) {
    Ok(s) && s.IsDir(d) && lo <= hi <= 0x80000 && Unmapped(s, d, lo, hi)
  }

  lemma PageFree(s: Sys, t: Sys, d: nat, lo: nat, v: nat, p: nat, x: nat, hi: nat)
    requires CanGrow(s, d, lo, hi) && lo <= v < hi && v == 1024 * p + x && x < NENTRIES && Grown(s, t, d, lo, v)
    ensures Ok(t) && t.IsDir(d) && p < USER && Lookup(t.pages, d, p, x) == 0
  {
    UnmappedStill(s, t, d, lo, p, x, hi);
  }

  lemma GrowingNext(s: Sys, t: Sys, u: Sys, d: nat, lo: nat, v: nat, p: nat, x: nat, f: nat)
    requires Ok(s) && s.IsDir(d) && v < 0x80000 && v == 1024 * p + x && x < NENTRIES && Growing(s, t, d, lo, v)
    requires Tried(t, u, d, p, x, true, f)
    ensures Growing(s, u, d, lo, v + 1)
  {
    GrownNext(s, t, u, d, lo, v, p, x, f);
    PageOf(v, p, x);
    TookNext(s, t, u, d, lo, v);
  }

  lemma GrownNext(s: Sys, t: Sys, u: Sys, d: nat, lo: nat, v: nat, p: nat, x: nat, f: nat)
    requires Ok(s) && s.IsDir(d) && lo <= v < 0x80000 && v == 1024 * p + x && x < NENTRIES && Grown(s, t, d, lo, v) && t.held == s.held
    requires Added(t, u, d, p, x, f, PTE_W + PTE_U, ZeroPage())
    ensures Grown(s, u, d, lo, v + 1)
  {
    GrownStep(s, t, u, d, lo, v, p, x, f);
  }

  lemma PageOf(v: nat, p: nat, x: nat)
    requires v == 1024 * p + x && x < 1024
    ensures v / 1024 == p && v % 1024 == x
  {
  }

  lemma TookNext(s: Sys, t: Sys, u: Sys, d: nat, lo: nat, v: nat)
    requires lo <= v < 0x80000 && Bought(s, t, d, lo, v, v - lo) && Took(t, u, d, v / 1024, 1)
    ensures Bought(s, u, d, lo, v + 1, v + 1 - lo)
  {
    BoughtNext(s, t, u, d, lo, v, v - lo, 1);
  }

  /** The way out, with what it means for the free list. */
  method BackOut(vm: Vm, d: nat, oldsz: nat, newsz: nat, f: nat, ghost s: Sys, ghost t: Sys, ghost v: nat, ghost p: nat, ghost x: nat)
    returns (panicked: bool)
    requires CanGrow(s, d, Up(oldsz), Up(newsz)) && v < Up(newsz) && Growing(s, t, d, Up(oldsz), v) && oldsz <= newsz < KERNBASE
    requires v == 1024 * p + x && x < NENTRIES && Tried(t, vm.S(), d, p, x, false, f)
    modifies vm
    ensures !panicked && GrowDone(s, vm.S(), d, Up(oldsz), Up(newsz), false)
  {
    PageOf(v, p, x);
    ShortOf(s, t, d, Up(oldsz), v, Up(newsz));
    panicked := GiveUp(vm, d, oldsz, newsz, f, s, t, v);
    FailedIs(s, t, vm.S(), d, Up(oldsz), v, Up(newsz));
  }

  lemma GrowingStart(s: Sys, d: nat, lo: nat)
    requires Ok(s) && s.IsDir(d) && lo <= 0x80000
    ensures Growing(s, s, d, lo, lo)
  {
    GrownStart(s, d, lo);
    BoughtNone(s, d, lo);
  }

  /** allocuvm: if the free list has the frames and tables it takes, d gains fresh zeroed user pages for exactly
      [oldsz, newsz) and nothing else changes; otherwise every address space translates as before, and the
      free pages are the same exactly when memory ran out before a table was made. */
  method Allocuvm(vm: Vm, d: nat, oldsz: nat, newsz: nat) returns (r: nat, panicked: bool)
    requires Ok(vm.S()) && vm.S().IsDir(d) && Unmapped(vm.S(), d, Up(oldsz), Up(newsz))
    modifies vm
    ensures !panicked && vm.held == old(vm.held)
    ensures newsz >= KERNBASE ==> r == 0 && vm.S() == old(vm.S())
    ensures newsz < KERNBASE && newsz < oldsz ==> r == oldsz && vm.S() == old(vm.S())
    ensures oldsz <= newsz < KERNBASE ==>
      if |old(vm.free)| >= Need(old(vm.S()), d, Up(oldsz), Up(newsz))
      then r == newsz && Grown(old(vm.S()), vm.S(), d, Up(oldsz), Up(newsz))
      else r == 0 && Failed(old(vm.S()), vm.S(), d, Up(oldsz), Up(newsz))
  {
    panicked := false;
    if newsz >= KERNBASE { return 0, false; }
    if newsz < oldsz { return oldsz, false; }
    var ok;
    ok, panicked := GrowAll(vm, d, oldsz, newsz);
    r := if ok then newsz else 0;
  }

  /** One round: page v, which is (p, x), or the way out. */
  method GrowRound(vm: Vm, d: nat, oldsz: nat, newsz: nat, v: nat, p: nat, x: nat, ghost s: Sys) returns (ok: bool, v': nat, panicked: bool)
    requires v == 1024 * p + x && x < NENTRIES && oldsz <= newsz < KERNBASE && CanGrow(s, d, Up(oldsz), Up(newsz)) && v < Up(newsz) && Growing(s, vm.S(), d, Up(oldsz), v)
    modifies vm
    ensures v' == v + 1 && !panicked
    ensures ok ==> Growing(s, vm.S(), d, Up(oldsz), v')
    ensures !ok ==> GrowDone(s, vm.S(), d, Up(oldsz), Up(newsz), false)
  {
    ghost var t := vm.S();
    PageFree(s, t, d, Up(oldsz), v, p, x, Up(newsz));
    var f;
    ok, f := AllocPage(vm, d, p, x);
    v', panicked := v + 1, false;
    if ok {
      GrowingNext(s, t, vm.S(), d, Up(oldsz), v, p, x, f);
    } else {
      panicked := BackOut(vm, d, oldsz, newsz, f, s, t, v, p, x);
    }
  }

  /** The loop. */
  method GrowAll(vm: Vm, d: nat, oldsz: nat, newsz: nat) returns (ok: bool, panicked: bool)
    requires oldsz <= newsz < KERNBASE && CanGrow(vm.S(), d, Up(oldsz), Up(newsz))
    modifies vm
    ensures !panicked && GrowDone(old(vm.S()), vm.S(), d, Up(oldsz), Up(newsz), ok)
  {
    ghost var s := vm.S();
    var v := Up(oldsz);
    GrowingStart(s, d, v);
    while 4096 * v < newsz
      invariant v <= Up(newsz) && Growing(s, vm.S(), d, Up(oldsz), v)
      decreases Up(newsz) - v
    {
      UpAbove(newsz, v);
      ok, v, panicked := GrowRound(vm, d, oldsz, newsz, v, v / 1024, v % 1024, s);
      if !ok { return; }
    }
    UpExact(newsz, v);
    GrownDone(s, vm.S(), d, Up(oldsz), v, Up(newsz));
    return true, false;
  }

  lemma UpAbove(sz: nat, v: nat)
    requires 4096 * v < sz
    ensures v < Up(sz)
  {
  }

  lemma UpExact(sz: nat, v: nat)
    requires sz <= 4096 * v && v <= Up(sz)
    ensures v == Up(sz)
  {
  }

  /** A grown range was paid for. */
  lemma GrownDone(s: Sys, t: Sys, d: nat, lo: nat, v: nat, hi: nat)
    requires Growing(s, t, d, lo, v) && v == hi && d < |s.pages|
    ensures GrowDone(s, t, d, lo, hi, true)
  {
    BoughtTables(s, t, d, lo, v, v - lo);
  }

  /** What a failed allocuvm leaves. */
  ghost predicate Failed(s: Sys, u: Sys, d: nat, lo: nat, hi: nat) {
    && Grew(s, u, d) && TablesOnly(s, u) && SameMaps(s, u) && d < |s.pages| && hi <= 0x80000
    && (FreeSet(u) == FreeSet(s) <==> NoTableMade(s, d, lo, hi))
  }

  lemma FailedIs(s: Sys, t: Sys, u: Sys, d: nat, lo: nat, v: nat, hi: nat)
    requires Ok(s) && s.IsDir(d) && Grew(s, u, d) && TablesOnly(s, u) && SameMaps(s, u) && u.held == s.held && SameTables(t, u, d)
    requires lo <= v < hi <= 0x80000 && Bought(s, t, d, lo, v, v - lo) && |t.free| < PageCost(t, d, v / 1024)
    ensures Failed(s, u, d, lo, hi)
  {
    SameFreeIff(s, u, d);
    MadeIff(s, t, d, lo, v, hi);
  }
}
