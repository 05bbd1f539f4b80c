/** Whole address spaces: growing, shrinking, copying and freeing them. */
module VmSpaces {
  import opened Common
  import opened VmPages
  import opened VmCode

  const KERNBASE: nat := 0x8000_0000

  /** PGROUNDUP(sz) / PGSIZE: the first page number not below sz. */
  function Up(sz: nat): (v: nat)
    ensures 4096 * v >= sz && (v > 0 ==> 4096 * (v - 1) < sz)
  {
    (sz + 4095) / 4096
  }

  /** Virtual page (p, x) is user page number 1024 * p + x in [lo, hi). */
  predicate InRange(p: nat, x: nat, lo: nat, hi: nat) { p < USER && lo <= 1024 * p + x < hi }

  // ---- deallocuvm ----

  predicate Gone(r: Role, d: nat, lo: nat, hi: nat) { r.User? && r.d == d && InRange(r.p, r.x, lo, hi) }

  /** Exactly the pages of d in [lo, hi) are unmapped and back on the free list. */
  ghost predicate Dropped(s: Sys, t: Sys, d: nat, lo: nat, hi: nat) {
    && Ok(t) && t.kend == s.kend && |t.pages| == |s.pages| && Total(t) == Total(s) && t.held == s.held
    && (forall g :: g in t.owner <==> g in s.owner && !Gone(s.owner[g], d, lo, hi))
    && (forall g :: g in t.owner ==> t.owner[g] == s.owner[g])
    && (forall g :: g in t.owner && t.owner[g].User? && g < |s.pages| ==> t.pages[g] == s.pages[g])
    && (forall e: nat, p: nat, x: nat :: s.IsDir(e) && p < NENTRIES && x < NENTRIES ==>
          Lookup(t.pages, e, p, x) == if e == d && InRange(p, x, lo, hi) then 0 else Lookup(s.pages, e, p, x))
  }

  /** Freeing the page behind (p, x) and clearing its entry. */
  function FreedOne(s: Sys, d: nat, p: nat, x: nat, f: nat): (t: Sys)
    requires d < |s.pages| && p < NENTRIES && x < NENTRIES && FrameOf(s.pages[d][p]) < |s.pages| && f < |s.pages|
  {
    Pushed(WithoutUser(s, d, p, x, f), f)
  }

  /** Page numbers name virtual pages. */
  lemma FlatInjective(p: nat, x: nat, q: nat, y: nat)
    requires x < 1024 && y < 1024
    ensures 1024 * p + x == 1024 * q + y <==> p == q && x == y
  {
  }

  lemma FreeOneLookup(s: Sys, d: nat, p: nat, x: nat, f: nat, e: nat, q: nat, y: nat)
    requires Ok(s) && s.IsDir(d) && p < USER && x < NENTRIES && Lookup(s.pages, d, p, x) != 0
    requires f == FrameOf(Lookup(s.pages, d, p, x)) && f < |s.pages| && FrameOf(s.pages[d][p]) < |s.pages|
    requires s.IsDir(e) && q < NENTRIES && y < NENTRIES
    ensures Lookup(FreedOne(s, d, p, x, f).pages, e, q, y)
            == if (e, q, y) == (d, p, x) then 0 else Lookup(s.pages, e, q, y)
  {
    WithoutUserOk(s, d, p, x, f);
    var u := WithoutUser(s, d, p, x, f);
    PushOk(u, f);
    WithEntryLookup(s, d, p, x, 0, e, q, y);
    assert u.IsDir(e) && TablesOwned(u, e);
    LookupKept(u, Pushed(u, f), e, q, y);
  }

  lemma FreeOneOk(s: Sys, d: nat, p: nat, x: nat, f: nat)
    requires Ok(s) && s.IsDir(d) && p < USER && x < NENTRIES && Lookup(s.pages, d, p, x) != 0
    requires f == FrameOf(Lookup(s.pages, d, p, x))
    ensures s.Allocatable(f) && f !in s.free && FrameOf(s.pages[d][p]) < |s.pages| && f != FrameOf(s.pages[d][p]) && f != d
    ensures var t := FreedOne(s, d, p, x, f); Ok(t) && Total(t) == Total(s) && t.held == s.held
    ensures s.owner[f] == User(d, p, x) && s.owner[FrameOf(s.pages[d][p])] == Table(d, p)
  {
    WithoutUserOk(s, d, p, x, f);
    assert RoleHolds(s, f) && TablesOwned(s, d);
    PushOk(WithoutUser(s, d, p, x, f), f);
  }

  lemma FreeOneRoles(s: Sys, d: nat, p: nat, x: nat, f: nat, g: nat)
    requires Ok(s) && f in s.owner && s.owner[f] == User(d, p, x) && g in s.owner
    requires Gone(s.owner[g], d, 1024 * p + x, 1024 * p + x + 1)
    ensures g == f
  {
    assert RoleHolds(s, g) && RoleHolds(s, f);
    FlatInjective(p, x, s.owner[g].p, s.owner[g].x);
  }

  lemma FreeOne(s: Sys, d: nat, p: nat, x: nat, f: nat)
    requires Ok(s) && s.IsDir(d) && p < USER && x < NENTRIES && Lookup(s.pages, d, p, x) != 0
    requires f == FrameOf(Lookup(s.pages, d, p, x))
    ensures s.Allocatable(f) && f !in s.free && FrameOf(s.pages[d][p]) < |s.pages| && f != FrameOf(s.pages[d][p]) && f != d
    ensures Dropped(s, FreedOne(s, d, p, x, f), d, 1024 * p + x, 1024 * p + x + 1)
  {
    FreeOneOk(s, d, p, x, f);
    var t := FreedOne(s, d, p, x, f);
    forall e: nat, q: nat, y: nat | s.IsDir(e) && q < NENTRIES && y < NENTRIES
      ensures Lookup(t.pages, e, q, y)
              == if e == d && InRange(q, y, 1024 * p + x, 1024 * p + x + 1) then 0 else Lookup(s.pages, e, q, y)
    {
      FreeOneLookup(s, d, p, x, f, e, q, y);
      FlatInjective(p, x, q, y);
    }
    forall g | g in s.owner && Gone(s.owner[g], d, 1024 * p + x, 1024 * p + x + 1) ensures g == f {
      FreeOneRoles(s, d, p, x, f, g);
    }
  }

  /** Dropping [lo, v) and then [v, w) drops [lo, w). */
  lemma DroppedTwice(s: Sys, t: Sys, u: Sys, d: nat, lo: nat, v: nat, w: nat)
    requires Dropped(s, t, d, lo, v) && Dropped(t, u, d, v, w) && lo <= v <= w && s.IsDir(d)
    ensures Dropped(s, u, d, lo, w)
  {
    forall e: nat, p: nat, x: nat | s.IsDir(e) && p < NENTRIES && x < NENTRIES
      ensures Lookup(u.pages, e, p, x) == if e == d && InRange(p, x, lo, w) then 0 else Lookup(s.pages, e, p, x)
    {
      assert t.IsDir(e);
    }
  }

  /** Where nothing is mapped there is nothing to drop. */
  lemma NothingToDrop(t: Sys, d: nat, v: nat, w: nat)
    requires Ok(t) && t.IsDir(d)
    requires forall p: nat, x: nat :: p < NENTRIES && x < NENTRIES && InRange(p, x, v, w) ==> Lookup(t.pages, d, p, x) == 0
    ensures Dropped(t, t, d, v, w)
  {
    forall g | g in t.owner ensures !Gone(t.owner[g], d, v, w) {
      assert RoleHolds(t, g);
    }
  }

  /** kfree of the page, and its entry cleared. */
  method DropEntry(vm: Vm, table: nat, x: nat, f: nat) returns (panicked: bool)
    requires Linked(vm.pages, vm.head, vm.free) && 0 < vm.kend && f !in vm.free && table < |vm.pages| && x < NENTRIES
    modifies vm
    ensures panicked <==> f < vm.kend || f >= |old(vm.pages)|
    ensures !panicked ==> f < |old(vm.pages)|
    ensures !panicked ==>
      vm.S() == Sys(vm.kend, PutWord(old(vm.pages)[f := Junk(old(vm.head))], table, x, 0), f, [f] + old(vm.free),
                    map g | g in old(vm.owner) && g != f :: old(vm.owner)[g], old(vm.held) - {f})
  {
    panicked := vm.Kfree(f);
    if panicked { return; }
    vm.pages := PutWord(vm.pages, table, x, 0);
    vm.owner := map g | g in vm.owner && g != f :: vm.owner[g];
  }

  /** kfree the page behind a mapped user entry, then clear the entry. */
  method FreeUser(vm: Vm, d: nat, p: nat, x: nat) returns (panicked: bool)
    requires Ok(vm.S()) && vm.S().IsDir(d) && p < USER && x < NENTRIES && Lookup(vm.pages, d, p, x) != 0
    modifies vm
    ensures !panicked && Dropped(old(vm.S()), vm.S(), d, 1024 * p + x, 1024 * p + x + 1)
  {
    ghost var s := vm.S();
    var table := FrameOf(vm.pages[d][p]);
    var f := FrameOf(vm.pages[table][x]);
    FreeOne(s, d, p, x, f);
    if f == 0 { return true; }
    panicked := DropEntry(vm, table, x, f);
    FreedOneIs(s, vm.S(), d, p, x, f);
  }

  /** The order of the two writes does not matter. */
  lemma FreedOneIs(s: Sys, t: Sys, d: nat, p: nat, x: nat, f: nat)
    requires d < |s.pages| && p < NENTRIES && x < NENTRIES && FrameOf(s.pages[d][p]) < |s.pages| && f < |s.pages|
    requires f != FrameOf(s.pages[d][p]) && f !in s.held
    requires t.kend == s.kend && t.pages == PutWord(s.pages[f := Junk(s.head)], FrameOf(s.pages[d][p]), x, 0)
    requires t.head == f && t.free == [f] + s.free && t.held == s.held - {f}
    requires t.owner == map g | g in s.owner && g != f :: s.owner[g]
    ensures t == FreedOne(s, d, p, x, f)
  {
    var r := FreedOne(s, d, p, x, f);
    assert t.pages == r.pages;
    assert t.held == r.held;
  }

  /** Behind an absent table nothing is mapped. */
  lemma NoTableNothing(t: Sys, d: nat, p: nat, v: nat, w: nat)
    requires Ok(t) && t.IsDir(d) && p < USER && !Present(t.pages[d][p]) && 1024 * p <= v && w <= 1024 * (p + 1)
    ensures Dropped(t, t, d, v, w)
  {
    forall q: nat, x: nat | q < NENTRIES && x < NENTRIES && InRange(q, x, v, w) ensures Lookup(t.pages, d, q, x) == 0 {
      assert q == p;
    }
    NothingToDrop(t, d, v, w);
  }

  /** An entry that is not present maps nothing. */
  lemma NoEntryNothing(t: Sys, d: nat, p: nat, x: nat)
    requires Ok(t) && t.IsDir(d) && p < USER && x < NENTRIES && Lookup(t.pages, d, p, x) == 0
    ensures Dropped(t, t, d, 1024 * p + x, 1024 * p + x + 1)
  {
    forall q: nat, y: nat | q < NENTRIES && y < NENTRIES && InRange(q, y, 1024 * p + x, 1024 * p + x + 1)
      ensures Lookup(t.pages, d, q, y) == 0
    {
      FlatInjective(p, x, q, y);
    }
    NothingToDrop(t, d, 1024 * p + x, 1024 * p + x + 1);
  }

  /** One round of deallocuvm's loop at page number v; the next page number to look at. */
  method DeallocRound(vm: Vm, d: nat, v: nat, p: nat, x: nat, ghost hi: nat) returns (panicked: bool, next: nat)
    requires Ok(vm.S()) && vm.S().IsDir(d) && v == 1024 * p + x < hi && p < USER && x < NENTRIES
    modifies vm
    ensures !panicked && v < next && Dropped(old(vm.S()), vm.S(), d, v, Min(next, hi))
  {
    ghost var s := vm.S();
    var table := LookForTable(vm, d, p);
    panicked := false;
    if !table {
      next := 1024 * (p + 1);
      NoTableNothing(s, d, p, v, Min(next, hi));
    } else {
      next := v + 1;
      panicked := DeallocEntry(vm, d, p, x);
    }
  }

  /** deallocuvm on an entry whose table is there. */
  method DeallocEntry(vm: Vm, d: nat, p: nat, x: nat) returns (panicked: bool)
    requires Ok(vm.S()) && vm.S().IsDir(d) && p < USER && x < NENTRIES
    requires Present(vm.pages[d][p]) && FrameOf(vm.pages[d][p]) < |vm.pages|
    modifies vm
    ensures !panicked && Dropped(old(vm.S()), vm.S(), d, 1024 * p + x, 1024 * p + x + 1)
  {
    panicked := false;
    if Present(vm.pages[FrameOf(vm.pages[d][p])][x]) {
      panicked := FreeUser(vm, d, p, x);
    } else {
      NoEntryNothing(vm.S(), d, p, x);
    }
  }

  /** walkpgdir without allocation. */
  method LookForTable(vm: Vm, d: nat, p: nat) returns (found: bool)
    requires Ok(vm.S()) && vm.S().IsDir(d) && p < NENTRIES
    modifies vm
    ensures vm.S() == old(vm.S()) && found == Present(vm.pages[d][p])
    ensures found ==> FrameOf(vm.pages[d][p]) < |vm.pages|
  {
    found := vm.Walkpgdir(d, p, false);
    assert found ==> TablesOwned(vm.S(), d) && RoleHolds(vm.S(), FrameOf(vm.pages[d][p]));
  }

  /** deallocuvm: exactly the pages of d that lie in [newsz, oldsz) are unmapped and freed; nobody
      else's memory or translations change; neither panic can happen. */
  method Deallocuvm(vm: Vm, d: nat, oldsz: nat, newsz: nat) returns (panicked: bool, r: nat)
    requires Ok(vm.S()) && vm.S().IsDir(d) && oldsz <= KERNBASE
    modifies vm
    ensures !panicked && r == Min(oldsz, newsz)
    ensures Dropped(old(vm.S()), vm.S(), d, Up(newsz), if newsz < oldsz then Up(oldsz) else Up(newsz))
  {
    ghost var s := vm.S();
    if newsz >= oldsz {
      NothingToDrop(s, d, Up(newsz), Up(newsz));
      return false, oldsz;
    }
    var v := Up(newsz);
    ghost var lo, hi := Up(newsz), Up(oldsz);
    NothingToDrop(s, d, lo, lo);
    panicked := false;
    while 4096 * v < oldsz
      invariant lo <= v && lo <= hi && !panicked
      invariant Dropped(s, vm.S(), d, lo, Min(v, hi))
      decreases oldsz - 4096 * v
    {
      ghost var t := vm.S();
      assert v < hi;
      var next;
      panicked, next := DeallocRound(vm, d, v, v / 1024, v % 1024, hi);
      DroppedTwice(s, t, vm.S(), d, lo, v, Min(next, hi));
      v := next;
    }
    r := newsz;
  }
}
