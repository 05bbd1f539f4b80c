/** copyuvm: fork's copy of an address space, all or nothing. */
module VmCopy {
  import opened VmPages
  import opened VmCode
  import opened VmSpaces
  import opened VmCost
  import opened VmGrow
  import opened VmFree
  import opened VmKernel

  /** Page (p, x) of c is a private copy of the same page of d: same flags, same contents, a frame that was free. */
  ghost predicate CopyOf(s: Sys, t: Sys, d: nat, c: nat, p: nat, x: nat)
    requires d < |s.pages| && c < |t.pages| && p < NENTRIES && x < NENTRIES
  {
    var w, w' := Lookup(s.pages, d, p, x), Lookup(t.pages, c, p, x);
    && w != 0 && FrameOf(w) < |s.pages| && FrameOf(w') in FreeSet(s) && FrameOf(w') < |t.pages|
    && w' == Entry(FrameOf(w'), FlagsOf(w)) && t.pages[FrameOf(w')] == s.pages[FrameOf(w)]
  }

  /** c has the kernel map, copies of the pages of d below v, and nothing else. */
  ghost predicate Copied(s: Sys, t: Sys, d: nat, c: nat, v: nat, data: nat) {
    && Grew(s, t, c) && SameMaps(s, t) && t.held == s.held && c !in s.owner && t.IsDir(c) && s.IsDir(d)
    && (forall p: nat, x: nat :: p < USER && x < NENTRIES && 1024 * p + x < v ==> CopyOf(s, t, d, c, p, x))
    && (forall p: nat, x: nat :: p < NENTRIES && x < NENTRIES && (p < USER ==> v <= 1024 * p + x) ==>
          Lookup(t.pages, c, p, x) == KernelEntry(data, 1024 * p + x))
  }

  lemma CopyStep(s: Sys, t: Sys, u: Sys, d: nat, c: nat, v: nat, next: nat, p: nat, x: nat, f: nat, pg: Page, data: nat)
    requires Ok(s) && Copied(s, t, d, c, v, data) && v == 1024 * p + x && p < USER && x < NENTRIES && next == v + 1
    requires var w := Lookup(s.pages, d, p, x);
      w != 0 && FrameOf(w) < |s.pages| && pg == s.pages[FrameOf(w)] && Added(t, u, c, p, x, f, FlagsOf(w), pg)
    ensures Copied(s, u, d, c, next, data)
  {
    GrewTwice(s, t, u, c);
    FreeShrinks(s, t);
    assert SameMaps(s, u) by {
      forall e: nat, q: nat, y: nat | s.IsDir(e) && q < NENTRIES && y < NENTRIES
        ensures Lookup(u.pages, e, q, y) == Lookup(s.pages, e, q, y)
      {
        assert t.IsDir(e);
      }
    }
    CopyPages(s, t, u, d, c, v, p, x, f, pg, data);
  }

  lemma CopyPages(s: Sys, t: Sys, u: Sys, d: nat, c: nat, v: nat, p: nat, x: nat, f: nat, pg: Page, data: nat)
    requires Ok(s) && Copied(s, t, d, c, v, data) && v == 1024 * p + x && p < USER && x < NENTRIES && FreeSet(t) <= FreeSet(s)
    requires var w := Lookup(s.pages, d, p, x);
      w != 0 && FrameOf(w) < |s.pages| && pg == s.pages[FrameOf(w)] && Added(t, u, c, p, x, f, FlagsOf(w), pg)
    ensures forall q: nat, y: nat :: q < USER && y < NENTRIES && 1024 * q + y < v + 1 ==> CopyOf(s, u, d, c, q, y)
    ensures forall q: nat, y: nat :: q < NENTRIES && y < NENTRIES && (q < USER ==> v + 1 <= 1024 * q + y) ==>
      Lookup(u.pages, c, q, y) == KernelEntry(data, 1024 * q + y)
  {
    forall q: nat, y: nat | q < USER && y < NENTRIES && 1024 * q + y < v + 1 ensures CopyOf(s, u, d, c, q, y) {
      FlatInjective(p, x, q, y);
      if (q, y) != (p, x) { CopyStays(s, t, u, d, c, q, y); }
    }
    forall q: nat, y: nat | q < NENTRIES && y < NENTRIES && (q < USER ==> v + 1 <= 1024 * q + y)
      ensures Lookup(u.pages, c, q, y) == KernelEntry(data, 1024 * q + y)
    {
      assert Lookup(u.pages, c, q, y) == Lookup(t.pages, c, q, y);
    }
  }

  /** A copied page stays a copy as long as its entry stays. */
  lemma CopyStays(s: Sys, t: Sys, u: Sys, d: nat, c: nat, q: nat, y: nat)
    requires Kept(t, u) && Ok(t) && t.IsDir(c) && d < |s.pages| && q < USER && y < NENTRIES && CopyOf(s, t, d, c, q, y)
    requires Lookup(u.pages, c, q, y) == Lookup(t.pages, c, q, y)
    ensures CopyOf(s, u, d, c, q, y)
  {
    assert MemoryOwned(t, c);
  }

  /** The page behind a mapped user entry holds in t what it held in s. */
  lemma ParentPage(s: Sys, t: Sys, d: nat, p: nat, x: nat)
    requires Ok(s) && Kept(s, t) && SameMaps(s, t) && s.IsDir(d) && p < USER && x < NENTRIES && Lookup(s.pages, d, p, x) != 0
    ensures var w := Lookup(s.pages, d, p, x);
      Lookup(t.pages, d, p, x) == w && FrameOf(w) < |s.pages| && t.pages[FrameOf(w)] == s.pages[FrameOf(w)]
  {
    assert MemoryOwned(s, d) && RoleHolds(s, FrameOf(Lookup(s.pages, d, p, x)));
  }

  /** A page taken and put back. */
  lemma TakenBack(t: Sys, u: Sys, c: nat, f: nat, pg: Page)
    requires Holding(t, u, f, pg)
    ensures u.Allocatable(f) && f !in u.free && 0 < u.kend
    ensures var w := Pushed(u, f); Grew(t, w, c) && SameMaps(t, w) && w.held == t.held
  {
    HoldingMaps(t, u, f, pg);
    PushedMaps(t, u, c, f);
    assert t.held + {f} - {f} == t.held;
  }

  /** The copy of one page: kalloc, memmove, mappages.  On failure the page in hand is freed again. */
  method CopyPage(vm: Vm, c: nat, p: nat, x: nat, pa: nat, flags: nat) returns (ok: bool, f: nat)
    requires Ok(vm.S()) && vm.S().IsDir(c) && p < USER && x < NENTRIES && Lookup(vm.pages, c, p, x) == 0
    requires pa < |vm.pages| && flags < 4096
    modifies vm
    ensures ok ==> Added(old(vm.S()), vm.S(), c, p, x, f, flags, old(vm.pages)[pa]) && Took(old(vm.S()), vm.S(), c, p, 1)
    ensures !ok ==> Grew(old(vm.S()), vm.S(), c) && SameMaps(old(vm.S()), vm.S()) && vm.held == old(vm.held)
    ensures !ok ==> |old(vm.free)| < PageCost(old(vm.S()), c, p)
  {
    ghost var t := vm.S();
    ghost var pg := vm.pages[pa];
    if vm.free != [] { HoldingOk(t, pg); }
    f := vm.Kalloc();
    if f == 0 { return false, 0; }
    vm.pages := vm.pages[f := vm.pages[pa]];
    ghost var u := vm.S();
    HoldingMaps(t, u, f, pg);
    var r := vm.MapPage(c, p, x, f, flags);
    ok := r.MapDone?;
    if ok {
      AddedHeld(t, u, vm.S(), c, p, x, f, flags, pg);
      HoldingTook(t, u, vm.S(), c, p, f, pg);
    } else {
      TakenBack(t, u, c, f, pg);
      var panicked := vm.Kfree(f);
    }
  }

  /** copyuvm's way out. */
  method Discard(vm: Vm, c: nat, ghost s: Sys, ghost t: Sys) returns (panicked: bool)
    requires Ok(s) && c !in s.owner && Grew(s, t, c) && SameMaps(s, t) && t.IsDir(c) && t.held == s.held
    requires Grew(t, vm.S(), c) && SameMaps(t, vm.S()) && vm.held == t.held
    modifies vm
    ensures !panicked && Untouched(s, vm.S())
  {
    ghost var u := vm.S();
    SpaceKept(s, t, u, c);
    panicked := Freevm(vm, c);
    BackToStart(s, u, vm.S(), c);
  }

  /** Pages that copying the first n pages of a parent takes: the kernel map, and frames and tables for them. */
  function CopyCost(n: nat): (r: nat) { KERNPAGES + n + TableEnd(n) }

  /** copyuvm's loop at page v; s1 is the state after setupkvm. */
  ghost predicate Copying(s: Sys, s1: Sys, t: Sys, d: nat, c: nat, v: nat, data: nat) {
    && Copied(s, t, d, c, v, data) && Bought(s1, t, c, 0, v, v)
    && c < |s1.pages| && TableSet(s1.pages[c]) == KernelTables() && |s1.free| + KERNPAGES == |s.free|
  }

  lemma CopyingStart(s: Sys, s1: Sys, d: nat, c: nat, data: nat)
    requires Ok(s) && s.IsDir(d) && FreshSpace(s, s1, c, data)
    ensures Copying(s, s1, s1, d, c, 0, data)
  {
    BoughtNone(s1, c, 0);
  }

  /** What the pages copied so far took. */
  lemma CopyPaid(s: Sys, s1: Sys, t: Sys, d: nat, c: nat, v: nat, data: nat)
    requires Copying(s, s1, t, d, c, v, data) && v <= 0x80000
    ensures |t.free| + CopyCost(v) == |s.free|
  {
    FreshUser(s1.pages[c], v);
    BoughtTables(s1, t, c, 0, v, v);
  }

  lemma FreshUser(dir: Page, n: nat)
    requires TableSet(dir) == KernelTables() && n <= 0x80000
    ensures |NewTables(dir, 0, n)| == TableEnd(n)
  {
    forall q: nat | q < TableEnd(n) && q < NENTRIES ensures q !in TableSet(dir) { assert !KernelTable(q); }
    FreshTables(dir, n);
  }

  /** No memory for page v. */
  lemma CopyShort(s: Sys, s1: Sys, t: Sys, d: nat, c: nat, v: nat, data: nat)
    requires Copying(s, s1, t, d, c, v, data) && v < 0x80000 && |t.free| < PageCost(t, c, v / 1024)
    ensures |s.free| < CopyCost(v + 1)
  {
    FreshUser(s1.pages[c], v + 1);
    RunsShort(s1, t, c, 0, v, v + 1, v, 1);
  }

  lemma CopyTook(s1: Sys, t: Sys, u: Sys, c: nat, v: nat, next: nat, p: nat, x: nat)
    requires v == 1024 * p + x && p < USER && x < NENTRIES && next == v + 1 && Bought(s1, t, c, 0, v, v) && Took(t, u, c, p, 1)
    ensures Bought(s1, u, c, 0, next, next)
  {
    assert v / 1024 == p;
    BoughtNext(s1, t, u, c, 0, v, v, 1);
  }

  lemma CopyingNext(s: Sys, s1: Sys, t: Sys, u: Sys, d: nat, c: nat, v: nat, next: nat, p: nat, x: nat, f: nat, pg: Page, data: nat)
    requires Ok(s) && Copying(s, s1, t, d, c, v, data) && v == 1024 * p + x && p < USER && x < NENTRIES && next == v + 1
    requires var w := Lookup(s.pages, d, p, x);
      w != 0 && FrameOf(w) < |s.pages| && pg == s.pages[FrameOf(w)] && Added(t, u, c, p, x, f, FlagsOf(w), pg)
    requires Took(t, u, c, p, 1)
    ensures Copying(s, s1, u, d, c, next, data)
  {
    CopyStep(s, t, u, d, c, v, next, p, x, f, pg, data);
    CopyTook(s1, t, u, c, v, next, p, x);
  }

  /** One round of copyuvm's loop. */
  method CopyRound(vm: Vm, d: nat, c: nat, v: nat, p: nat, x: nat, ghost s: Sys, ghost s1: Sys, ghost data: nat)
      returns (ok: bool, next: nat, panicked: bool)
    requires Ok(s) && Copying(s, s1, vm.S(), d, c, v, data) && v == 1024 * p + x
    requires p < USER && x < NENTRIES && Lookup(s.pages, d, p, x) != 0
    modifies vm
    ensures !panicked && next == v + 1
    ensures ok ==> Copying(s, s1, vm.S(), d, c, next, data)
    ensures !ok ==> Untouched(s, vm.S()) && |s.free| < CopyCost(next)
  {
    ghost var t := vm.S();
    ParentPage(s, t, d, p, x);
    var w := Lookup(vm.pages, d, p, x);
    ghost var pg := vm.pages[FrameOf(w)];
    NotYet(s, t, d, c, v, p, x, data);
    var f;
    ok, f := CopyPage(vm, c, p, x, FrameOf(w), FlagsOf(w));
    next, panicked := v + 1, false;
    if ok {
      CopyingNext(s, s1, t, vm.S(), d, c, v, next, p, x, f, pg, data);
    } else {
      CopyShort(s, s1, t, d, c, v, data);
      panicked := Discard(vm, c, s, t);
    }
  }

  /** Page v of the child is still empty. */
  lemma NotYet(s: Sys, t: Sys, d: nat, c: nat, v: nat, p: nat, x: nat, data: nat)
    requires Copied(s, t, d, c, v, data) && v == 1024 * p + x && p < USER && x < NENTRIES
    ensures Ok(t) && t.IsDir(c) && Lookup(t.pages, c, p, x) == 0 && v / 1024 == p
  {
  }

  /** The parent still reads as at the start, so a page missing now was missing then. */
  lemma HoleIff(s: Sys, t: Sys, d: nat, c: nat, v: nat, data: nat)
    requires Ok(s) && Copied(s, t, d, c, v, data) && v < 0x80000
    ensures d < |t.pages| && Lookup(t.pages, d, v / 1024, v % 1024) == Lookup(s.pages, d, v / 1024, v % 1024)
  {
    assert v / 1024 < USER && 1024 * (v / 1024) + v % 1024 == v;
  }

  /** The first of d's pages [v, n) that is not mapped, or n. */
  ghost function Hole(s: Sys, d: nat, v: nat, n: nat): (h: nat)
    requires d < |s.pages| && v <= n <= 0x80000
    ensures v <= h <= n && (h < n ==> Lookup(s.pages, d, h / 1024, h % 1024) == 0)
    decreases n - v
  {
    if v == n || Lookup(s.pages, d, v / 1024, v % 1024) == 0 then v else Hole(s, d, v + 1, n)
  }

  /** copyuvm: up to the first hole h in the parent's memory, if there are pages for it.  Without a hole and with
      pages enough, the child has the parent's flags and bytes on frames of its own, and the parent and every other
      process are untouched; with pages enough to reach a hole it panics; otherwise every page is back where it was. */
  method Copyuvm(vm: Vm, d: nat, sz: nat, data: nat) returns (c: nat, panicked: bool)
    requires Ok(vm.S()) && vm.S().IsDir(d) && sz <= KERNBASE && 0x100 < data < 0xE000
    modifies vm
    ensures var h := Hole(old(vm.S()), d, 0, Up(sz));
      CopyEnd(old(vm.S()), vm.S(), d, c, data, h, Up(sz), panicked)
  {
    ghost var s := vm.S();
    c, panicked := Setupkvm(vm, data);
    if c == 0 { return; }
    ghost var s1 := vm.S();
    CopyingStart(s, s1, d, c, data);
    var v := 0;
    while 4096 * v < sz
      invariant 0 <= v <= Up(sz) && c != 0 && !panicked && Copying(s, s1, vm.S(), d, c, v, data)
      invariant Hole(s, d, 0, Up(sz)) == Hole(s, d, v, Up(sz))
      decreases Up(sz) - v
    {
      UpAbove(sz, v);
      HoleIff(s, vm.S(), d, c, v, data);
      if Lookup(vm.pages, d, v / 1024, v % 1024) == 0 {
        CopyPaid(s, s1, vm.S(), d, c, v, data);
        return c, true;
      }
      var ok, next;
      ok, next, panicked := CopyRound(vm, d, c, v, v / 1024, v % 1024, s, s1, data);
      if !ok {
        CostMore(next, Hole(s, d, 0, Up(sz)));
        return 0, panicked;
      }
      v := next;
    }
    UpExact(sz, v);
    CopyPaid(s, s1, vm.S(), d, c, v, data);
  }

  lemma CostMore(m: nat, n: nat)
    requires m <= n
    ensures CopyCost(m) <= CopyCost(n)
  {
  }

  /** How copyuvm of n pages ends, with the parent's first hole at h. */
  ghost predicate CopyEnd(s: Sys, t: Sys, d: nat, c: nat, data: nat, h: nat, n: nat, panicked: bool) {
    && (c == 0 <==> |s.free| < CopyCost(h)) && (panicked <==> c != 0 && h < n)
    && (c == 0 ==> Untouched(s, t))
    && (c != 0 && !panicked ==> Copied(s, t, d, c, n, data))
  }

  /** The copy is private: no frame of the child is a frame of anyone else. */
  lemma CopyIsPrivate(s: Sys, t: Sys, d: nat, c: nat, v: nat, data: nat, e: nat, p: nat, x: nat, q: nat, y: nat)
    requires Ok(s) && Copied(s, t, d, c, v, data) && t.IsDir(e) && p < USER && x < NENTRIES && q < USER && y < NENTRIES
    requires Lookup(t.pages, c, p, x) != 0 && Lookup(t.pages, e, q, y) != 0 && (e, q, y) != (c, p, x)
    ensures FrameOf(Lookup(t.pages, c, p, x)) != FrameOf(Lookup(t.pages, e, q, y))
  {
    assert MemoryOwned(t, c) && MemoryOwned(t, e);
  }
}
