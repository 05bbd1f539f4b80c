/** freevm: tearing an address space down gives back every page it had, once. */
module VmFree {
  import opened VmPages
  import opened VmCode
  import opened VmSpaces

  /** The pages in use by address space d. */
  ghost function SpacePages(s: Sys, d: nat): (r: set<nat>) { set g | g in s.owner && Space(s, g) == d }

  /** d is gone, its pages are free, and nobody else notices. */
  ghost predicate Freed(s: Sys, t: Sys, d: nat) {
    && Ok(t) && t.kend == s.kend && |t.pages| == |s.pages| && t.held == s.held
    && FreeSet(t) == FreeSet(s) + SpacePages(s, d)
    && (forall g :: g in t.owner <==> g in s.owner && Space(s, g) != d)
    && (forall g :: g in t.owner ==> t.owner[g] == s.owner[g])
    && (forall g :: g in t.owner && t.owner[g].User? && g < |s.pages| ==> t.pages[g] == s.pages[g])
    && (forall e: nat, p: nat, x: nat :: t.IsDir(e) && p < NENTRIES && x < NENTRIES ==>
          Lookup(t.pages, e, p, x) == Lookup(s.pages, e, p, x))
  }

  predicate TableBelow(r: Role, d: nat, i: nat) { r.Table? && r.d == d && r.p < i }

  ghost function TablesBelow(t: Sys, d: nat, i: nat): (r: set<nat>) { set g | g in t.owner && TableBelow(t.owner[g], d, i) }

  /** freevm's loop has freed the tables behind entries below i; the directory is still there. */
  ghost predicate TablesFreed(t: Sys, u: Sys, d: nat, i: nat) {
    && u.kend == t.kend && |u.pages| == |t.pages| && u.held == t.held && u.owner == t.owner
    && Linked(u.pages, u.head, u.free) && FreeSet(u) == FreeSet(t) + TablesBelow(t, d, i)
    && forall g :: g in t.owner && !TableBelow(t.owner[g], d, i) && g < |t.pages| ==> u.pages[g] == t.pages[g]
  }

  lemma NextTable(t: Sys, d: nat, i: nat)
    requires Ok(t) && t.IsDir(d) && i < NENTRIES
    ensures !Present(t.pages[d][i]) ==> TablesBelow(t, d, i + 1) == TablesBelow(t, d, i)
    ensures Present(t.pages[d][i]) ==>
      var f := FrameOf(t.pages[d][i]);
      && t.Allocatable(f) && f !in FreeSet(t) && f !in t.held && f !in TablesBelow(t, d, i)
      && TablesBelow(t, d, i + 1) == TablesBelow(t, d, i) + {f}
  {
    assert TablesOwned(t, d);
    forall g | g in TablesBelow(t, d, i + 1) && g !in TablesBelow(t, d, i)
      ensures Present(t.pages[d][i]) && g == FrameOf(t.pages[d][i])
    {
      assert RoleHolds(t, g);
    }
    if Present(t.pages[d][i]) { assert RoleHolds(t, FrameOf(t.pages[d][i])); }
  }

  /** One round of freevm's loop. */
  method FreeTable(vm: Vm, d: nat, i: nat, ghost t: Sys) returns (panicked: bool)
    requires Ok(t) && t.IsDir(d) && i < NENTRIES && TablesFreed(t, vm.S(), d, i)
    modifies vm
    ensures !panicked && TablesFreed(t, vm.S(), d, i + 1)
  {
    NextTable(t, d, i);
    panicked := false;
    if Present(vm.pages[d][i]) {
      var f := FrameOf(vm.pages[d][i]);
      ghost var u := vm.S();
      assert f !in vm.free by { assert f !in FreeSet(u); }
      PushList(u, f);
      panicked := vm.Kfree(f);
      assert vm.held == t.held;
      assert TablesOwned(t, d) && t.owner[f] == Table(d, i);
    }
  }

  ghost predicate NoMemoryOf(t: Sys, d: nat) { forall g :: g in t.owner ==> !(t.owner[g].User? && t.owner[g].d == d) }

  lemma AllMemoryDropped(s: Sys, t: Sys, d: nat)
    requires Ok(s) && Dropped(s, t, d, 0, 0x80000)
    ensures NoMemoryOf(t, d)
  {
    forall g | g in t.owner ensures !(t.owner[g].User? && t.owner[g].d == d) { assert RoleHolds(s, g); }
  }

  lemma SpaceIsTables(t: Sys, d: nat)
    requires Ok(t) && t.IsDir(d) && NoMemoryOf(t, d)
    ensures SpacePages(t, d) == TablesBelow(t, d, NENTRIES) + {d}
  {
    forall g | g in SpacePages(t, d) ensures g == d || g in TablesBelow(t, d, NENTRIES) { assert RoleHolds(t, g); }
  }

  /** With the directory freed and its pages disowned, what is left is in order. */
  lemma FreedAll(t: Sys, u: Sys, w: Sys, d: nat)
    requires Ok(t) && t.IsDir(d) && NoMemoryOf(t, d) && TablesFreed(t, u, d, NENTRIES) && d !in u.free
    requires w == Sys(u.kend, Pushed(u, d).pages, d, [d] + u.free, map g | g in t.owner && Space(t, g) != d :: t.owner[g], u.held - {d})
    ensures Freed(t, w, d)
  {
    assert RoleHolds(t, d);
    SpaceIsTables(t, d);
    PushList(u, d);
    assert FreeSet(w) == FreeSet(Pushed(u, d));
    assert w.held == t.held;
    FreedApart(t, w, d);
    FreedRoles(t, w, d);
  }

  lemma FreedApart(t: Sys, w: Sys, d: nat)
    requires Ok(t) && w.kend == t.kend && |w.pages| == |t.pages| && w.held == t.held
    requires w.owner == map g | g in t.owner && Space(t, g) != d :: t.owner[g]
    requires FreeSet(w) == FreeSet(t) + SpacePages(t, d)
    ensures Apart(w)
  {
    forall f | f in w.free ensures f !in w.owner && w.Allocatable(f) {
      assert f in FreeSet(w);
      if f in t.owner { assert RoleHolds(t, f); }
    }
    forall f | f in w.held ensures f !in w.owner && f !in w.free && w.Allocatable(f) {
      assert f !in FreeSet(w);
    }
  }

  lemma FreedRoles(t: Sys, w: Sys, d: nat)
    requires Ok(t) && w.kend == t.kend && |w.pages| == |t.pages|
    requires w.owner == map g | g in t.owner && Space(t, g) != d :: t.owner[g]
    requires forall g :: g in w.owner && g < |t.pages| ==> w.pages[g] == t.pages[g]
    ensures Roles(w)
    ensures forall e: nat, p: nat, x: nat :: w.IsDir(e) && p < NENTRIES && x < NENTRIES ==>
      Lookup(w.pages, e, p, x) == Lookup(t.pages, e, p, x)
  {
    forall e: nat, p: nat, x: nat | w.IsDir(e) && p < NENTRIES && x < NENTRIES
      ensures Lookup(w.pages, e, p, x) == Lookup(t.pages, e, p, x)
    {
      assert t.IsDir(e) && TablesOwned(t, e);
    }
    forall g | g in w.owner ensures RoleHolds(w, g) { assert RoleHolds(t, g); }
    forall e | w.IsDir(e) ensures TablesOwned(w, e) && MemoryOwned(w, e) {
      assert t.IsDir(e) && TablesOwned(t, e) && MemoryOwned(t, e);
    }
  }

  /** The pages a drop puts on the free list are pages of d. */
  lemma DroppedFreeSet(s: Sys, t: Sys, d: nat)
    requires Ok(s) && Dropped(s, t, d, 0, 0x80000)
    ensures FreeSet(t) + SpacePages(t, d) == FreeSet(s) + SpacePages(s, d)
  {
    var a, b := FreeSet(t) + SpacePages(t, d), FreeSet(s) + SpacePages(s, d);
    forall g | g in a || g in b ensures g in a && g in b {
      assert g in Total(s) && g in Total(t);
      assert g in s.held <==> g in t.held;
    }
  }

  /** Dropping the memory first and the rest afterwards frees the whole space. */
  lemma DroppedThenFreed(s: Sys, t: Sys, w: Sys, d: nat)
    requires Ok(s) && s.IsDir(d) && Dropped(s, t, d, 0, 0x80000) && Freed(t, w, d)
    ensures Freed(s, w, d)
  {
    DroppedFreeSet(s, t, d);
  }

  /** The directory itself. */
  method FreeDir(vm: Vm, d: nat, ghost t: Sys) returns (panicked: bool)
    requires Ok(t) && t.IsDir(d) && NoMemoryOf(t, d) && TablesFreed(t, vm.S(), d, NENTRIES)
    modifies vm
    ensures !panicked && Freed(t, vm.S(), d)
  {
    ghost var u := vm.S();
    assert t.Allocatable(d) && d !in vm.free by { assert RoleHolds(t, d) && d !in FreeSet(u); }
    panicked := vm.Kfree(d);
    vm.owner := map g | g in t.owner && Space(t, g) != d :: t.owner[g];
    FreedAll(t, u, vm.S(), d);
  }

  /** freevm: user memory, then page tables, then the directory; every page exactly once, no panic. */
  method Freevm(vm: Vm, d: nat) returns (panicked: bool)
    requires Ok(vm.S()) && vm.S().IsDir(d)
    modifies vm
    ensures !panicked && Freed(old(vm.S()), vm.S(), d)
  {
    ghost var s := vm.S();
    var size;
    panicked, size := Deallocuvm(vm, d, KERNBASE, 0);
    ghost var t := vm.S();
    assert Up(KERNBASE) == 0x80000;
    AllMemoryDropped(s, t, d);
    var i := 0;
    assert FreeSet(t) == FreeSet(t) + TablesBelow(t, d, 0);
    while i < NENTRIES
      invariant 0 <= i <= NENTRIES && !panicked && TablesFreed(t, vm.S(), d, i)
    {
      panicked := FreeTable(vm, d, i, t);
      i := i + 1;
    }
    panicked := FreeDir(vm, d, t);
    DroppedThenFreed(s, t, vm.S(), d);
  }
}
