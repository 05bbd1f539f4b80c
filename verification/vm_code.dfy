/** kalloc.c and vm.c as they run, one call at a time: page-table entries written
    in place, loops stepping page by page. */
module VmCode {
  import opened VmPages

  datatype MapOutcome = MapDone | NoMemory | Remap

  // ---- relations between two states ----

  /** Which address space a page in use belongs to. */
  ghost function Space(s: Sys, f: nat): (d: nat)
    requires f in s.owner
  {
    match s.owner[f]
    case Dir => f
    case Table(d, _) => d
    case User(d, _, _) => d
  }

  /** No page was lost or gained; pages in use keep their role, and user memory its contents. */
  ghost predicate Kept(s: Sys, t: Sys) {
    && Ok(t) && t.kend == s.kend && |t.pages| == |s.pages| && Total(t) == Total(s)
    && (forall g :: g in s.owner ==> g in t.owner && t.owner[g] == s.owner[g])
    && (forall g :: g in s.owner && s.owner[g].User? && g < |s.pages| ==> t.pages[g] == s.pages[g])
  }

  /** Held pages have their contents. */
  ghost predicate HeldKept(s: Sys, t: Sys) {
    |t.pages| == |s.pages| && forall g :: g in s.held && g < |s.pages| ==> t.pages[g] == s.pages[g]
  }

  /** Pages newly in use belong to address space d. */
  ghost predicate Grew(s: Sys, t: Sys, d: nat) {
    Kept(s, t) && forall g :: g in t.owner && g !in s.owner ==> Space(t, g) == d
  }

  ghost predicate TablesOnly(s: Sys, t: Sys) { forall g :: g in t.owner && g !in s.owner ==> t.owner[g].Table? }

  /** Every directory of s translates every virtual page as before. */
  ghost predicate SameMaps(s: Sys, t: Sys) {
    && |t.pages| == |s.pages|
    && forall e: nat, p: nat, x: nat :: s.IsDir(e) && p < NENTRIES && x < NENTRIES ==>
         Lookup(t.pages, e, p, x) == Lookup(s.pages, e, p, x)
  }

  /** ... except that page (p, x) of directory d now has entry w. */
  ghost predicate OneMapped(s: Sys, t: Sys, d: nat, p: nat, x: nat, w: nat) {
    && |t.pages| == |s.pages|
    && forall e: nat, q: nat, y: nat :: s.IsDir(e) && q < NENTRIES && y < NENTRIES ==>
         Lookup(t.pages, e, q, y) == if (e, q, y) == (d, p, x) then w else Lookup(s.pages, e, q, y)
  }

  /** Directory d has a table behind entry p and is otherwise the same; a new table came from the free list. */
  ghost predicate TableAt(s: Sys, t: Sys, d: nat, p: nat) {
    && d < |s.pages| && d < |t.pages| && p < NENTRIES
    && (forall q: nat :: q < NENTRIES ==> (Present(t.pages[d][q]) <==> Present(s.pages[d][q]) || q == p))
    && |t.free| == |s.free| - if Present(s.pages[d][p]) then 0 else 1
  }

  /** Entry (p, x) of d was set to frame f.  A user frame goes from held to being d's memory; anything
      else newly in use is a page table. */
  ghost predicate Placed(s: Sys, t: Sys, d: nat, p: nat, x: nat, f: nat, perm: nat)
    requires perm < 4096
  {
    && Grew(s, t, d) && OneMapped(s, t, d, p, x, Entry(f, perm)) && TableAt(s, t, d, p)
    && (p < USER ==>
          && t.held == s.held - {f} && f < |t.pages| && t.pages[f] == s.pages[f] && f in t.owner && t.owner[f] == User(d, p, x)
          && forall g :: g in t.owner && g !in s.owner ==> g == f || t.owner[g].Table?)
    && (p >= USER ==> t.held == s.held && TablesOnly(s, t))
  }

  lemma GrewTwice(s: Sys, t: Sys, u: Sys, d: nat)
    requires Grew(s, t, d) && Grew(t, u, d)
    ensures Grew(s, u, d)
  {
    forall g | g in u.owner && g !in s.owner ensures Space(u, g) == d {
      if g in t.owner { assert u.owner[g] == t.owner[g]; }
    }
  }

  /** Pages only leave the free list while nothing is handed back. */
  lemma FreeShrinks(s: Sys, t: Sys)
    requires Ok(s) && Kept(s, t) && s.held <= t.held
    ensures FreeSet(t) <= FreeSet(s)
  {
    forall f | f in FreeSet(t) ensures f in FreeSet(s) { assert f in Total(t); }
  }

  // ---- walkpgdir's allocation ----

  lemma NewTable(s: Sys, d: nat, p: nat)
    requires Ok(s) && s.IsDir(d) && p < NENTRIES && !Present(s.pages[d][p]) && s.free != []
    ensures s.head < |s.pages| && s.head != d
    ensures var t := WithTable(Popped(s), d, p, s.head);
            && Grew(s, t, d) && TablesOnly(s, t) && SameMaps(s, t) && HeldKept(s, t)
            && t.held == s.held && Present(t.pages[d][p])
  {
    PopOk(s);
    var u := Popped(s);
    WithTableOk(u, d, p, s.head);
    var t := WithTable(u, d, p, s.head);
    forall e: nat, q: nat, x: nat | s.IsDir(e) && q < NENTRIES && x < NENTRIES
      ensures Lookup(t.pages, e, q, x) == Lookup(s.pages, e, q, x)
    {
      WithTableLookup(u, d, p, s.head, e, q, x);
    }
    assert RoleHolds(s, d);
    assert t.held == s.held;
  }

  lemma NewUser(s: Sys, d: nat, p: nat, x: nat, f: nat, perm: nat)
    requires Ok(s) && s.IsDir(d) && p < USER && x < NENTRIES && Present(s.pages[d][p]) && perm < 4096
    requires Lookup(s.pages, d, p, x) == 0 && f in s.held
    ensures FrameOf(s.pages[d][p]) < |s.pages|
    ensures var t := WithUser(s, d, p, x, f, perm);
            Grew(s, t, d) && OneMapped(s, t, d, p, x, Entry(f, perm)) && t.held == s.held - {f} && t.pages[f] == s.pages[f]
  {
    WithUserOk(s, d, p, x, f, perm);
    var t := WithUser(s, d, p, x, f, perm);
    forall e: nat, q: nat, y: nat | s.IsDir(e) && q < NENTRIES && y < NENTRIES
      ensures Lookup(t.pages, e, q, y) == if (e, q, y) == (d, p, x) then Entry(f, perm) else Lookup(s.pages, e, q, y)
    {
      WithEntryLookup(s, d, p, x, Entry(f, perm), e, q, y);
    }
    assert TablesOwned(s, d);
  }

  lemma NewKernel(s: Sys, d: nat, p: nat, x: nat, w: nat)
    requires Ok(s) && s.IsDir(d) && USER <= p < NENTRIES && x < NENTRIES && Present(s.pages[d][p]) && Present(w)
    ensures FrameOf(s.pages[d][p]) < |s.pages|
    ensures var t := WithEntry(s, d, p, x, w);
            Grew(s, t, d) && TablesOnly(s, t) && OneMapped(s, t, d, p, x, w) && t.held == s.held
  {
    KernelEntryOk(s, d, p, x, w);
    var t := WithEntry(s, d, p, x, w);
    forall e: nat, q: nat, y: nat | s.IsDir(e) && q < NENTRIES && y < NENTRIES
      ensures Lookup(t.pages, e, q, y) == if (e, q, y) == (d, p, x) then w else Lookup(s.pages, e, q, y)
    {
      WithEntryLookup(s, d, p, x, w, e, q, y);
    }
    assert TablesOwned(s, d);
  }

  /** The pages that lie wholly between two addresses. */
  predicate Within(f: int, vstart: nat, vend: nat) { vstart <= 4096 * f && 4096 * f + 4096 <= vend }

  /** Page f is one the allocator never had. */
  ghost predicate Unknown(s: Sys, f: nat) { f !in FreeSet(s) && f !in s.held && f !in s.owner }

  /** From s to t, exactly the pages from `first` below p were added to the free list. */
  ghost predicate Given(s: Sys, t: Sys, first: nat, p: nat) {
    && Ok(t) && t.kend == s.kend && t.held == s.held && t.owner == s.owner && TablesKept(s, t)
    && (forall f: nat :: f in FreeSet(t) <==> f in FreeSet(s) || first <= f < p)
  }

  /** Where freerange stops: after the last page of the range, or at a page that makes kfree panic. */
  ghost predicate Handed(first: nat, p: nat, vstart: nat, vend: nat, panicked: bool, t: Sys) {
    && first <= p && vstart <= 4096 * first < vstart + 4096
    && (forall f: nat :: first <= f < p ==> Within(f, vstart, vend) && t.Allocatable(f))
    && if panicked then Within(p, vstart, vend) && !t.Allocatable(p) else vend < 4096 * p + 4096
  }

  /** So it panics exactly when some page of the range is not allocatable, and otherwise the free list
      gains exactly the pages of the range. */
  lemma RangeIff(s: Sys, t: Sys, first: nat, p: nat, vstart: nat, vend: nat, panicked: bool)
    requires Given(s, t, first, p) && Handed(first, p, vstart, vend, panicked, t)
    ensures panicked <==> exists f: nat :: Within(f, vstart, vend) && !t.Allocatable(f)
    ensures !panicked ==> forall f: nat :: f in FreeSet(t) <==> f in FreeSet(s) || Within(f, vstart, vend)
  {
    forall f: nat | !panicked && Within(f, vstart, vend) ensures first <= f < p { }
    if panicked { assert Within(p, vstart, vend) && !t.Allocatable(p); }
  }

  /** Handing the allocator a page it never had. */
  lemma AddOk(s: Sys, f: nat)
    requires Ok(s) && Unknown(s, f) && s.Allocatable(f)
    ensures Ok(Pushed(s, f)) && Pushed(s, f).held == s.held && TablesKept(s, Pushed(s, f)) && FreeSet(Pushed(s, f)) == FreeSet(s) + {f}
  {
    var t := Pushed(s, f);
    assert f !in s.free by { assert f !in FreeSet(s); }
    PushList(s, f);
    assert Apart(t) by {
      forall g | g in t.free ensures g in s.free || g == f { assert g in FreeSet(t); }
    }
    SameTablesOk(s, t);
  }

  lemma GivenOne(s: Sys, t: Sys, first: nat, p: nat)
    requires Given(s, t, first, p) && first <= p && Unknown(s, p) && t.Allocatable(p)
    ensures Given(s, Pushed(t, p), first, p + 1)
  {
    AddOk(t, p);
  }

  lemma TableNotDir(s: Sys, d: nat, p: nat)
    requires Ok(s) && s.IsDir(d) && p < NENTRIES && Present(s.pages[d][p])
    ensures FrameOf(s.pages[d][p]) != d
  {
    assert TablesOwned(s, d);
  }

  class Vm {
    const kend: nat
    var pages: seq<Page>
    var head: nat                   // kmem.freelist
    ghost var free: seq<nat>
    ghost var owner: map<nat, Role>
    ghost var held: set<nat>

    ghost function S(): (s: Sys)
      reads this
    {
      Sys(kend, pages, head, free, owner, held)
    }

    /** Before kinit1: nothing has been handed to the allocator. */
    constructor (kend: nat, pages: seq<Page>)
      requires 0 < kend
      ensures this.kend == kend && this.pages == pages && Ok(S()) && Total(S()) == {}
    {
      this.kend, this.pages, head := kend, pages, 0;
      free, owner, held := [], map[], {};
    }

    /** kalloc: the first page of the free list, or 0. */
    method Kalloc() returns (f: nat)
      requires Ok(S())
      modifies this`head, this`free, this`held
      ensures Ok(S()) && Total(S()) == old(Total(S()))
      ensures f == 0 <==> old(free) == []
      ensures f == 0 ==> S() == old(S())
      ensures f != 0 ==> f == old(free)[0] && S() == Popped(old(S())) && f in held && f !in old(held)
      ensures f != 0 ==> f in FreeSet(old(S())) && f < |pages|
    {
      f := head;
      if f != 0 {
        PopOk(S());
        assert free[0] in free;
        head, free, held := pages[f][0], free[1..], held + {f};
      }
    }

    /** kfree: panic outside allocatable memory, otherwise junk-fill and push.  The caller must not free
        a page that is free. */
    method Kfree(f: nat) returns (panicked: bool)
      requires Linked(pages, head, free) && f !in free && 0 < kend
      modifies this`pages, this`head, this`free, this`held
      ensures panicked <==> f < kend || f >= |pages|
      ensures panicked ==> S() == old(S())
      ensures !panicked ==> f < |old(pages)| && S() == Pushed(old(S()), f)
      ensures Linked(pages, head, free)
    {
      if f < kend || f >= |pages| { return true; }
      PushList(S(), f);
      pages := pages[f := Junk(head)];
      head, free, held := f, [f] + free, held - {f};
      return false;
    }

    /** freerange: hand over every page wholly inside the range; panic at the first that is not allocatable. */
    method Freerange(vstart: nat, vend: nat) returns (panicked: bool)
      requires Ok(S()) && forall f: nat :: Within(f, vstart, vend) ==> Unknown(S(), f)
      modifies this`pages, this`head, this`free, this`held
      ensures exists first: nat, p: nat :: Handed(first, p, vstart, vend, panicked, S()) && Given(old(S()), S(), first, p)
    {
      ghost var s := S();
      var first := (vstart + 4095) / 4096;
      var p := first;
      while 4096 * p + 4096 <= vend
        invariant first <= p && Given(s, S(), first, p) && vstart <= 4096 * first < vstart + 4096
        invariant forall f: nat :: first <= f < p ==> Within(f, vstart, vend) && S().Allocatable(f)
        decreases vend - 4096 * p
      {
        assert Within(p, vstart, vend);
        if S().Allocatable(p) { GivenOne(s, S(), first, p); }
        panicked := Kfree(p);
        if panicked { return; }
        p := p + 1;
      }
      panicked := false;
    }

    /** walkpgdir: is there a table behind entry p of d, created if asked for and possible? */
    method Walkpgdir(d: nat, p: nat, alloc: bool) returns (ok: bool)
      requires Ok(S()) && S().IsDir(d) && p < NENTRIES
      modifies this`pages, this`head, this`free, this`owner, this`held
      ensures Present(old(pages)[d][p]) ==> ok && S() == old(S())
      ensures !ok ==> S() == old(S()) && (!alloc || free == [])
      ensures ok && !Present(old(pages)[d][p]) ==> alloc && FreeSet(S()) == FreeSet(old(S())) - {old(head)}
      ensures alloc && free != [] ==> ok
      ensures ok ==> Grew(old(S()), S(), d) && TablesOnly(old(S()), S()) && SameMaps(old(S()), S())
      ensures ok ==> Present(pages[d][p]) && held == old(held) && HeldKept(old(S()), S()) && TableAt(old(S()), S(), d, p)
    {
      ghost var s := S();
      if Present(pages[d][p]) { return true; }
      if !alloc { return false; }
      if free != [] { NewTable(s, d, p); }
      var t := Kalloc();
      if t == 0 { return false; }
      pages := PutWord(pages[t := ZeroPage()], d, p, Entry(t, PTE_W + PTE_U));
      owner, held := owner[t := Table(d, p)], held - {t};
      return true;
    }

    /** Store a user entry in the table that is there. */
    method SetUser(d: nat, p: nat, x: nat, f: nat, perm: nat)
      requires Ok(S()) && S().IsDir(d) && p < USER && x < NENTRIES && perm < 4096 && f in held
      requires Present(pages[d][p]) && Lookup(pages, d, p, x) == 0
      modifies this`pages, this`owner, this`held
      ensures Grew(old(S()), S(), d) && OneMapped(old(S()), S(), d, p, x, Entry(f, perm))
      ensures held == old(held) - {f} && f < |pages| && pages[f] == old(pages)[f]
      ensures owner == old(owner)[f := User(d, p, x)] && pages[d] == old(pages)[d]
    {
      NewUser(S(), d, p, x, f, perm);
      TableNotDir(S(), d, p);
      pages := PutWord(pages, FrameOf(pages[d][p]), x, Entry(f, perm));
      owner, held := owner[f := User(d, p, x)], held - {f};
    }

    /** Store a kernel entry in the table that is there. */
    method SetKernel(d: nat, p: nat, x: nat, f: nat, perm: nat)
      requires Ok(S()) && S().IsDir(d) && USER <= p < NENTRIES && x < NENTRIES && perm < 4096 && Present(pages[d][p])
      modifies this`pages
      ensures Grew(old(S()), S(), d) && TablesOnly(old(S()), S()) && OneMapped(old(S()), S(), d, p, x, Entry(f, perm))
      ensures pages[d] == old(pages)[d]
    {
      NewKernel(S(), d, p, x, Entry(f, perm));
      TableNotDir(S(), d, p);
      pages := PutWord(pages, FrameOf(pages[d][p]), x, Entry(f, perm));
    }

    /** Store an entry in the table that is there. */
    method SetEntry(d: nat, p: nat, x: nat, f: nat, perm: nat)
      requires Ok(S()) && S().IsDir(d) && p < NENTRIES && x < NENTRIES && perm < 4096 && (p < USER ==> f in held)
      requires Present(pages[d][p]) && Lookup(pages, d, p, x) == 0
      modifies this`pages, this`owner, this`held
      ensures Placed(old(S()), S(), d, p, x, f, perm)
    {
      if p < USER {
        SetUser(d, p, x, f, perm);
      } else {
        SetKernel(d, p, x, f, perm);
      }
    }

    /** One round of mappages: entry (p, x) of d set to frame f.  A user frame must be held by the
        caller; the page table then owns it. */
    method MapPage(d: nat, p: nat, x: nat, f: nat, perm: nat) returns (r: MapOutcome)
      requires Ok(S()) && S().IsDir(d) && p < NENTRIES && x < NENTRIES && perm < 4096
      requires p < USER ==> f in held
      modifies this`pages, this`head, this`free, this`owner, this`held
      ensures r.Remap? <==> Lookup(old(pages), d, p, x) != 0
      ensures r.NoMemory? ==> free == [] && !Present(old(pages)[d][p])
      ensures !r.MapDone? ==> S() == old(S())
      ensures r.MapDone? ==> Placed(old(S()), S(), d, p, x, f, perm)
    {
      ghost var s := S();
      var ok := Walkpgdir(d, p, true);
      if !ok {
        assert Lookup(s.pages, d, p, x) == 0;
        return NoMemory;
      }
      ghost var t := S();
      TableThere(s, t, d, p, x);
      if Present(pages[FrameOf(pages[d][p])][x]) {
        NoLookupNoTable(s, d, p, x);
        return Remap;
      }
      SetEntry(d, p, x, f, perm);
      PlacedAfter(s, t, S(), d, p, x, f, perm);
      return MapDone;
    }
  }

  lemma TableThere(s: Sys, t: Sys, d: nat, p: nat, x: nat)
    requires Grew(s, t, d) && SameMaps(s, t) && s.IsDir(d) && p < NENTRIES && x < NENTRIES && Present(t.pages[d][p])
    ensures t.IsDir(d) && FrameOf(t.pages[d][p]) < |t.pages|
    ensures Lookup(t.pages, d, p, x) == Lookup(s.pages, d, p, x)
  {
    assert TablesOwned(t, d) && RoleHolds(t, FrameOf(t.pages[d][p]));
  }

  lemma TableAtTwice(s: Sys, t: Sys, u: Sys, d: nat, p: nat)
    requires TableAt(s, t, d, p) && TableAt(t, u, d, p)
    ensures TableAt(s, u, d, p)
  {
  }

  lemma PlacedAfter(s: Sys, t: Sys, u: Sys, d: nat, p: nat, x: nat, f: nat, perm: nat)
    requires Grew(s, t, d) && TablesOnly(s, t) && SameMaps(s, t) && t.held == s.held && HeldKept(s, t) && perm < 4096
    requires TableAt(s, t, d, p) && Placed(t, u, d, p, x, f, perm) && (p < USER ==> f in s.held)
    ensures Placed(s, u, d, p, x, f, perm)
  {
    GrewTwice(s, t, u, d);
    TableAtTwice(s, t, u, d, p);
    MappedAfter(s, t, u, d, p, x, Entry(f, perm));
  }

  lemma NoLookupNoTable(s: Sys, d: nat, p: nat, x: nat)
    requires d < |s.pages| && p < NENTRIES && x < NENTRIES && Lookup(s.pages, d, p, x) != 0
    ensures Present(s.pages[d][p])
  {
  }

  lemma MappedAfter(s: Sys, t: Sys, u: Sys, d: nat, p: nat, x: nat, w: nat)
    requires SameMaps(s, t) && OneMapped(t, u, d, p, x, w) && Kept(s, t)
    ensures OneMapped(s, u, d, p, x, w)
    ensures TablesOnly(s, t) && TablesOnly(t, u) && Kept(t, u) ==> TablesOnly(s, u)
  {
    forall e: nat, q: nat, y: nat | s.IsDir(e) && q < NENTRIES && y < NENTRIES
      ensures Lookup(u.pages, e, q, y) == if (e, q, y) == (d, p, x) then w else Lookup(s.pages, e, q, y)
    {
      assert t.IsDir(e);
    }
  }
}
