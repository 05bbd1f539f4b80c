/** Physical pages as values: the free list threaded through free pages, two-level
    page tables, and who owns which page.

    A page is 1024 words.  An entry is a word: page frame number times 4096 plus
    flag bits, present when bit 0 is set.  A virtual page is named by its directory
    index p and table index x; its flat number is 1024 * p + x.  `owner` is a ghost
    map that inverts the tables: every page in use has exactly one role. */
module VmPages {
  import opened Common

  const NENTRIES: nat := 1024
  const USER: nat := 512             // directory entries below KERNBASE
  const PTE_W: nat := 2
  const PTE_U: nat := 4

  type Page = s: seq<nat> | |s| == NENTRIES witness seq(NENTRIES, i => 0)

  /** memset(page, 0, PGSIZE) */
  function ZeroPage(): (r: Page)
    ensures forall i :: 0 <= i < NENTRIES ==> r[i] == 0
  {
    seq(NENTRIES, i => 0)
  }

  // ---- entries ----

  predicate Present(w: nat) { w % 2 == 1 }

  function FrameOf(w: nat): (f: nat) { w / 4096 }

  function FlagsOf(w: nat): (r: nat) { w % 4096 }

  /** pa | perm | PTE_P, for the page-aligned pa of frame f. */
  function Entry(f: nat, perm: nat): (w: nat)
    requires perm < 4096
    ensures Present(w) && FrameOf(w) == f && FlagsOf(w) == if Present(perm) then perm else perm + 1
  {
    f * 4096 + if Present(perm) then perm else perm + 1
  }

  // ---- the system ----

  /** What a page in use is for. */
  datatype Role =
    | Dir                                  // a page directory
    | Table(d: nat, p: nat)                // the page table behind entry p of directory d
    | User(d: nat, p: nat, x: nat)         // the memory of virtual page (p, x) of directory d

  /** `kend` is the first page after the kernel; pages from there to the end of memory are allocatable.
      `held` are pages handed out by kalloc that no table refers to. */
  datatype Sys = Sys(kend: nat, pages: seq<Page>, head: nat, free: seq<nat>, owner: map<nat, Role>, held: set<nat>) {
    predicate Allocatable(f: nat) { kend <= f < |pages| }

    predicate IsDir(d: nat) { d in owner && owner[d] == Dir && d < |pages| }
  }

  /** kmem.freelist, linked through the first word of each free page. */
  ghost predicate Linked(pages: seq<Page>, head: nat, free: seq<nat>) {
    && Distinct(free)
    && (forall i :: 0 <= i < |free| ==> 0 < free[i] < |pages|)
    && head == (if free == [] then 0 else free[0])
    && (forall i: nat :: i < |free| ==> pages[free[i]][0] == Next(free, i))
  }

  function Next(free: seq<nat>, i: nat): (r: nat) { if i + 1 < |free| then free[i + 1] else 0 }

  /** The entry of virtual page (p, x), or 0 if it is not mapped. */
  function Lookup(pages: seq<Page>, d: nat, p: nat, x: nat): (w: nat)
    requires d < |pages| && p < NENTRIES && x < NENTRIES
  {
    var pde := pages[d][p];
    if !Present(pde) || FrameOf(pde) >= |pages| then 0
    else
      var w := pages[FrameOf(pde)][x];
      if Present(w) then w else 0
  }

  /** Directory entries name exactly the tables owned by the directory. */
  ghost predicate TablesOwned(s: Sys, d: nat)
    requires s.IsDir(d)
  {
    forall p: nat :: p < NENTRIES && Present(s.pages[d][p]) ==>
      FrameOf(s.pages[d][p]) in s.owner && s.owner[FrameOf(s.pages[d][p])] == Table(d, p)
  }

  /** User entries name exactly the memory owned by the directory. */
  ghost predicate MemoryOwned(s: Sys, d: nat)
    requires s.IsDir(d)
  {
    forall p: nat, x: nat :: p < USER && x < NENTRIES && Lookup(s.pages, d, p, x) != 0 ==>
      FrameOf(Lookup(s.pages, d, p, x)) in s.owner && s.owner[FrameOf(Lookup(s.pages, d, p, x))] == User(d, p, x)
  }

  /** A page's role is what the tables say. */
  ghost predicate RoleHolds(s: Sys, f: nat)
    requires f in s.owner
  {
    && s.Allocatable(f)
    && match s.owner[f]
       case Dir => true
       case Table(d, p) => s.IsDir(d) && p < NENTRIES && Present(s.pages[d][p]) && FrameOf(s.pages[d][p]) == f
       case User(d, p, x) =>
         && s.IsDir(d) && p < USER && x < NENTRIES
         && Lookup(s.pages, d, p, x) != 0 && FrameOf(Lookup(s.pages, d, p, x)) == f
  }

  /** Roles and tables agree. */
  ghost predicate Roles(s: Sys) {
    && (forall f :: f in s.owner ==> RoleHolds(s, f))
    && (forall d :: s.IsDir(d) ==> TablesOwned(s, d) && MemoryOwned(s, d))
  }

  /** A page is free, held or in use, and only one of these. */
  ghost predicate Apart(s: Sys) {
    && (forall f :: f in s.free ==> f !in s.owner && s.Allocatable(f))
    && (forall f :: f in s.held ==> f !in s.owner && f !in s.free && s.Allocatable(f))
  }

  ghost predicate Ok(s: Sys) { 0 < s.kend && Linked(s.pages, s.head, s.free) && Apart(s) && Roles(s) }

  ghost function FreeSet(s: Sys): (r: set<nat>) { set f | f in s.free }

  /** Every page there is: free, held or in use.  No operation may change this. */
  ghost function Total(s: Sys): (r: set<nat>) { FreeSet(s) + s.held + s.owner.Keys }

  /** Every page table and directory is as before, so every address translates as before. */
  ghost predicate TablesKept(s: Sys, t: Sys) {
    && |s.pages| == |t.pages|
    && forall f :: f in s.owner && (s.owner[f].Dir? || s.owner[f].Table?) && f < |s.pages| ==> t.pages[f] == s.pages[f]
  }

  lemma LookupKept(s: Sys, t: Sys, d: nat, p: nat, x: nat)
    requires TablesKept(s, t) && s.IsDir(d) && TablesOwned(s, d) && p < NENTRIES && x < NENTRIES
    ensures Lookup(t.pages, d, p, x) == Lookup(s.pages, d, p, x)
  {
  }

  // ---- kalloc and kfree ----

  /** kalloc: the head of the list. */
  function Popped(s: Sys): (t: Sys)
    requires s.free != [] && s.head < |s.pages|
  {
    Sys(s.kend, s.pages, s.pages[s.head][0], s.free[1..], s.owner, s.held + {s.head})
  }

  /** The page kfree leaves: junk, with the link to the old head in its first word. */
  function Junk(next: nat): (r: Page)
    ensures r[0] == next
  {
    seq(NENTRIES, i => 0x01010101)[0 := next]
  }

  function Pushed(s: Sys, f: nat): (t: Sys)
    requires f < |s.pages|
  {
    Sys(s.kend, s.pages[f := Junk(s.head)], f, [f] + s.free, s.owner, s.held - {f})
  }

  lemma PopList(s: Sys)
    requires Linked(s.pages, s.head, s.free) && s.free != []
    ensures s.head == s.free[0] && s.head < |s.pages| && s.head in s.free
    ensures Linked(s.pages, s.pages[s.head][0], s.free[1..])
    ensures FreeSet(Popped(s)) == FreeSet(s) - {s.head}
  {
    var rest := s.free[1..];
    forall i: nat | i < |rest| ensures s.pages[rest[i]][0] == Next(rest, i) {
      assert rest[i] == s.free[i + 1] && Next(rest, i) == Next(s.free, i + 1);
    }
    assert s.pages[s.free[0]][0] == Next(s.free, 0);
    forall f | f in s.free && f != s.head ensures f in rest {
      var i :| 0 <= i < |s.free| && s.free[i] == f;
      assert rest[i - 1] == f;
    }
  }

  lemma PopOk(s: Sys)
    requires Ok(s) && s.free != []
    ensures s.head == s.free[0] && s.head < |s.pages| && s.head !in s.held
    ensures Ok(Popped(s)) && Total(Popped(s)) == Total(s) && FreeSet(Popped(s)) == FreeSet(s) - {s.head}
  {
    var t := Popped(s);
    PopList(s);
    assert Apart(t) by {
      forall f | f in t.free ensures f in s.free && f != s.head { assert f in FreeSet(t); }
    }
    SameTablesOk(s, t);
    assert Total(t) == Total(s);
  }

  lemma PushList(s: Sys, f: nat)
    requires Linked(s.pages, s.head, s.free) && f !in s.free && 0 < f < |s.pages|
    ensures Linked(Pushed(s, f).pages, f, [f] + s.free) && FreeSet(Pushed(s, f)) == FreeSet(s) + {f}
  {
    var t := Pushed(s, f);
    forall i: nat | i < |t.free| ensures t.pages[t.free[i]][0] == Next(t.free, i) {
      if i > 0 {
        assert t.free[i] == s.free[i - 1] && s.free[i - 1] in s.free && Next(t.free, i) == Next(s.free, i - 1);
      }
    }
  }

  /** Freeing a held page. */
  lemma PushOk(s: Sys, f: nat)
    requires Ok(s) && f in s.held
    ensures f < |s.pages| && Ok(Pushed(s, f)) && TablesKept(s, Pushed(s, f)) && Total(Pushed(s, f)) == Total(s)
    ensures FreeSet(Pushed(s, f)) == FreeSet(s) + {f}
  {
    var t := Pushed(s, f);
    PushList(s, f);
    PushApart(s, f);
    SameTablesOk(s, t);
    assert FreeSet(t) + t.held == FreeSet(s) + s.held;
  }

  lemma PushApart(s: Sys, f: nat)
    requires Apart(s) && f in s.held
    ensures Apart(Pushed(s, f))
  {
    var t := Pushed(s, f);
    forall g | g in t.free ensures g in s.free || g == f {
      var i :| 0 <= i < |t.free| && t.free[i] == g;
      assert i > 0 ==> g == s.free[i - 1];
    }
  }

  /** Ownership carries over when neither roles nor tables change. */
  lemma SameTablesOk(s: Sys, t: Sys)
    requires Roles(s) && TablesKept(s, t) && t.owner == s.owner && t.kend == s.kend
    ensures Roles(t)
  {
    forall d, p: nat, x: nat | s.IsDir(d) && p < NENTRIES && x < NENTRIES
      ensures Lookup(t.pages, d, p, x) == Lookup(s.pages, d, p, x)
    {
      assert TablesOwned(s, d);
      LookupKept(s, t, d, p, x);
    }
    forall f | f in t.owner ensures RoleHolds(t, f) { assert RoleHolds(s, f); }
    forall d | t.IsDir(d) ensures TablesOwned(t, d) && MemoryOwned(t, d) { assert TablesOwned(s, d) && MemoryOwned(s, d); }
  }

  // ---- changing tables ----

  function PutWord(pages: seq<Page>, f: nat, i: nat, w: nat): (r: seq<Page>)
    requires f < |pages| && i < NENTRIES
    ensures |r| == |pages|
  {
    pages[f := pages[f][i := w]]
  }

  /** A popped page becomes an empty table behind entry p of directory d. */
  function WithTable(s: Sys, d: nat, p: nat, t: nat): (r: Sys)
    requires d < |s.pages| && t < |s.pages| && p < NENTRIES
  {
    Sys(s.kend, PutWord(s.pages[t := ZeroPage()], d, p, Entry(t, PTE_W + PTE_U)), s.head, s.free, s.owner[t := Table(d, p)],
        s.held - {t})
  }

  lemma WithTableLookup(s: Sys, d: nat, p: nat, t: nat, e: nat, q: nat, x: nat)
    requires Ok(s) && s.IsDir(d) && p < NENTRIES && !Present(s.pages[d][p])
    requires t in s.held && t < |s.pages| && s.IsDir(e) && q < NENTRIES && x < NENTRIES
    ensures Lookup(WithTable(s, d, p, t).pages, e, q, x) == Lookup(s.pages, e, q, x)
  {
    assert TablesOwned(s, e);
  }

  /** The list is not disturbed by writes to pages that are not on it. */
  lemma LinkedKept(s: Sys, t: Sys)
    requires Linked(s.pages, s.head, s.free) && t.head == s.head && t.free == s.free && |t.pages| == |s.pages|
    requires forall f :: f in s.free ==> t.pages[f] == s.pages[f]
    ensures Linked(t.pages, t.head, t.free)
  {
    forall i | 0 <= i < |t.free| ensures t.pages[t.free[i]] == s.pages[s.free[i]] { assert s.free[i] in s.free; }
  }

  lemma WithTableRoles(s: Sys, d: nat, p: nat, t: nat)
    requires Ok(s) && s.IsDir(d) && p < NENTRIES && !Present(s.pages[d][p]) && t in s.held && t < |s.pages|
    ensures Roles(WithTable(s, d, p, t))
  {
    var r := WithTable(s, d, p, t);
    forall e: nat, q: nat, x: nat | s.IsDir(e) && q < NENTRIES && x < NENTRIES
      ensures Lookup(r.pages, e, q, x) == Lookup(s.pages, e, q, x)
    {
      WithTableLookup(s, d, p, t, e, q, x);
    }
    forall f | f in r.owner ensures RoleHolds(r, f) { if f != t { assert RoleHolds(s, f); } }
    forall e | r.IsDir(e) ensures TablesOwned(r, e) && MemoryOwned(r, e) {
      assert TablesOwned(s, e) && MemoryOwned(s, e);
    }
  }

  lemma WithTableOk(s: Sys, d: nat, p: nat, t: nat)
    requires Ok(s) && s.IsDir(d) && p < NENTRIES && !Present(s.pages[d][p]) && t in s.held
    ensures t < |s.pages| && Ok(WithTable(s, d, p, t)) && Total(WithTable(s, d, p, t)) == Total(s)
  {
    var r := WithTable(s, d, p, t);
    LinkedKept(s, r);
    WithTableRoles(s, d, p, t);
    assert Apart(r) && Total(r) == Total(s);
  }

  /** Entry (p, x) of directory d set to w, in the table that is there. */
  function WithEntry(s: Sys, d: nat, p: nat, x: nat, w: nat): (r: Sys)
    requires d < |s.pages| && p < NENTRIES && x < NENTRIES && FrameOf(s.pages[d][p]) < |s.pages|
  {
    Sys(s.kend, PutWord(s.pages, FrameOf(s.pages[d][p]), x, w), s.head, s.free, s.owner, s.held)
  }

  lemma WithEntryLookup(s: Sys, d: nat, p: nat, x: nat, w: nat, e: nat, q: nat, y: nat)
    requires Ok(s) && s.IsDir(d) && p < NENTRIES && x < NENTRIES && Present(s.pages[d][p])
    requires s.IsDir(e) && q < NENTRIES && y < NENTRIES
    ensures FrameOf(s.pages[d][p]) < |s.pages|
    ensures Lookup(WithEntry(s, d, p, x, w).pages, e, q, y)
            == if (e, q, y) != (d, p, x) then Lookup(s.pages, e, q, y) else if Present(w) then w else 0
  {
    assert TablesOwned(s, d) && TablesOwned(s, e) && RoleHolds(s, FrameOf(s.pages[d][p]));
  }

  /** A kernel entry owns nothing. */
  lemma KernelEntryOk(s: Sys, d: nat, p: nat, x: nat, w: nat)
    requires Ok(s) && s.IsDir(d) && USER <= p < NENTRIES && x < NENTRIES && Present(s.pages[d][p])
    ensures FrameOf(s.pages[d][p]) < |s.pages| && Ok(WithEntry(s, d, p, x, w))
  {
    var r := WithEntryFrame(s, d, p, x, w);
    forall f | f in r.owner ensures RoleHolds(r, f) {
      assert RoleHolds(s, f);
      match r.owner[f] {
        case User(e, q, y) => WithEntryLookup(s, d, p, x, w, e, q, y);
        case _ =>
      }
    }
    forall e | r.IsDir(e) ensures TablesOwned(r, e) && MemoryOwned(r, e) {
      assert TablesOwned(s, e) && MemoryOwned(s, e);
      forall q: nat, y: nat | q < USER && y < NENTRIES ensures Lookup(r.pages, e, q, y) == Lookup(s.pages, e, q, y) {
        WithEntryLookup(s, d, p, x, w, e, q, y);
      }
    }
  }

  /** Directories and the free list are not tables, so an entry write leaves them alone. */
  lemma WithEntryFrame(s: Sys, d: nat, p: nat, x: nat, w: nat) returns (r: Sys)
    requires Ok(s) && s.IsDir(d) && p < NENTRIES && x < NENTRIES && Present(s.pages[d][p])
    ensures FrameOf(s.pages[d][p]) < |s.pages| && r == WithEntry(s, d, p, x, w)
    ensures Linked(r.pages, r.head, r.free)
    ensures forall e: nat :: s.IsDir(e) ==> r.pages[e] == s.pages[e]
  {
    assert TablesOwned(s, d) && RoleHolds(s, FrameOf(s.pages[d][p]));
    r := WithEntry(s, d, p, x, w);
    LinkedKept(s, r);
  }

  /** Mapping a page nobody owns as user memory. */
  function WithUser(s: Sys, d: nat, p: nat, x: nat, f: nat, perm: nat): (r: Sys)
    requires d < |s.pages| && p < NENTRIES && x < NENTRIES && FrameOf(s.pages[d][p]) < |s.pages| && perm < 4096
  {
    var t := WithEntry(s, d, p, x, Entry(f, perm));
    Sys(t.kend, t.pages, t.head, t.free, t.owner[f := User(d, p, x)], t.held - {f})
  }

  lemma WithUserOk(s: Sys, d: nat, p: nat, x: nat, f: nat, perm: nat)
    requires Ok(s) && s.IsDir(d) && p < USER && x < NENTRIES && Present(s.pages[d][p]) && perm < 4096
    requires Lookup(s.pages, d, p, x) == 0 && f in s.held
    ensures FrameOf(s.pages[d][p]) < |s.pages| && Ok(WithUser(s, d, p, x, f, perm))
    ensures Total(WithUser(s, d, p, x, f, perm)) == Total(s)
  {
    var w := Entry(f, perm);
    var r0 := WithEntryFrame(s, d, p, x, w);
    var r := WithUser(s, d, p, x, f, perm);
    forall e: nat, q: nat, y: nat | s.IsDir(e) && q < NENTRIES && y < NENTRIES
      ensures Lookup(r.pages, e, q, y) == if (e, q, y) != (d, p, x) then Lookup(s.pages, e, q, y) else w
    {
      WithEntryLookup(s, d, p, x, w, e, q, y);
    }
    forall g | g in r.owner ensures RoleHolds(r, g) { if g != f { assert RoleHolds(s, g); } }
    forall e | r.IsDir(e) ensures TablesOwned(r, e) && MemoryOwned(r, e) {
      assert TablesOwned(s, e) && MemoryOwned(s, e);
    }
  }

  /** Taking a user page out: entry cleared, page unowned. */
  function WithoutUser(s: Sys, d: nat, p: nat, x: nat, f: nat): (r: Sys)
    requires d < |s.pages| && p < NENTRIES && x < NENTRIES && FrameOf(s.pages[d][p]) < |s.pages|
  {
    var t := WithEntry(s, d, p, x, 0);
    Sys(t.kend, t.pages, t.head, t.free, map g | g in s.owner && g != f :: s.owner[g], t.held + {f})
  }

  lemma WithoutUserOk(s: Sys, d: nat, p: nat, x: nat, f: nat)
    requires Ok(s) && s.IsDir(d) && p < USER && x < NENTRIES && Lookup(s.pages, d, p, x) != 0
    requires f == FrameOf(Lookup(s.pages, d, p, x))
    ensures FrameOf(s.pages[d][p]) < |s.pages| && Ok(WithoutUser(s, d, p, x, f))
    ensures f in s.owner && s.owner[f] == User(d, p, x) && Total(WithoutUser(s, d, p, x, f)) == Total(s)
  {
    assert MemoryOwned(s, d) && RoleHolds(s, f);
    var r0 := WithEntryFrame(s, d, p, x, 0);
    var r := WithoutUser(s, d, p, x, f);
    forall e: nat, q: nat, y: nat | s.IsDir(e) && q < NENTRIES && y < NENTRIES
      ensures Lookup(r.pages, e, q, y) == if (e, q, y) != (d, p, x) then Lookup(s.pages, e, q, y) else 0
    {
      WithEntryLookup(s, d, p, x, 0, e, q, y);
    }
    forall g | g in r.owner ensures RoleHolds(r, g) { assert RoleHolds(s, g); }
    forall e | r.IsDir(e) ensures TablesOwned(r, e) && MemoryOwned(r, e) {
      assert TablesOwned(s, e) && MemoryOwned(s, e);
    }
  }
}
