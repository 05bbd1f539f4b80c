/** How many pages of the free list mapping a range takes: a frame for each page, and
    a table for each directory entry that has none. */
module VmCost {
  import opened Common
  import opened VmPages
  import opened VmCode

  /** The entries of a directory that have a table. */
  ghost function TableSet(dir: Page): (r: set<nat>) { set q: nat | q < NENTRIES && Present(dir[q]) }

  /** The directory entries that pages [lo, v) go through end below this one. */
  function TableEnd(v: nat): (q: nat) { (v + 1023) / 1024 }

  predicate Passed(q: nat, lo: nat, v: nat) { lo < v && lo / 1024 <= q < TableEnd(v) }

  /** The directory entries that pages [lo, v) go through. */
  ghost function Through(lo: nat, v: nat): (r: set<nat>) { set q: nat | q < NENTRIES && Passed(q, lo, v) }

  lemma ThroughNext(lo: nat, v: nat)
    requires lo <= v < 0x10_0000
    ensures v / 1024 < NENTRIES && Through(lo, v + 1) == Through(lo, v) + {v / 1024}
  {
    assert TableEnd(v + 1) == v / 1024 + 1;
    forall q: nat | q < NENTRIES ensures Passed(q, lo, v + 1) <==> Passed(q, lo, v) || q == v / 1024 { }
  }

  lemma ThroughMore(lo: nat, v: nat, hi: nat)
    requires lo <= v < hi
    ensures Through(lo, v) <= Through(lo, hi) && (v / 1024 < NENTRIES ==> v / 1024 in Through(lo, hi))
  {
    assert TableEnd(v) <= TableEnd(hi) && v / 1024 < TableEnd(hi);
    forall q: nat | q < NENTRIES && Passed(q, lo, v) ensures Passed(q, lo, hi) { }
    if v / 1024 < NENTRIES { assert Passed(v / 1024, lo, hi); }
  }

  /** Some page of [lo, v) goes through each of them. */
  lemma EntryPage(q: nat, lo: nat, v: nat) returns (w: nat)
    requires Passed(q, lo, v)
    ensures lo <= w < v && w / 1024 == q
  {
    w := if lo / 1024 == q then lo else 1024 * q;
  }

  lemma PageEntry(w: nat, lo: nat, v: nat)
    requires lo <= w < v && w / 1024 < NENTRIES
    ensures w / 1024 in Through(lo, v)
  {
    assert Passed(w / 1024, lo, v);
  }

  // ---- what is paid ----

  /** Free pages and tables of d add up as before, but for `extra` pages. */
  ghost predicate Conserved(s: Sys, t: Sys, d: nat, extra: nat) {
    && d < |s.pages| && d < |t.pages|
    && |t.free| + |TableSet(t.pages[d])| + extra == |s.free| + |TableSet(s.pages[d])|
  }

  /** From s to t, directory d has gained exactly the tables that pages [lo, v) need, taken from the free list,
      and `extra` more pages have left it. */
  ghost predicate Bought(s: Sys, t: Sys, d: nat, lo: nat, v: nat, extra: nat) {
    Conserved(s, t, d, extra) && TableSet(t.pages[d]) == TableSet(s.pages[d]) + Through(lo, v)
  }

  /** A table behind entry p, and k pages besides. */
  ghost predicate Took(t: Sys, u: Sys, d: nat, p: nat, k: nat) {
    Conserved(t, u, d, k) && TableSet(u.pages[d]) == TableSet(t.pages[d]) + {p}
  }

  lemma TableTook(t: Sys, u: Sys, d: nat, p: nat)
    requires TableAt(t, u, d, p)
    ensures Took(t, u, d, p, 0)
  {
    var a, b := TableSet(t.pages[d]), TableSet(u.pages[d]);
    forall q: nat ensures q in b <==> q in a || q == p { }
    if p in a { assert b == a == a + {p}; } else { assert b == a + {p} && |a + {p}| == |a| + 1; }
    assert p in a <==> Present(t.pages[d][p]);
  }

  lemma BoughtNone(s: Sys, d: nat, lo: nat)
    requires d < |s.pages|
    ensures Bought(s, s, d, lo, lo, 0)
  {
    assert Through(lo, lo) == {};
  }

  /** One more page mapped. */
  lemma BoughtNext(s: Sys, t: Sys, u: Sys, d: nat, lo: nat, v: nat, extra: nat, k: nat)
    requires Bought(s, t, d, lo, v, extra) && lo <= v < 0x10_0000 && Took(t, u, d, v / 1024, k)
    ensures Bought(s, u, d, lo, v + 1, extra + k)
  {
    ThroughNext(lo, v);
  }

  /** Tables that mapping pages [lo, hi) takes. */
  ghost function NewTables(dir: Page, lo: nat, hi: nat): (r: set<nat>) { Through(lo, hi) - TableSet(dir) }

  lemma BoughtTables(s: Sys, t: Sys, d: nat, lo: nat, v: nat, extra: nat)
    requires Bought(s, t, d, lo, v, extra)
    ensures |t.free| + |NewTables(s.pages[d], lo, v)| + extra == |s.free|
    ensures TableSet(t.pages[d]) == TableSet(s.pages[d]) + NewTables(s.pages[d], lo, v)
  {
    var old_, more := TableSet(s.pages[d]), NewTables(s.pages[d], lo, v);
    assert TableSet(t.pages[d]) == old_ + more && old_ !! more;
  }

  /** If page v cannot be mapped for want of k pages, its table included, the range lacks them too. */
  lemma RunsShort(s: Sys, t: Sys, d: nat, lo: nat, v: nat, hi: nat, extra: nat, k: nat)
    requires Bought(s, t, d, lo, v, extra) && lo <= v < hi <= 0x10_0000
    requires |t.free| < k + if v / 1024 in TableSet(t.pages[d]) then 0 else 1
    ensures |s.free| < |NewTables(s.pages[d], lo, hi)| + extra + k
  {
    BoughtTables(s, t, d, lo, v, extra);
    ThroughMore(lo, v, hi);
    var q, a, b := v / 1024, NewTables(s.pages[d], lo, v), NewTables(s.pages[d], lo, hi);
    if q in TableSet(t.pages[d]) {
      SubsetSize(a, b);
    } else {
      assert q !in a;
      SubsetSize(a + {q}, b);
    }
  }

  /** With no table there, each 1024 pages from 0 on take one. */
  lemma {:induction false} FreshTables(dir: Page, n: nat)
    requires n <= 0x10_0000 && forall q: nat :: q < TableEnd(n) && q < NENTRIES ==> q !in TableSet(dir)
    ensures |NewTables(dir, 0, n)| == TableEnd(n)
  {
    RangeSize(0, TableEnd(n));
    forall q: nat ensures q in Range(0, TableEnd(n)) <==> q in NewTables(dir, 0, n) { assert Lies(q, 0, TableEnd(n)) <==> q < TableEnd(n); }
    assert Range(0, TableEnd(n)) == NewTables(dir, 0, n);
  }

  // ---- tables and the free list ----

  /** An entry is present exactly when a page has the role of its table. */
  lemma PresentIff(s: Sys, d: nat, q: nat)
    requires Ok(s) && s.IsDir(d) && q < NENTRIES
    ensures Present(s.pages[d][q]) <==> exists g :: g in s.owner && s.owner[g] == Table(d, q)
  {
    assert TablesOwned(s, d);
    forall g | g in s.owner && s.owner[g] == Table(d, q) ensures Present(s.pages[d][q]) { assert RoleHolds(s, g); }
  }

  /** If only tables of d are new, the free list is the same set of pages exactly when no entry of d is new. */
  lemma SameFreeIff(s: Sys, t: Sys, d: nat)
    requires Ok(s) && s.IsDir(d) && Grew(s, t, d) && TablesOnly(s, t) && t.held == s.held
    ensures d < |t.pages| && (FreeSet(t) == FreeSet(s) <==> TableSet(t.pages[d]) <= TableSet(s.pages[d]))
  {
    assert t.IsDir(d) && TablesOwned(t, d) && TablesOwned(s, d);
    if FreeSet(t) == FreeSet(s) {
      forall q: nat | q in TableSet(t.pages[d]) ensures q in TableSet(s.pages[d]) {
        var g := FrameOf(t.pages[d][q]);
        assert g in t.owner && g in Total(t) && g in Total(s) && g !in FreeSet(t) && g !in t.held;
        assert RoleHolds(s, g);
      }
    }
    if TableSet(t.pages[d]) <= TableSet(s.pages[d]) {
      forall g | g in t.owner ensures g in s.owner { OldTable(s, t, d, g); }
      assert t.owner.Keys == s.owner.Keys;
      SameRest(s, t);
    }
  }

  lemma OneTable(t: Sys, g: nat, h: nat)
    requires Ok(t) && g in t.owner && h in t.owner && t.owner[g].Table? && t.owner[g] == t.owner[h]
    ensures g == h
  {
    assert RoleHolds(t, g) && RoleHolds(t, h);
  }

  lemma OldTable(s: Sys, t: Sys, d: nat, g: nat)
    requires Ok(s) && s.IsDir(d) && Grew(s, t, d) && TablesOnly(s, t) && g in t.owner
    requires d < |t.pages| && TableSet(t.pages[d]) <= TableSet(s.pages[d])
    ensures g in s.owner
  {
    if t.owner[g].Table? && t.owner[g].d == d {
      assert RoleHolds(t, g);
      var q := t.owner[g].p;
      assert q in TableSet(t.pages[d]);
      assert TablesOwned(s, d);
      OneTable(t, g, FrameOf(s.pages[d][q]));
    }
  }

  lemma SameRest(s: Sys, t: Sys)
    requires Ok(s) && Ok(t) && Total(t) == Total(s) && t.held == s.held && t.owner.Keys == s.owner.Keys
    ensures FreeSet(t) == FreeSet(s)
  {
    forall g | g in FreeSet(t) || g in FreeSet(s) ensures g in FreeSet(t) && g in FreeSet(s) {
      assert g in Total(t) && g in Total(s);
    }
  }

  // ---- counting free pages ----

  ghost function Elems(s: seq<nat>): (r: set<nat>) { set f | f in s }

  /** The list has each free page once. */
  lemma {:induction false} ListSize(s: seq<nat>, n: nat)
    requires Distinct(s) && n <= |s|
    ensures |Elems(s[..n])| == n
  {
    if n > 0 {
      ListSize(s, n - 1);
      assert s[..n] == s[..n - 1] + [s[n - 1]];
      assert Elems(s[..n]) == Elems(s[..n - 1]) + {s[n - 1]};
      assert s[n - 1] !in s[..n - 1];
    }
  }

  lemma FreeSize(s: Sys)
    requires Ok(s)
    ensures |FreeSet(s)| == |s.free|
  {
    ListSize(s.free, |s.free|);
    assert s.free[..|s.free|] == s.free && FreeSet(s) == Elems(s.free);
  }
}
