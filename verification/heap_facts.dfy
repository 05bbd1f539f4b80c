/** What the heap invariant means for callers of malloc and free. */
module HeapFacts {
  import opened HeapBlocks
  import opened HeapCode

  /** Live blocks do not overlap. */
  lemma LiveApart(h: Heap, a: nat, b: nat)
    requires Good(h) && a in h.live && b in h.live && a < b
    ensures a + h.live[a] <= b
  {
    assert IsBlock(h, a) && IsBlock(h, b);
    if b < a + h.live[a] { assert Within(h, a, b) && Within(h, b, b); }
  }

  /** The block has room for what was asked exactly when the round-up does not wrap around. */
  lemma RoomIff(nbytes: nat)
    requires nbytes < 0x1_0000_0000
    ensures 8 * (Units(nbytes) - 1) >= nbytes <==> nbytes + 7 < 0x1_0000_0000
    ensures nbytes + 7 < 0x1_0000_0000 ==> 8 * (Units(nbytes) - 1) < nbytes + 8
  {
  }

  /** malloc(0xFFFFFFFF) would hand out a header with no room behind it. */
  lemma NoRoom()
    ensures Units(0xFFFF_FFFF) == 1
  {
    assert (0xFFFF_FFFF + 7) % 0x1_0000_0000 == 6;
  }

  /** What sbrk gives for the request is all of the block that morecore makes of it, and no more, exactly below
      2 GB. */
  lemma RequestIff(hp: nat, n: nat)
    requires 0 < n
    ensures Request(n) == 8 * n <==> 8 * n < 0x8000_0000
    ensures (forall u: nat :: InSpan(hp, n, u) ==> 8 * u + 8 <= 8 * hp + Request(n)) <==> 8 * n < 0x8000_0000
  {
    if 8 * n >= 0x8000_0000 {
      assert Request(n) < 8 * n;
      assert InSpan(hp, n, hp + n - 1);
    }
  }

  /** malloc(0xFFFFFFF8) asks sbrk for nothing, and takes the 2^29 units from there on as its own. */
  lemma AsksForNothing()
    ensures Units(0xFFFF_FFF8) == 0x2000_0000 && Request(0x2000_0000) == 0
  {
    assert (0xFFFF_FFF8 + 7) % 0x1_0000_0000 == 0xFFFF_FFFF && 0xFFFF_FFFF / 8 == 0x1FFF_FFFF;
    assert 8 * 0x2000_0000 % 0x1_0000_0000 == 0;
  }

  /** Unit u is in a free block. */
  predicate FreeUnit(h: Heap, u: nat) { u in h.part && h.part[u] !in h.live }

  /** Free blocks are the maximal runs of free units: they start where a free unit follows one that is not. */
  lemma StartsOfRuns(h: Heap, a: nat)
    requires Good(h) && 0 < a
    ensures IsFree(h, a) <==> FreeUnit(h, a) && !FreeUnit(h, a - 1)
  {
    if IsFree(h, a) {
      assert IsBlock(h, a) && Within(h, a, a);
      if FreeUnit(h, a - 1) {
        EndsAt(h, h.part[a - 1], a);
        assert false;
      }
    }
    if FreeUnit(h, a) && !FreeUnit(h, a - 1) {
      var c := h.part[a];
      assert Within(h, c, a);
      if c < a { assert Within(h, c, a - 1); }
    }
  }

  /** Two free blocks are not side by side. */
  lemma EndsAt(h: Heap, c: nat, a: nat)
    requires Good(h) && IsFree(h, a) && IsFree(h, c) && c < a
    ensures h.fl != [] && c in h.size && c + h.size[c] < a
  {
    var i: nat :| i < |h.fl| && h.fl[i] == c;
    var k: nat :| k < |h.fl| && h.fl[k] == a;
    assert 0 < i < k;
    Ordered(h, i);
    assert !Touches(h, i);
    assert h.fl[i + 1] <= h.fl[k];
  }

  /** Lists in order with the same members are the same. */
  lemma {:induction false} SameMembers(s: seq<nat>, t: seq<nat>, n: nat)
    requires forall i, j :: 0 <= i < j < |s| ==> s[i] < s[j]
    requires forall i, j :: 0 <= i < j < |t| ==> t[i] < t[j]
    requires forall a :: a in s <==> a in t
    requires n <= |s|
    ensures n <= |t| && s[..n] == t[..n]
  {
    if n > 0 {
      SameMembers(s, t, n - 1);
      var x := s[n - 1];
      assert x in t;
      var k: nat :| k < |t| && t[k] == x;
      assert forall i :: 0 <= i < n - 1 ==> s[..n - 1][i] == t[..n - 1][i] == s[i] == t[i];
      var y := t[n - 1];
      assert y in s;
      var m: nat :| m < |s| && s[m] == y;
      assert k == n - 1;
    }
  }

  /** The free list depends only on which units are free, so the order of frees does not matter. */
  lemma OneListPerState(g: Heap, h: Heap)
    requires Good(g) && Good(h) && g.base == h.base && g.live == h.live && g.part.Keys == h.part.Keys
    ensures g.fl == h.fl && (forall a :: IsFree(h, a) ==> a in g.size && a in h.size && g.size[a] == h.size[a])
  {
    forall u: nat ensures FreeUnit(g, u) <==> FreeUnit(h, u) {
      SameFreeUnits(g, h, u);
      SameFreeUnits(h, g, u);
    }
    forall a: nat ensures a in g.fl <==> a in h.fl {
      if a != g.base {
        if 0 < a {
          StartsOfRuns(g, a);
          StartsOfRuns(h, a);
        } else {
          AboveBase(g, a);
          AboveBase(h, a);
        }
      }
    }
    SameMembers(g.fl, h.fl, |g.fl|);
    SameMembers(h.fl, g.fl, |h.fl|);
    forall a | IsFree(h, a) ensures a in g.size && a in h.size && g.size[a] == h.size[a] {
      SizeOfRun(g, h, a);
      SizeOfRun(h, g, a);
    }
  }

  lemma AboveBase(h: Heap, a: nat)
    requires Good(h)
    ensures IsFree(h, a) ==> 0 < a
  {
    if IsFree(h, a) { assert IsBlock(h, a) && Within(h, a, a); }
  }

  lemma SameFreeUnits(g: Heap, h: Heap, u: nat)
    requires Good(g) && Good(h) && g.live == h.live && g.part.Keys == h.part.Keys
    ensures FreeUnit(g, u) ==> FreeUnit(h, u)
  {
    if u in h.part && h.part[u] in h.live {
      assert Within(h, h.part[u], u) && Within(g, h.part[u], u);
    }
  }

  lemma SizeOfRun(g: Heap, h: Heap, a: nat)
    requires Good(g) && Good(h) && IsFree(h, a) && IsFree(g, a) && a !in g.live
    requires forall u: nat :: FreeUnit(g, u) <==> FreeUnit(h, u)
    ensures a in g.size && a in h.size && g.size[a] <= h.size[a]
  {
    assert IsBlock(g, a) && IsBlock(h, a);
    if g.size[a] > h.size[a] {
      var u := a + h.size[a];
      assert Within(g, a, u) && FreeUnit(g, u) && FreeUnit(h, u);
      assert Within(h, a, u - 1);
      StartsOfRuns(h, u);
      var c := h.part[u];
      assert Within(h, c, u);
      if c < u { assert Within(h, c, u - 1); }
      EndsAt(h, a, u);
    }
  }
}
