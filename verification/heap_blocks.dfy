/** The user heap as values.  Memory is counted in header-sized units of 8 bytes.

    The free list starts at the static header `base`, which lies below all memory
    that sbrk returns and has size 0.  `ptr` and `size` are the two words of each
    header.  `fl` is the list in order, `live` the blocks handed out, and `part`
    names for every unit obtained from sbrk the block it belongs to. */
module HeapBlocks {

  datatype Heap = Heap(base: nat, ptr: map<nat, nat>, size: map<nat, nat>,
                       fl: seq<nat>, live: map<nat, nat>, part: map<nat, nat>)

  function Next(fl: seq<nat>, i: nat): (r: nat)
    requires i < |fl|
  {
    if i + 1 < |fl| then fl[i + 1] else fl[0]
  }

  /** A circular list in address order, from base. */
  ghost predicate Listed(h: Heap) {
    && 0 < |h.fl| && h.fl[0] == h.base && h.base in h.size && h.size[h.base] == 0
    && (forall i, j :: 0 <= i < j < |h.fl| ==> h.fl[i] < h.fl[j])
    && (forall i: nat {:trigger Next(h.fl, i)} :: i < |h.fl| ==> h.fl[i] in h.ptr && h.ptr[h.fl[i]] == Next(h.fl, i))
  }

  predicate IsFree(h: Heap, a: nat) { a in h.fl && a != h.base }

  predicate IsBlock(h: Heap, a: nat) { IsFree(h, a) || a in h.live }

  /** Unit u lies in the block that starts at a. */
  predicate Within(h: Heap, a: nat, u: nat) { a in h.size && a <= u < a + h.size[a] }

  /** Blocks partition the units: every unit is in the block that `part` says, and in no other. */
  ghost predicate Parted(h: Heap) {
    && (forall u :: u in h.part ==> h.base < u && IsBlock(h, h.part[u]) && Within(h, h.part[u], u))
    && (forall a {:trigger IsBlock(h, a)} :: IsBlock(h, a) ==> a in h.size && 0 < h.size[a])
    && (forall a: nat, u: nat {:trigger Within(h, a, u)} :: IsBlock(h, a) && Within(h, a, u) ==> u in h.part && h.part[u] == a)
    && (forall a {:trigger a in h.live} :: a in h.live ==> a !in h.fl && a in h.size && h.size[a] == h.live[a])
  }

  ghost predicate Loose(h: Heap) { Listed(h) && Parted(h) }

  /** The end of free block i touches the next free block. */
  predicate Touches(h: Heap, i: nat)
    requires i + 1 < |h.fl|
  {
    h.fl[i] in h.size && h.fl[i] + h.size[h.fl[i]] == h.fl[i + 1]
  }

  ghost predicate CoalescedBut(h: Heap, a: int, b: int) {
    forall i: nat :: 0 < i && i + 1 < |h.fl| && i != a && i != b ==> !Touches(h, i)
  }

  /** Between calls: the list is in order, blocks partition memory, no two free blocks touch. */
  ghost predicate Good(h: Heap) { Loose(h) && CoalescedBut(h, -1, -1) }

  // ---- inserting ----

  function InsertAt(fl: seq<nat>, j: nat, bp: nat): (r: seq<nat>)
    requires j < |fl|
    ensures |r| == |fl| + 1 && forall i {:trigger r[i]} :: 0 <= i < |r| ==> r[i] == if i <= j then fl[i] else if i == j + 1 then bp else fl[i - 1]
  {
    fl[..j + 1] + [bp] + fl[j + 1..]
  }

  /** Live block bp linked in after position j. */
  ghost function Inserted(h: Heap, j: nat, bp: nat): (r: Heap)
    requires j < |h.fl|
  {
    Heap(h.base, h.ptr[bp := Next(h.fl, j)][h.fl[j] := bp], h.size, InsertAt(h.fl, j, bp), h.live - {bp}, h.part)
  }

  /** Position j is where bp belongs. */
  predicate Fits(h: Heap, j: nat, bp: nat) { j < |h.fl| && h.fl[j] < bp && (j + 1 < |h.fl| ==> bp < h.fl[j + 1]) }

  lemma InsertedFl(h: Heap, j: nat, bp: nat)
    requires Listed(h) && Fits(h, j, bp)
    ensures forall a :: a in InsertAt(h.fl, j, bp) <==> a in h.fl || a == bp
  {
    var r := InsertAt(h.fl, j, bp);
    forall a | a in h.fl ensures a in r {
      var i :| 0 <= i < |h.fl| && h.fl[i] == a;
      assert r[if i <= j then i else i + 1] == a;
    }
    assert r[j + 1] == bp;
  }

  lemma InsertedListed(h: Heap, j: nat, bp: nat)
    requires Listed(h) && Fits(h, j, bp) && bp !in h.fl
    ensures Listed(Inserted(h, j, bp))
  {
    var r := Inserted(h, j, bp);
    forall i: nat | i < |r.fl| ensures r.fl[i] in r.ptr && r.ptr[r.fl[i]] == Next(r.fl, i) {
      if i < j {
        var next := Next(h.fl, i);
      } else if i > j + 1 {
        var next := Next(h.fl, i - 1);
      }
    }
  }

  lemma InsertedLoose(h: Heap, j: nat, bp: nat)
    requires Loose(h) && Fits(h, j, bp) && bp in h.live
    ensures Loose(Inserted(h, j, bp))
  {
    var r := Inserted(h, j, bp);
    InsertedListed(h, j, bp);
    InsertedFl(h, j, bp);
    forall a ensures IsBlock(r, a) <==> IsBlock(h, a) {}
    forall a: nat, u: nat | IsBlock(r, a) && Within(r, a, u) ensures u in r.part && r.part[u] == a { assert Within(h, a, u); }
    assert h.base < bp;
  }

  lemma InsertedGaps(h: Heap, j: nat, bp: nat)
    requires Good(h) && Fits(h, j, bp)
    ensures CoalescedBut(Inserted(h, j, bp), j, j + 1)
  {
    var r := Inserted(h, j, bp);
    forall i: nat | 0 < i && i + 1 < |r.fl| && i != j && i != j + 1 ensures !Touches(r, i) {
      assert !Touches(h, if i < j then i else i - 1);
    }
  }

  // ---- merging ----

  function RemoveAt(fl: seq<nat>, k: nat): (r: seq<nat>)
    requires k < |fl|
    ensures |r| == |fl| - 1 && forall i {:trigger r[i]} :: 0 <= i < |r| ==> r[i] == if i < k then fl[i] else fl[i + 1]
  {
    fl[..k] + fl[k + 1..]
  }

  /** Every unit of block b becomes part of block a. */
  function Relabelled(part: map<nat, nat>, b: nat, a: nat): (r: map<nat, nat>)
    ensures r.Keys == part.Keys
  {
    map u | u in part :: if part[u] == b then a else part[u]
  }

  /** Free block i + 1 absorbed by the free block i that it touches. */
  ghost function Merged(h: Heap, i: nat): (r: Heap)
    requires i + 1 < |h.fl| && h.fl[i] in h.size && h.fl[i + 1] in h.size
  {
    Heap(h.base, h.ptr[h.fl[i] := Next(h.fl, i + 1)], h.size[h.fl[i] := h.size[h.fl[i]] + h.size[h.fl[i + 1]]],
         RemoveAt(h.fl, i + 1), h.live, Relabelled(h.part, h.fl[i + 1], h.fl[i]))
  }

  lemma RemovedFl(h: Heap, k: nat)
    requires Listed(h) && 0 < k < |h.fl|
    ensures forall a :: a in RemoveAt(h.fl, k) <==> a in h.fl && a != h.fl[k]
  {
    var r := RemoveAt(h.fl, k);
    forall a | a in h.fl && a != h.fl[k] ensures a in r {
      var i :| 0 <= i < |h.fl| && h.fl[i] == a;
      assert r[if i < k then i else i - 1] == a;
    }
  }

  /** Bypassing position k leaves a list in order. */
  lemma RemovedListed(h: Heap, r: Heap, k: nat)
    requires Listed(h) && 0 < k < |h.fl| && r.base == h.base && r.base in r.size && r.size[r.base] == 0
    requires r.fl == RemoveAt(h.fl, k) && r.ptr == h.ptr[h.fl[k - 1] := Next(h.fl, k)]
    ensures Listed(r)
  {
    forall i: nat | i < |r.fl| ensures r.fl[i] in r.ptr && r.ptr[r.fl[i]] == Next(r.fl, i) {
      if i < k - 1 {
        assert Next(r.fl, i) == Next(h.fl, i);
      } else if i == k - 1 {
        assert Next(r.fl, i) == Next(h.fl, k);
      } else {
        assert Next(r.fl, i) == Next(h.fl, i + 1);
      }
    }
  }

  lemma MergedLoose(h: Heap, i: nat)
    requires Loose(h) && 0 < i && i + 1 < |h.fl| && Touches(h, i)
    ensures h.fl[i + 1] in h.size && Loose(Merged(h, i))
  {
    var a, b := h.fl[i], h.fl[i + 1];
    assert IsBlock(h, a) && IsBlock(h, b);
    var r := Merged(h, i);
    RemovedListed(h, r, i + 1);
    RemovedFl(h, i + 1);
    forall c ensures IsBlock(r, c) <==> IsBlock(h, c) && c != b {}
    MergedParted(h, r, a, b);
  }

  lemma MergedParted(h: Heap, r: Heap, a: nat, b: nat)
    requires Parted(h) && a != b && IsFree(h, a) && IsFree(h, b) && a in h.size && b in h.size && a + h.size[a] == b
    requires r.base == h.base && r.live == h.live && r.size == h.size[a := h.size[a] + h.size[b]]
    requires r.part == Relabelled(h.part, b, a) && forall c :: c in r.fl <==> c in h.fl && c != b
    requires forall c :: IsBlock(r, c) <==> IsBlock(h, c) && c != b
    ensures Parted(r)
  {
    forall u | u in r.part
      ensures r.base < u && IsBlock(r, r.part[u]) && Within(r, r.part[u], u)
    {
      assert u in h.part && Within(h, h.part[u], u);
    }
    forall c: nat, u: nat | IsBlock(r, c) && Within(r, c, u) ensures u in r.part && r.part[u] == c {
      assert Within(h, if c == a && b <= u then b else c, u);
    }
  }

  lemma MergedGaps(h: Heap, i: nat, k: int)
    requires Loose(h) && 0 < i && i + 1 < |h.fl| && Touches(h, i) && CoalescedBut(h, i, k) && k < i
    requires h.fl[i + 1] in h.size
    ensures CoalescedBut(Merged(h, i), k, -1)
  {
    var r := Merged(h, i);
    forall m: nat | 0 < m && m + 1 < |r.fl| && m != k ensures !Touches(r, m) {
      assert !Touches(h, if m < i then m else m + 1);
    }
  }

  // ---- taking ----

  /** Free block k, of the size asked for, unlinked and handed out. */
  ghost function Unlinked(h: Heap, k: nat): (r: Heap)
    requires 0 < k < |h.fl| && h.fl[k] in h.size
  {
    Heap(h.base, h.ptr[h.fl[k - 1] := Next(h.fl, k)], h.size, RemoveAt(h.fl, k), h.live[h.fl[k] := h.size[h.fl[k]]], h.part)
  }

  lemma UnlinkedGood(h: Heap, k: nat)
    requires Good(h) && 0 < k < |h.fl|
    ensures h.fl[k] in h.size && Good(Unlinked(h, k))
  {
    assert IsBlock(h, h.fl[k]);
    var r := Unlinked(h, k);
    RemovedListed(h, r, k);
    RemovedFl(h, k);
    forall a ensures IsBlock(r, a) <==> IsBlock(h, a) {}
    forall a: nat, u: nat | IsBlock(r, a) && Within(r, a, u) ensures u in r.part && r.part[u] == a { assert Within(h, a, u); }
    UnlinkedGaps(h, k);
  }

  /** A free block ends before the next one starts. */
  lemma Ordered(h: Heap, i: nat)
    requires Loose(h) && 0 < i && i + 1 < |h.fl|
    ensures h.fl[i] in h.size && h.fl[i] + h.size[h.fl[i]] <= h.fl[i + 1]
  {
    var a, b := h.fl[i], h.fl[i + 1];
    assert IsBlock(h, a) && IsBlock(h, b);
    if b < a + h.size[a] { assert Within(h, a, b) && Within(h, b, b); }
  }

  lemma UnlinkedGaps(h: Heap, k: nat)
    requires Good(h) && 0 < k < |h.fl| && h.fl[k] in h.size
    ensures CoalescedBut(Unlinked(h, k), -1, -1)
  {
    var r := Unlinked(h, k);
    forall i: nat | 0 < i && i + 1 < |r.fl| ensures !Touches(r, i) {
      if i == k - 1 {
        Ordered(h, k - 1);
      } else {
        assert !Touches(h, if i < k then i else i + 1);
      }
    }
  }

  /** The last n units of free block k split off and handed out. */
  ghost function SplitOff(h: Heap, k: nat, n: nat): (r: Heap)
    requires 0 < k < |h.fl| && h.fl[k] in h.size && 0 < n < h.size[h.fl[k]]
  {
    var a := h.fl[k];
    var b := a + h.size[a] - n;
    Heap(h.base, h.ptr, h.size[a := h.size[a] - n][b := n], h.fl, h.live[b := n],
         map u | u in h.part :: if h.part[u] == a && b <= u then b else h.part[u])
  }

  /** The new block starts inside the old one, so no block starts there yet. */
  lemma SplitFresh(h: Heap, a: nat, b: nat)
    requires Loose(h) && IsBlock(h, a) && a != b && Within(h, a, b)
    ensures !IsBlock(h, b) && b != h.base && b !in h.fl && b !in h.live
  {
    if IsBlock(h, b) { assert Within(h, b, b); }
  }

  lemma SplitOffGood(h: Heap, k: nat, n: nat)
    requires Good(h) && 0 < k < |h.fl| && h.fl[k] in h.size && 0 < n < h.size[h.fl[k]]
    ensures Good(SplitOff(h, k, n)) && h.fl[k] + h.size[h.fl[k]] - n !in h.live
  {
    var a := h.fl[k];
    var b := a + h.size[a] - n;
    var r := SplitOff(h, k, n);
    SplitFresh(h, a, b);
    forall c ensures IsBlock(r, c) <==> IsBlock(h, c) || c == b {}
    SplitParted(h, r, a, b, n);
    SplitListed(h, k, n);
    SplitGaps(h, k, n);
  }

  lemma SplitListed(h: Heap, k: nat, n: nat)
    requires Listed(h) && 0 < k < |h.fl| && h.fl[k] in h.size && 0 < n < h.size[h.fl[k]]
    requires h.fl[k] + h.size[h.fl[k]] - n != h.base
    ensures Listed(SplitOff(h, k, n))
  {
    var r := SplitOff(h, k, n);
    forall i: nat | i < |r.fl| ensures r.fl[i] in r.ptr && r.ptr[r.fl[i]] == Next(r.fl, i) { var next := Next(h.fl, i); }
  }

  lemma SplitGaps(h: Heap, k: nat, n: nat)
    requires Good(h) && 0 < k < |h.fl| && h.fl[k] in h.size && 0 < n < h.size[h.fl[k]]
    requires h.fl[k] + h.size[h.fl[k]] - n !in h.fl
    ensures CoalescedBut(SplitOff(h, k, n), -1, -1)
  {
    var r := SplitOff(h, k, n);
    forall i: nat | 0 < i && i + 1 < |r.fl| ensures !Touches(r, i) {
      assert !Touches(h, i);
      Ordered(h, i);
    }
  }

  lemma SplitParted(h: Heap, r: Heap, a: nat, b: nat, n: nat)
    requires Parted(h) && IsFree(h, a) && a in h.size && 0 < n < h.size[a] && b == a + h.size[a] - n && !IsBlock(h, b)
    requires r.base == h.base && r.fl == h.fl && r.live == h.live[b := n] && r.size == h.size[a := h.size[a] - n][b := n]
    requires r.part == map u | u in h.part :: if h.part[u] == a && b <= u then b else h.part[u]
    requires b != h.base && b !in h.fl
    requires forall c :: IsBlock(r, c) <==> IsBlock(h, c) || c == b
    ensures Parted(r)
  {
    forall u | u in r.part ensures r.base < u && IsBlock(r, r.part[u]) && Within(r, r.part[u], u) {
      assert Within(h, h.part[u], u);
    }
    forall c: nat, u: nat | IsBlock(r, c) && Within(r, c, u) ensures u in r.part && r.part[u] == c {
      assert Within(h, if c == b then a else c, u);
    }
  }
}
