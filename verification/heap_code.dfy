/** umalloc.c as it runs: malloc, free and morecore. */
module HeapCode {
  import opened HeapBlocks

  /** nunits, as computed in 32-bit unsigned arithmetic. */
  function Units(nbytes: nat): (n: nat)
    ensures 0 < n
  {
    (nbytes + 7) % 0x1_0000_0000 / 8 + 1
  }

  /** A 32-bit word read as int. */
  function Signed(w: nat): (r: int)
    requires w < 0x1_0000_0000
  {
    if w < 0x8000_0000 then w else w - 0x1_0000_0000
  }

  /** sbrk's argument for n units: n * 8 in 32 bits, passed as int. */
  function Request(n: nat): (r: int) { Signed(8 * n % 0x1_0000_0000) }

  /** Steps along the list from position k to position j. */
  function Distance(n: nat, k: nat, j: nat): (r: nat)
    requires k < n && j < n
    ensures r < n && (r == 0 <==> k == j)
  {
    if k <= j then j - k else n - k + j
  }

  function Step(n: nat, k: nat): (r: nat)
    requires k < n
    ensures r < n
  {
    if k + 1 < n then k + 1 else 0
  }

  lemma StepCloser(n: nat, k: nat, j: nat)
    requires k < n && j < n && k != j
    ensures Distance(n, Step(n, k), j) == Distance(n, k, j) - 1
  {
  }

  /** A block above base has a place in the list, and only one. */
  lemma Place(h: Heap, bp: nat) returns (j: nat)
    requires Listed(h) && h.base < bp && bp !in h.fl
    ensures Fits(h, j, bp) && forall i: nat :: Fits(h, i, bp) ==> i == j
  {
    j := 0;
    while j + 1 < |h.fl| && h.fl[j + 1] < bp
      invariant j < |h.fl| && h.fl[j] < bp
    {
      j := j + 1;
    }
    if j + 1 < |h.fl| { assert h.fl[j + 1] != bp; }
  }

  predicate InSpan(a: nat, n: nat, u: nat) { a <= u < a + n }

  /** Fresh memory [a, a + n) above everything there is. */
  ghost function Granted(h: Heap, a: nat, n: nat): (r: Heap) {
    Heap(h.base, h.ptr, h.size[a := n], h.fl, h.live[a := n], h.part + map u: nat | a <= u < a + n && InSpan(a, n, u) :: a)
  }

  ghost predicate Above(h: Heap, a: nat) { h.base < a && forall u :: u in h.part ==> u < a }

  lemma GrantedParted(h: Heap, a: nat, n: nat)
    requires Good(h) && Above(h, a) && 0 < n
    ensures a !in h.live && a !in h.fl && Parted(Granted(h, a, n))
  {
    var r := Granted(h, a, n);
    forall c: nat | IsBlock(h, c) ensures c < a && c + h.size[c] <= a {
      assert Within(h, c, c) && Within(h, c, c + h.size[c] - 1);
    }
    assert !IsBlock(h, a);
    forall c: nat ensures IsBlock(r, c) <==> IsBlock(h, c) || c == a {}
    forall u | u in r.part ensures r.base < u && IsBlock(r, r.part[u]) && Within(r, r.part[u], u) {
      if u < a { assert Within(h, h.part[u], u); } else { assert InSpan(a, n, u); }
    }
    forall c: nat, u: nat | IsBlock(r, c) && Within(r, c, u) ensures u in r.part && r.part[u] == c {
      if c != a { assert Within(h, c, u); } else { assert InSpan(a, n, u); }
    }
  }

  lemma GrantedGood(h: Heap, a: nat, n: nat)
    requires Good(h) && Above(h, a) && 0 < n
    ensures Good(Granted(h, a, n)) && a !in h.live && a !in h.fl
  {
    var r := Granted(h, a, n);
    GrantedParted(h, a, n);
    assert Listed(r) by {
      forall i: nat | i < |r.fl| ensures r.fl[i] in r.ptr && r.ptr[r.fl[i]] == Next(r.fl, i) { var next := Next(h.fl, i); }
    }
    forall i: nat | 0 < i && i + 1 < |r.fl| ensures !Touches(r, i) { assert !Touches(h, i); }
  }

  /** Same units, and units of one block stay together. */
  ghost predicate Coarser(a: Heap, b: Heap) {
    && b.base == a.base && b.live == a.live && b.part.Keys == a.part.Keys
    && forall u, v :: u in a.part && v in a.part && a.part[u] == a.part[v] ==> b.part[u] == b.part[v]
  }

  lemma MergedCoarser(h: Heap, i: nat)
    requires i + 1 < |h.fl| && h.fl[i] in h.size && h.fl[i + 1] in h.size
    ensures Coarser(h, Merged(h, i))
  {
  }

  /** The block at position j + 1 absorbs its successor if they touch. */
  ghost function MergedUp(a: Heap, j: nat): (b: Heap)
    requires Loose(a) && j + 1 < |a.fl|
  {
    if j + 2 < |a.fl| && Touches(a, j + 1) then MergedLoose(a, j + 1); Merged(a, j + 1) else a
  }

  lemma MergingUp(a: Heap, j: nat)
    requires Loose(a) && CoalescedBut(a, j, j + 1) && j + 1 < |a.fl|
    ensures var b := MergedUp(a, j);
      Loose(b) && CoalescedBut(b, j, -1) && Coarser(a, b) && j + 1 < |b.fl| && b.fl[j] == a.fl[j] && b.fl[j + 1] == a.fl[j + 1]
  {
    if j + 2 < |a.fl| && Touches(a, j + 1) {
      MergedLoose(a, j + 1);
      MergedGaps(a, j + 1, j);
      MergedCoarser(a, j + 1);
    }
  }

  /** The block at position j absorbs its successor if they touch; base touches nothing. */
  ghost function MergedDown(b: Heap, j: nat): (c: Heap)
    requires Loose(b) && j + 1 < |b.fl|
  {
    if 0 < j && Touches(b, j) then MergedLoose(b, j); Merged(b, j) else b
  }

  lemma MergingDown(b: Heap, j: nat)
    requires Loose(b) && CoalescedBut(b, j, -1) && j + 1 < |b.fl|
    ensures var c := MergedDown(b, j); Good(c) && Coarser(b, c) && j < |c.fl| && c.fl[j] == b.fl[j]
  {
    if 0 < j && Touches(b, j) {
      MergedLoose(b, j);
      MergedGaps(b, j, -1);
      MergedCoarser(b, j);
    }
  }

  /** free's effect: bp linked in and merged with its neighbours. */
  ghost predicate Returned(h: Heap, r: Heap, j: nat, bp: nat)
    requires bp in h.live && j < |h.fl|
  {
    && Good(r) && r.base == h.base && r.live == h.live - {bp} && r.part.Keys == h.part.Keys && h.fl[j] in r.fl
    && bp in r.part && IsFree(r, r.part[bp])
    && forall u: nat :: InSpan(bp, h.live[bp], u) ==> u in r.part && r.part[u] == r.part[bp]
  }

  /** b is h halfway through free: bp linked in after position j and joined to its upper neighbour. */
  ghost predicate Halfway(h: Heap, j: nat, bp: nat, b: Heap) {
    && Good(h) && bp in h.live && Fits(h, j, bp) && Loose(Inserted(h, j, bp)) && b == MergedUp(Inserted(h, j, bp), j)
    && Loose(b) && j + 1 < |b.fl| && b.fl[j] == h.fl[j] && b.fl[j + 1] == bp
  }

  lemma ReturnedGood(h: Heap, j: nat, bp: nat, b: Heap)
    requires Halfway(h, j, bp, b)
    ensures Returned(h, MergedDown(b, j), j, bp)
  {
    InsertedGaps(h, j, bp);
    MergingUp(Inserted(h, j, bp), j);
    MergingDown(b, j);
    assert IsBlock(h, bp) && Within(h, bp, bp);
    forall u: nat | InSpan(bp, h.live[bp], u) ensures u in h.part && h.part[u] == bp { assert Within(h, bp, u); }
    NowFree(h, MergedDown(b, j), bp);
  }

  /** The block that holds bp's first unit is not live any more. */
  lemma NowFree(h: Heap, r: Heap, bp: nat)
    requires Good(h) && Good(r) && bp in h.live && r.live == h.live - {bp} && bp in r.part && bp in h.part && h.part[bp] == bp
    ensures IsFree(r, r.part[bp])
  {
    var c := r.part[bp];
    assert Within(r, c, bp);
    if c in r.live { assert Within(h, c, bp); }
  }

  /** The headers of b are those of h with bp joined to its upper neighbour and linked after p. */
  predicate HeadersUpper(h: Heap, p: nat, bp: nat, b: Heap) {
    && bp in h.size && p in h.size && p in h.ptr && bp != p && h.ptr[p] in h.size && h.ptr[p] in h.ptr
    && if bp + h.size[bp] == h.ptr[p]
       then b.size == h.size[bp := h.size[bp] + h.size[h.ptr[p]]] && b.ptr == h.ptr[bp := h.ptr[h.ptr[p]]][p := bp]
       else b.size == h.size && b.ptr == h.ptr[bp := h.ptr[p]][p := bp]
  }

  /** The headers of r are those of b with bp absorbed by p if they touch. */
  predicate HeadersLower(b: Heap, p: nat, bp: nat, r: Heap) {
    && p in b.size && bp in b.size && bp in b.ptr
    && if p + b.size[p] == bp
       then r.size == b.size[p := b.size[p] + b.size[bp]] && r.ptr == b.ptr[p := b.ptr[bp]]
       else r.size == b.size && r.ptr == b.ptr
  }

  /** What free finds at the place of bp: its neighbours' headers, and base out of the way. */
  lemma Neighbours(h: Heap, j: nat, bp: nat)
    requires Good(h) && bp in h.live && Fits(h, j, bp)
    ensures bp in h.size && h.fl[j] in h.size && h.fl[j] in h.ptr && h.ptr[h.fl[j]] == Next(h.fl, j) && bp != h.fl[j]
    ensures Next(h.fl, j) in h.size && Next(h.fl, j) in h.ptr && bp != Next(h.fl, j)
    ensures bp + h.size[bp] == Next(h.fl, j) ==> j + 1 < |h.fl|
    ensures h.fl[j] + h.size[h.fl[j]] == bp ==> 0 < j
  {
    var p, next := h.fl[j], Next(h.fl, j);
    assert IsBlock(h, bp) && Within(h, bp, bp);
    if 0 < j { assert IsBlock(h, p); }
    if j + 1 < |h.fl| {
      assert IsBlock(h, next);
      var next2 := Next(h.fl, j + 1);
    } else {
      var next2 := Next(h.fl, 0);
    }
  }

  /** The headers after the first half of free, but for the link from p. */
  lemma HeadersUp(h: Heap, j: nat, bp: nat)
    requires Good(h) && bp in h.live && Fits(h, j, bp) && Loose(Inserted(h, j, bp))
    requires h.fl[j] in h.ptr && bp in h.size && Next(h.fl, j) in h.size && Next(h.fl, j) in h.ptr
    requires bp != Next(h.fl, j) && bp != h.fl[j] && (bp + h.size[bp] == Next(h.fl, j) ==> j + 1 < |h.fl|)
    ensures var b := MergedUp(Inserted(h, j, bp), j);
      var p, next := h.fl[j], Next(h.fl, j);
      if bp + h.size[bp] == next then
        b.size == h.size[bp := h.size[bp] + h.size[next]] && b.ptr == h.ptr[bp := h.ptr[next]][p := bp]
      else
        b.size == h.size && b.ptr == h.ptr[bp := next][p := bp]
  {
    var a := Inserted(h, j, bp);
    var p, next := h.fl[j], Next(h.fl, j);
    assert a.fl[j + 1] == bp && |a.fl| == |h.fl| + 1;
    if j + 2 < |a.fl| { assert a.fl[j + 2] == next; }
    if bp + h.size[bp] == next {
      assert Touches(a, j + 1);
      var next2 := Next(h.fl, j + 1);
      assert Next(a.fl, j + 2) == next2 == h.ptr[next];
    }
  }

  /** All that the first half of free needs to know. */
  lemma JoiningUp(h: Heap, j: nat, bp: nat) returns (b: Heap)
    requires Good(h) && bp in h.live && Fits(h, j, bp)
    ensures Halfway(h, j, bp, b)
    ensures HeadersUpper(h, h.fl[j], bp, b)
  {
    Neighbours(h, j, bp);
    InsertedLoose(h, j, bp);
    InsertedGaps(h, j, bp);
    HeadersUp(h, j, bp);
    MergingUp(Inserted(h, j, bp), j);
    b := MergedUp(Inserted(h, j, bp), j);
  }

  /** The headers after the second half. */
  lemma HeadersDown(b: Heap, j: nat, p: nat, bp: nat)
    requires Loose(b) && j + 1 < |b.fl| && b.fl[j] == p && b.fl[j + 1] == bp
    ensures HeadersLower(b, p, bp, MergedDown(b, j))
  {
    assert IsBlock(b, bp);
    if 0 < j { assert IsBlock(b, p); }
    var next := Next(b.fl, j + 1);
  }

  /** All that free's writes need: the headers before, halfway and after. */
  lemma Joining(h: Heap, j: nat, bp: nat) returns (b: Heap, r: Heap)
    requires Good(h) && bp in h.live && Fits(h, j, bp)
    ensures Returned(h, r, j, bp)
    ensures HeadersUpper(h, h.fl[j], bp, b)
    ensures HeadersLower(b, h.fl[j], bp, r)
  {
    b := JoiningUp(h, j, bp);
    r := MergedDown(b, j);
    HeadersDown(b, j, h.fl[j], bp);
    ReturnedGood(h, j, bp, b);
  }
}
