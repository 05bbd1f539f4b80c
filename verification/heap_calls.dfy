/** malloc, free and morecore on the headers in memory. */
module HeapCalls {
  import opened Common
  import opened HeapBlocks
  import opened HeapCode

  /** No free block has n units. */
  ghost predicate NoFit(h: Heap, n: nat) { forall i: nat :: i < |h.fl| && h.fl[i] in h.size ==> h.size[h.fl[i]] < n }

  ghost function Span(a: nat, n: nat): (r: set<nat>) { set u: nat | a <= u < a + n && InSpan(a, n, u) }

  lemma WholeInBlock(h: Heap, a: nat, n: nat)
    requires Good(h) && 0 < n && a in h.part && IsFree(h, h.part[a])
    requires forall u: nat :: InSpan(a, n, u) ==> u in h.part && h.part[u] == h.part[a]
    ensures !NoFit(h, n)
  {
    assert InSpan(a, n, a + n - 1);
    assert Within(h, h.part[a], a) && Within(h, h.part[a], a + n - 1);
    var i: nat :| i < |h.fl| && h.fl[i] == h.part[a];
  }

  /** The search from position j has rejected every block before position k. */
  ghost predicate Rejected(h: Heap, k: nat, j: nat, n: nat)
    requires k < |h.fl| && j < |h.fl|
  {
    forall m: nat :: m < |h.fl| && Distance(|h.fl|, m, j) > Distance(|h.fl|, k, j) && h.fl[m] in h.size ==> h.size[h.fl[m]] < n
  }

  lemma RejectedStart(h: Heap, j: nat, n: nat)
    requires j < |h.fl|
    ensures Rejected(h, Step(|h.fl|, j), j, n)
  {
  }

  lemma RejectedMore(h: Heap, k: nat, j: nat, n: nat)
    requires k < |h.fl| && j < |h.fl| && k != j && Rejected(h, k, j, n) && h.fl[k] in h.size && h.size[h.fl[k]] < n
    ensures Rejected(h, Step(|h.fl|, k), j, n)
  {
    StepCloser(|h.fl|, k, j);
    forall m: nat | m < |h.fl| && Distance(|h.fl|, m, j) > Distance(|h.fl|, Step(|h.fl|, k), j) && h.fl[m] in h.size
      ensures h.size[h.fl[m]] < n
    {
      if m != k { assert Distance(|h.fl|, m, j) != Distance(|h.fl|, k, j); }
    }
  }

  /** Back at the start: nothing fits. */
  lemma RejectedAll(h: Heap, j: nat, n: nat)
    requires j < |h.fl| && Rejected(h, j, j, n) && h.fl[j] in h.size && h.size[h.fl[j]] < n
    ensures NoFit(h, n)
  {
    forall i: nat | i < |h.fl| && h.fl[i] in h.size ensures h.size[h.fl[i]] < n {
      if i != j { assert Distance(|h.fl|, i, j) > Distance(|h.fl|, j, j); }
    }
  }

  /** p is the block at position k, prevp the one before it, and both have headers. */
  ghost predicate At(h: Heap, k: nat, prevp: nat, p: nat) {
    && k < |h.fl| && p == h.fl[k] && p in h.size && p in h.ptr && h.ptr[p] == Next(h.fl, k)
    && (0 < h.size[p] ==> 0 < k) && (0 < k ==> prevp == h.fl[k - 1])
  }

  lemma AtStep(h: Heap, k: nat, p: nat)
    requires Good(h) && k < |h.fl| && p == h.fl[k]
    ensures p in h.ptr && At(h, Step(|h.fl|, k), p, h.ptr[p])
  {
    var next, m := Next(h.fl, k), Step(|h.fl|, k);
    var next2 := Next(h.fl, m);
    if m > 0 { assert IsBlock(h, h.fl[m]); }
  }

  /** One more round of the search. */
  lemma LapStep(h: Heap, k: nat, j: nat, n: nat, prevp: nat, p: nat)
    requires Good(h) && j < |h.fl| && At(h, k, prevp, p) && k != j && Rejected(h, k, j, n) && h.size[p] < n
    ensures var m := Step(|h.fl|, k);
      && Rejected(h, m, j, n) && Distance(|h.fl|, m, j) < Distance(|h.fl|, k, j)
      && At(h, m, p, h.ptr[p])
  {
    RejectedMore(h, k, j, n);
    StepCloser(|h.fl|, k, j);
    AtStep(h, k, p);
  }

  /** From freep to the place of bp it is this many steps along the list. */
  ghost predicate Walk(h: Heap, freep: nat, bp: nat, steps: nat) {
    exists k: nat, j: nat :: k < |h.fl| && j < |h.fl| && h.fl[k] == freep && Fits(h, j, bp) && steps == Distance(|h.fl|, k, j)
  }

  class Arena {
    const base: nat
    var ptr: map<nat, nat>
    var size: map<nat, nat>
    var freep: nat
    ghost var fl: seq<nat>
    ghost var live: map<nat, nat>
    ghost var part: map<nat, nat>

    ghost function H(): (h: Heap)
      reads this
    {
      Heap(base, ptr, size, fl, live, part)
    }

    /** Before the first malloc, freep is null and there is no heap. */
    ghost predicate Valid()
      reads this
    {
      && 0 < base
      && (freep == 0 ==> live == map[] && part == map[])
      && (freep != 0 ==> Good(H()) && freep in fl)
    }

    constructor (base: nat)
      requires 0 < base
      ensures Valid() && live == map[] && part == map[]
    {
      this.base, freep := base, 0;
      ptr, size, fl, live, part := map[], map[], [], map[], map[];
    }

    /** free's search for the place of bp: straight along the list from freep, less than one lap. */
    method Scan(bp: nat) returns (p: nat, ghost j: nat, ghost steps: nat)
      requires Valid() && bp in live
      ensures Fits(H(), j, bp) && p == fl[j] && steps < |fl| && Walk(H(), freep, bp, steps)
    {
      p, steps := freep, 0;
      assert IsBlock(H(), bp) && Within(H(), bp, bp);
      j := Place(H(), bp);
      ghost var k: nat :| k < |fl| && fl[k] == p;
      ghost var d := Distance(|fl|, k, j);
      assert Walk(H(), freep, bp, d);
      ghost var next := Next(fl, k);
      while !(bp > p && bp < ptr[p])
        invariant k < |fl| && p == fl[k] && p in ptr && ptr[p] == Next(fl, k)
        invariant steps + Distance(|fl|, k, j) == d
        decreases Distance(|fl|, k, j)
      {
        if p >= ptr[p] && (bp > p || bp < ptr[p]) {
          assert Fits(H(), k, bp);
          break;
        }
        assert !Fits(H(), k, bp);
        StepCloser(|fl|, k, j);
        next := Next(fl, Step(|fl|, k));
        p, k, steps := ptr[p], Step(|fl|, k), steps + 1;
      }
    }

    /** free, joining bp to its upper neighbour. */
    method JoinUp(bp: nat, p: nat, ghost b: Heap)
      requires HeadersUpper(H(), p, bp, b)
      modifies this`ptr, this`size
      ensures size == b.size && b.ptr == ptr[p := bp] && bp in ptr && bp in size
    {
      if bp + size[bp] == ptr[p] {
        ptr, size := ptr[bp := ptr[ptr[p]]], size[bp := size[bp] + size[ptr[p]]];
      } else {
        ptr := ptr[bp := ptr[p]];
      }
    }

    /** free, joining the result to the lower neighbour p or linking it after p. */
    method JoinDown(bp: nat, p: nat, ghost b: Heap, ghost r: Heap)
      requires bp in ptr && p != bp && b.size == size && b.ptr == ptr[p := bp] && HeadersLower(b, p, bp, r)
      modifies this`ptr, this`size
      ensures size == r.size && ptr == r.ptr
    {
      if p + size[p] == bp {
        ptr, size := ptr[p := ptr[bp]], size[p := size[p] + size[bp]];
      } else {
        ptr := ptr[p := bp];
      }
    }

    /** free's writes to the headers. */
    method Join(bp: nat, p: nat, ghost j: nat) returns (ghost r: Heap)
      requires Good(H()) && bp in live && Fits(H(), j, bp) && p == fl[j]
      modifies this`ptr, this`size
      ensures Returned(old(H()), r, j, bp) && ptr == r.ptr && size == r.size
    {
      ghost var b;
      b, r := Joining(H(), j, bp);
      JoinUp(bp, p, b);
      JoinDown(bp, p, b, r);
    }

    /** free: the block goes back, merged with free neighbours; the other live blocks keep their place
        and size, no unit is lost. */
    method Free(ap: nat)
      requires Valid() && 0 < ap && ap - 1 in live
      modifies this
      ensures Valid() && freep != 0 && live == old(live) - {ap - 1} && part.Keys == old(part.Keys)
      ensures ap - 1 in part && IsFree(H(), part[ap - 1])
      ensures forall u: nat :: InSpan(ap - 1, old(live)[ap - 1], u) ==> u in part && part[u] == part[ap - 1]
    {
      ghost var h := H();
      var bp := ap - 1;
      var p;
      ghost var j, steps;
      p, j, steps := Scan(bp);
      ghost var r := Join(bp, p, j);
      freep := p;
      fl, live, part := r.fl, r.live, r.part;
      assert H() == r;
      InList(r, p);
    }

    /** malloc's exact hit: unlink block k. */
    method TakeAll(p: nat, prevp: nat, ghost k: nat)
      requires Good(H()) && 0 < k < |fl| && p == fl[k] && prevp == fl[k - 1] && p in ptr && ptr[p] == Next(fl, k)
      modifies this`ptr, this`fl, this`live
      ensures Good(H()) && prevp in fl && p !in old(live) && p in size && live == old(live)[p := size[p]]
    {
      ghost var h := H();
      UnlinkedGood(h, k);
      ptr := ptr[prevp := ptr[p]];
      ghost var u := Unlinked(h, k);
      fl, live := u.fl, u.live;
      assert fl[k - 1] == prevp;
      assert p !in h.live by { assert p in h.fl; }
    }

    /** malloc's larger hit: the last n units of block k. */
    method TakePart(p: nat, n: nat, ghost k: nat) returns (q: nat)
      requires Good(H()) && 0 < k < |fl| && p == fl[k] && p in size && 0 < n < size[p]
      modifies this`size, this`live, this`part
      ensures Good(H()) && q !in old(live) && live == old(live)[q := n] && part.Keys == old(part.Keys)
    {
      ghost var u := SplitOff(H(), k, n);
      SplitOffGood(H(), k, n);
      assert u.part.Keys == part.Keys;
      size := size[p := size[p] - n];
      q := p + size[p];
      size := size[q := n];
      live, part := u.live, u.part;
      assert H() == u;
    }

    /** malloc's hit. */
    method Take(p: nat, prevp: nat, n: nat, ghost k: nat) returns (r: nat)
      requires Valid() && freep != 0 && At(H(), k, prevp, p) && 0 < n <= size[p]
      modifies this
      ensures Valid() && freep != 0 && r > 0 && r - 1 !in old(live) && live == old(live)[r - 1 := n] && part.Keys == old(part.Keys)
    {
      InList(H(), prevp);
      var q := p;
      if size[p] == n {
        TakeAll(p, prevp, k);
      } else {
        q := TakePart(p, n, k);
      }
      freep := prevp;
      r := q + 1;
    }

    /** The rounds of malloc's loop up to a block that fits or back to freep: at most one lap. */
    method Lap(n: nat) returns (fits: bool, p: nat, prevp: nat, ghost k: nat)
      requires Valid() && freep != 0 && 0 < n
      ensures At(H(), k, prevp, p) && fits == (size[p] >= n) && (fits <==> !NoFit(H(), n))
    {
      ghost var h := H();
      ghost var j: nat :| j < |fl| && fl[j] == freep;
      AtStep(h, j, freep);
      RejectedStart(h, j, n);
      k := Step(|fl|, j);
      prevp, p := freep, ptr[freep];
      while size[p] < n && p != freep
        invariant At(h, k, prevp, p) && Rejected(h, k, j, n)
        decreases Distance(|fl|, k, j)
      {
        LapStep(h, k, j, n, prevp, p);
        prevp, p, k := p, ptr[p], Step(|fl|, k);
      }
      fits := size[p] >= n;
      if !fits {
        assert k == j;
        RejectedAll(h, j, n);
      }
    }

    /** malloc: a block of nunits units that nobody else has, unless no free block fits and sbrk refuses.
        sbrk is asked at most once, for `request` bytes, and the lap after it finds a block. */
    method Malloc(nbytes: nat, grant: Option<nat>) returns (r: nat, ghost asked: nat, request: int)
      requires Valid() && nbytes < 0x1_0000_0000
      requires grant.Some? ==> Above(H(), grant.value)
      modifies this
      ensures Valid() && asked <= 1 && (asked == 1 <==> old(freep) == 0 || NoFit(old(H()), Units(nbytes)))
      ensures r == 0 <==> asked == 1 && grant.None?
      ensures r == 0 ==> live == old(live) && part == old(part)
      ensures r != 0 ==> r - 1 !in old(live) && live == old(live)[r - 1 := Units(nbytes)]
      ensures r != 0 ==>
        part.Keys == old(part.Keys) + if asked == 1 then Span(grant.value, Max(Units(nbytes), 4096)) else {}
      ensures request == if asked == 1 then Request(Max(Units(nbytes), 4096)) else 0
    {
      var nunits := Units(nbytes);
      request := 0;
      if freep == 0 { Init(); }
      asked := 0;
      var fits, p, prevp;
      ghost var k: nat;
      fits, p, prevp, k := Lap(nunits);
      while !fits
        invariant Valid() && freep != 0 && live == old(live) && At(H(), k, prevp, p) && fits == (size[p] >= nunits)
        invariant asked <= 1 && (!fits ==> asked == 0) && request == if asked == 1 then Request(Max(nunits, 4096)) else 0
        invariant fits && asked == 0 ==> old(freep) != 0 && !NoFit(old(H()), nunits)
        invariant !fits ==> part == old(part) && (old(freep) == 0 || NoFit(old(H()), nunits))
        invariant asked == 1 ==> grant.Some? && (old(freep) == 0 || NoFit(old(H()), nunits))
        invariant part.Keys == old(part.Keys) + if asked == 1 then Span(grant.value, Max(nunits, 4096)) else {}
        decreases !fits
      {
        asked := 1;
        p, request := Morecore(nunits, grant);
        if p == 0 { return 0, asked, request; }
        fits, p, prevp, k := Lap(nunits);
      }
      r := Take(p, prevp, nunits, k);
    }

    /** malloc's first call: the list is base alone. */
    method Init()
      requires Valid() && freep == 0
      modifies this
      ensures Valid() && freep == base && fl == [base] && live == map[] && part == map[] && size == old(size)[base := 0]
    {
      ptr, size, fl := ptr[base := base], size[base := 0], [base];
      freep := base;
      var next := Next(fl, 0);
    }

    /** morecore: at least nu units more, put on the free list by free. */
    method Morecore(nu: nat, grant: Option<nat>) returns (p: nat, request: int)
      requires Valid() && freep != 0 && 0 < nu && (grant.Some? ==> Above(H(), grant.value))
      modifies this
      ensures request == Request(Max(nu, 4096))
      ensures grant.None? ==> p == 0 && H() == old(H()) && freep == old(freep)
      ensures grant.Some? ==> Valid() && p == freep != 0 && live == old(live) && !NoFit(H(), nu)
      ensures grant.Some? ==> part.Keys == old(part.Keys) + Span(grant.value, Max(nu, 4096))
    {
      var n := Max(nu, 4096);
      request := Signed(8 * n % 0x1_0000_0000);
      if grant.None? { return 0, request; }
      var hp := grant.value;
      ghost var h := H();
      AcceptGrant(hp, n);
      Free(hp + 1);
      assert live == h.live;
      WholeInBlock(H(), hp, nu);
      p := freep;
    }

    /** The new memory as a block in the caller's hands, its header written. */
    method AcceptGrant(hp: nat, n: nat)
      requires Valid() && freep != 0 && 0 < n && Above(H(), hp)
      modifies this`size, this`live, this`part
      ensures Valid() && hp !in old(live) && live == old(live)[hp := n] && part.Keys == old(part.Keys) + Span(hp, n)
    {
      ghost var h := H();
      GrantedGood(h, hp, n);
      size := size[hp := n];
      ghost var g := Granted(h, hp, n);
      live, part := g.live, g.part;
      assert part.Keys == h.part.Keys + Span(hp, n);
    }
  }

  lemma InList(h: Heap, p: nat)
    requires Good(h) && p in h.fl
    ensures h.base <= p
  {
    if p != h.base { assert IsBlock(h, p) && Within(h, p, p); }
  }
}
