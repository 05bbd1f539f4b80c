/** fs.c's block and file layer as it runs: scan loops over the free map, block
    map updates, and the copy loops of readi and writei.  One call at a time;
    `disk` holds the logical contents that bread returns and log_write changes. */
module FsCode {
  import opened Common
  import opened FsBytes
  import opened FsVolume

  /** Blocks that mapping any file block may log besides the block itself and its own map bit: the
      indirect block and its map bit. */
  function IndirectCost(v: Vol, i: nat): (r: set<nat>)
    requires i < |v.inodes|
  {
    var ind := v.inodes[i].addrs[NDIRECT];
    if ind == 0 then {} else {ind, v.sb.MapBlock(ind)}
  }

  /** Every block is in use. */
  ghost predicate Full(v: Vol) { v.Ok() && forall b: nat :: b < v.sb.size ==> InUse(v, b) }

  // ---- what bmap's stores do to a volume ----

  /** Inode i has file block bn at address a, in a sound volume that otherwise kept every file block. */
  ghost predicate Mapping(v: Vol, w: Vol, owner: Owner, i: nat, bn: nat, a: nat) {
    && Sound(w, owner) && AddrsKept(v, w, i, bn) && DataKept(v, w) && SizesKept(v, w, i)
    && IndirectKept(v, w, i) && IndirectAfter(v, w, i, bn)
    && bn < MAXFILE && i < w.sb.ninodes && a != 0 && Addr(w, i, bn) == a
  }

  /** There is an indirect block if there was one or block bn needs it. */
  ghost predicate IndirectAfter(v: Vol, w: Vol, i: nat, bn: nat) {
    && i < |v.inodes| && i < |w.inodes|
    && (w.inodes[i].addrs[NDIRECT] == 0 <==> v.inodes[i].addrs[NDIRECT] == 0 && bn < NDIRECT)
  }

  /** How many blocks bmap has to allocate for block bn. */
  ghost function Missing(v: Vol, i: nat, bn: nat): (r: nat)
    requires v.Ok() && i < v.sb.ninodes && bn < MAXFILE
  {
    (if Addr(v, i, bn) == 0 then 1 else 0) + if bn >= NDIRECT && v.inodes[i].addrs[NDIRECT] == 0 then 1 else 0
  }

  /** A full volume has no block to hand out. */
  lemma FullCount(v: Vol, owner: Owner)
    requires Sound(v, owner) && Full(v)
    ensures |owner| == v.sb.nblocks
  {
    FreeCount(v, owner);
    assert Free(v) == {};
  }

  /** An indirect block once there stays. */
  ghost predicate IndirectKept(v: Vol, w: Vol, i: nat) {
    && i < |v.inodes| && i < |w.inodes|
    && (v.inodes[i].addrs[NDIRECT] != 0 ==> w.inodes[i].addrs[NDIRECT] == v.inodes[i].addrs[NDIRECT])
  }

  lemma MapDirect(v: Vol, owner: Owner, i: nat, bn: nat, b: nat)
    requires Sound(v, owner) && i < v.sb.ninodes && bn < NDIRECT && Addr(v, i, bn) == 0
    requires b < v.sb.size && !InUse(v, b)
    ensures Mapping(v, WithAddr(Allocated(v, b), i, bn, b), owner[b := (i, bn)], i, bn, b)
  {
    var u := Allocated(v, b);
    AllocateAccounts(v, owner, {}, b);
    AllocateData(v, owner, b);
    assert {} + {b} == {b};
    StoreAddr(u, owner, i, bn, b);
    var w := WithAddr(u, i, bn, b);
    forall j: nat, m: nat | j < v.sb.ninodes && m < MAXFILE && (j, m) != (i, bn)
      ensures Addr(w, j, m) == Addr(v, j, m)
    {
      assert Slot(v, j, DataSlot(m));
    }
  }

  /** The new indirect block: no file block moves. */
  lemma MapIndirect(v: Vol, owner: Owner, i: nat, b: nat)
    requires Sound(v, owner) && i < v.sb.ninodes && v.inodes[i].addrs[NDIRECT] == 0
    requires b < v.sb.size && !InUse(v, b)
    ensures var w := WithAddr(Allocated(v, b), i, NDIRECT, b);
            && Sound(w, owner[b := (i, NDIRECT)]) && DataKept(v, w) && SizesKept(v, w, i) && b != 0
            && forall j: nat, m: nat :: j < v.sb.ninodes && m < MAXFILE ==> Addr(w, j, m) == Addr(v, j, m)
  {
    var u := Allocated(v, b);
    AllocateAccounts(v, owner, {}, b);
    AllocateData(v, owner, b);
    assert {} + {b} == {b};
    assert Ref(v, i, NDIRECT) == 0;
    StoreAddr(u, owner, i, NDIRECT, b);
    var w := WithAddr(u, i, NDIRECT, b);
    forall j: nat, m: nat | j < v.sb.ninodes && m < MAXFILE ensures Addr(w, j, m) == Addr(v, j, m) {
      assert Slot(v, j, DataSlot(m));
    }
  }

  /** The indirect block is a data block other than the map block that records b. */
  lemma IndirectInPlace(v: Vol, owner: Owner, i: nat, j: nat, b: nat)
    requires Sound(v, owner) && i < v.sb.ninodes && j < NINDIRECT && v.inodes[i].addrs[NDIRECT] != 0
    requires b < v.sb.size && !InUse(v, b)
    ensures Ref(v, i, NDIRECT) == v.inodes[i].addrs[NDIRECT] && Slot(v, i, NDIRECT + 1 + j)
    ensures v.inodes[i].addrs[NDIRECT] < v.sb.size && v.sb.MapBlock(b) < v.sb.DataStart()
    ensures Allocated(v, b).disk[v.inodes[i].addrs[NDIRECT]] == v.disk[v.inodes[i].addrs[NDIRECT]]
  {
    AllocateData(v, owner, b);
    assert Ref(v, i, NDIRECT) == v.inodes[i].addrs[NDIRECT] && Slot(v, i, NDIRECT + 1 + j);
  }

  lemma MapEntry(v: Vol, owner: Owner, i: nat, j: nat, b: nat)
    requires Sound(v, owner) && i < v.sb.ninodes && j < NINDIRECT
    requires v.inodes[i].addrs[NDIRECT] != 0 && Addr(v, i, NDIRECT + j) == 0
    requires b < v.sb.size && !InUse(v, b)
    ensures var ind := v.inodes[i].addrs[NDIRECT]; ind < v.sb.size && Allocated(v, b).disk[ind] == v.disk[ind]
    ensures Mapping(v, WithEntry(Allocated(v, b), i, j, b), owner[b := (i, NDIRECT + 1 + j)], i, NDIRECT + j, b)
  {
    var u := Allocated(v, b);
    AllocateAccounts(v, owner, {}, b);
    AllocateData(v, owner, b);
    assert {} + {b} == {b};
    IndirectInPlace(v, owner, i, j, b);
    StoreEntry(u, owner, i, j, b);
    EntryAddrs(v, owner, u, i, j, b);
    EntryData(v, owner, u, i, j, b);
  }

  /** Filling one entry moves that file block only. */
  lemma EntryAddrs(v: Vol, owner: Owner, u: Vol, i: nat, j: nat, b: nat)
    requires SameRefs(v, u) && Inverse(u, owner) && u.inodes == v.inodes
    requires i < v.sb.ninodes && j < NINDIRECT && b < v.sb.size && 0 < v.inodes[i].addrs[NDIRECT] < v.sb.size
    ensures AddrsKept(v, WithEntry(u, i, j, b), i, NDIRECT + j)
    ensures Addr(WithEntry(u, i, j, b), i, NDIRECT + j) == b
  {
    EntryRefs(u, owner, i, j, b);
    var w := WithEntry(u, i, j, b);
    forall k: nat, m: nat | k < v.sb.ninodes && m < MAXFILE && (k, m) != (i, NDIRECT + j)
      ensures Addr(w, k, m) == Addr(v, k, m)
    {
      assert Slot(v, k, DataSlot(m));
      if DataSlot(m) == NDIRECT + 1 + j { DataSlotInjective(m, NDIRECT + j); }
      assert Ref(w, k, DataSlot(m)) == Ref(u, k, DataSlot(m));
    }
  }

  /** The indirect block is nobody's file block. */
  lemma EntryData(v: Vol, owner: Owner, u: Vol, i: nat, j: nat, b: nat)
    requires v.Ok() && Inverse(v, owner) && DataKept(v, u) && SameRefs(v, u)
    requires i < v.sb.ninodes && j < NINDIRECT && b < v.sb.size && u.inodes == v.inodes
    requires 0 < v.inodes[i].addrs[NDIRECT] < v.sb.size
    ensures DataKept(v, WithEntry(u, i, j, b))
  {
    var ind := v.inodes[i].addrs[NDIRECT];
    assert Ref(v, i, NDIRECT) == ind;
    forall k: nat, m: nat | k < v.sb.ninodes && m < MAXFILE && 0 < Addr(v, k, m) < v.sb.size
      ensures WithEntry(u, i, j, b).disk[Addr(v, k, m)] == v.disk[Addr(v, k, m)]
    {
      assert Slot(v, k, DataSlot(m));
    }
  }

  /** Mapping after an indirect block was added. */
  lemma MappingAfter(v: Vol, u: Vol, w: Vol, owner: Owner, i: nat, bn: nat, a: nat)
    requires Mapping(u, w, owner, i, bn, a) && DataKept(v, u) && SizesKept(v, u, i) && IndirectKept(v, u, i)
    requires bn >= NDIRECT && u.inodes[i].addrs[NDIRECT] != 0
    requires forall j: nat, m: nat :: j < v.sb.ninodes && m < MAXFILE ==> Addr(u, j, m) == Addr(v, j, m)
    ensures Mapping(v, w, owner, i, bn, a)
  {
  }

  /** Bits below k set, the others clear. */
  ghost predicate MarkedBelow(v: Vol, k: int) {
    v.Ok() && forall b: nat {:trigger InUse(v, b)} :: b < v.sb.size ==> (InUse(v, b) <==> b < k)
  }

  ghost predicate NoBlocks(v: Vol) {
    v.Ok() && forall i :: 0 <= i < v.sb.ninodes ==> v.inodes[i] == Inode(0, seq(NDIRECT + 1, j => 0))
  }

  lemma {:induction false} ZeroBit(k: nat)
    ensures !BitOf(0, k)
  {
    if k > 0 { ZeroBit(k - 1); }
  }

  lemma ZeroUnmarked(v: Vol)
    requires v.Ok() && forall b :: 0 <= b < v.sb.size ==> v.disk[b] == Zeros()
    ensures MarkedBelow(v, 0)
  {
    forall b: nat | b < v.sb.size ensures !InUse(v, b) {
      assert v.disk[v.sb.MapBlock(b)] == Zeros();
      ZeroBit(b % 4096 % 8);
    }
  }

  lemma MarkNext(v: Vol, k: nat)
    requires MarkedBelow(v, k) && k < v.sb.size
    ensures !InUse(v, k)
    ensures var m := v.sb.MapBlock(k); MarkedBelow(Vol(v.sb, v.disk[m := WithBit(v.disk[m], k % 4096)], v.inodes), k + 1)
  {
    var m := v.sb.MapBlock(k);
    assert !InUse(v, k);
    var w := Vol(v.sb, v.disk[m := WithBit(v.disk[m], k % 4096)], v.inodes);
    assert InUse(w, k);
    forall b: nat | b < v.sb.size && b != k ensures InUse(w, b) == InUse(v, b) {
      if v.sb.MapBlock(b) == m { MapPlaces(v.sb, b, k); }
    }
  }

  lemma FreshGood(v: Vol)
    requires MarkedBelow(v, v.sb.DataStart()) && NoBlocks(v)
    ensures Good(v, map[])
  {
  }

  ghost function BlocksOf(calls: seq<nat>): (r: set<nat>) { set b | b in calls }

  class Fs {
    const sb: Super
    var disk: seq<Block>
    var inodes: seq<Inode>       // in-memory inodes
    var dinodes: seq<Inode>      // their on-disk copies
    ghost var owner: Owner
    ghost var calls: seq<nat>         // the log_writes of this transaction, in order
    ghost var base: seq<Block>        // disk and inodes when it began
    ghost var ibase: seq<Inode>
    ghost var history: seq<seq<nat>>  // the log_writes of each transaction ended so far

    ghost function V(): (v: Vol)
      reads this
    {
      Vol(sb, disk, inodes)
    }

    /** Between calls: a good volume, with the inode cache written through. */
    ghost predicate Valid()
      reads this
    {
      Good(V(), owner) && dinodes == inodes
    }

    ghost predicate Same(v: Vol, o: Owner, l: seq<nat>)
      reads this
    {
      V() == v && owner == o && calls == l
    }

    /** Blocks passed to log_write in this transaction. */
    ghost function Logged(): (r: set<nat>)
      reads this`calls
    {
      BlocksOf(calls)
    }

    /** Every block that differs from when the transaction began has been passed to log_write. */
    ghost predicate Covered()
      reads this
    {
      && |base| == |disk| && |ibase| == |dinodes|
      && (forall b: nat :: b < |disk| && disk[b] != base[b] ==> b in calls)
      && (forall i: nat :: i < |dinodes| && dinodes[i] != ibase[i] ==> sb.InodeBlock(i) in calls)
    }

    /** mkfs, before it stores any file: zero every block, no inode in use, then its balloc sets the map
        bits of the metadata blocks. */
    constructor (sb: Super)
      requires sb.Ok()
      ensures this.sb == sb && Valid() && owner == map[] && calls == [] && history == [] && NoBlocks(V())
    {
      this.sb, disk := sb, seq(sb.size, i => Zeros());
      inodes := seq(sb.ninodes, i => Inode(0, seq(NDIRECT + 1, j => 0)));
      dinodes := seq(sb.ninodes, i => Inode(0, seq(NDIRECT + 1, j => 0)));
      owner, calls, history, base, ibase := map[], [], [], [], [];
      new;
      ZeroUnmarked(V());
      var k: nat := 0;
      while k < sb.DataStart()
        invariant k <= sb.DataStart() && MarkedBelow(V(), k) && NoBlocks(V())
        invariant dinodes == inodes && owner == map[] && calls == [] && history == []
      {
        MarkNext(V(), k);
        var m := sb.MapBlock(k);
        disk := disk[m := WithBit(disk[m], k % 4096)];
        k := k + 1;
      }
      FreshGood(V());
    }

    /** The caller's bread, change and log_write of block b. */
    method LogWrite(b: nat, blk: Block)
      requires b < |disk|
      modifies this`disk, this`calls
      ensures disk == old(disk)[b := blk] && calls == old(calls) + [b] && Logged() == old(Logged()) + {b}
      ensures old(Covered()) ==> Covered()
    {
      disk := disk[b := blk];
      calls := calls + [b];
    }

    /** balloc: the first free block, marked and zeroed; None is "balloc: out of blocks". */
    method Balloc() returns (r: Option<nat>)
      requires V().Ok()
      modifies this`disk, this`calls
      ensures old(Covered()) ==> Covered()
      ensures r.None? ==> V() == old(V()) && Logged() == old(Logged()) && Full(V())
      ensures r.Some? ==> r.value < sb.size && !InUse(old(V()), r.value)
      ensures r.Some? ==> forall b: nat :: b < r.value ==> InUse(old(V()), b)
      ensures r.Some? ==> V() == Allocated(old(V()), r.value) && Logged() == old(Logged()) + {sb.MapBlock(r.value), r.value}
    {
      var b := 0;
      while b < sb.size
        invariant b % 4096 == 0 && disk == old(disk) && calls == old(calls)
        invariant forall c: nat :: c < b && c < sb.size ==> InUse(V(), c)
      {
        var bp := disk[sb.MapBlock(b)];
        var bi := ScanMap(b);
        if bi < BPB && b + bi < sb.size {
          assert sb.MapBlock(b + bi) == sb.MapBlock(b) && (b + bi) % 4096 == bi;
          LogWrite(sb.MapBlock(b), WithBit(bp, bi));
          LogWrite(b + bi, Zeros());
          return Some(b + bi);
        }
        b := b + BPB;
      }
      return None;
    }

    /** balloc's inner loop: the first clear bit of one free-map block, or the end of its range. */
    method ScanMap(b: nat) returns (bi: nat)
      requires V().Ok() && b < sb.size && b % 4096 == 0
      ensures bi <= BPB && forall c: nat :: b <= c < b + bi && c < sb.size ==> InUse(V(), c)
      ensures bi < BPB && b + bi < sb.size ==> !InUse(V(), b + bi)
      ensures bi < BPB ==> b + bi <= sb.size
    {
      bi := 0;
      while bi < BPB && b + bi < sb.size
        invariant 0 <= bi <= BPB && b + bi <= sb.size
        invariant forall c: nat :: b <= c < b + bi ==> InUse(V(), c)
      {
        assert sb.MapBlock(b + bi) == sb.MapBlock(b) && (b + bi) % 4096 == bi;
        if !MapBit(disk[sb.MapBlock(b)], bi) { return; }
        bi := bi + 1;
      }
    }

    /** bfree: clear the bit, or panic "freeing free block". */
    method Bfree(b: nat) returns (panicked: bool)
      requires V().Ok() && b < sb.size
      modifies this`disk, this`calls
      ensures old(Covered()) ==> Covered()
      ensures panicked <==> !InUse(old(V()), b)
      ensures panicked ==> V() == old(V()) && Logged() == old(Logged())
      ensures !panicked ==> V() == Unmarked(old(V()), b) && Logged() == old(Logged()) + {sb.MapBlock(b)}
    {
      var bp := disk[sb.MapBlock(b)];
      var bi := b % 4096;
      if !MapBit(bp, bi) { return true; }
      LogWrite(sb.MapBlock(b), WithoutBit(bp, bi));
      return false;
    }

    /** bmap, direct case. */
    method BmapDirect(i: nat, bn: nat) returns (r: Option<nat>)
      requires Sound(V(), owner) && i < sb.ninodes && bn < NDIRECT
      modifies this`disk, this`inodes, this`owner, this`calls
      ensures old(Covered()) ==> Covered()
      ensures r.None? ==> Full(V()) && V() == old(V()) && owner == old(owner)
      ensures r.Some? ==> |owner| == |old(owner)| + if Addr(old(V()), i, bn) == 0 then 1 else 0
      ensures r.Some? ==> Mapping(old(V()), V(), owner, i, bn, r.value)
      ensures Addr(old(V()), i, bn) != 0 ==> r.Some? && Same(old(V()), old(owner), old(calls))
      ensures r.Some? ==> Logged() <= old(Logged()) + {r.value, sb.MapBlock(r.value)}
    {
      ghost var v := V();
      var addr := inodes[i].addrs[bn];
      if addr == 0 {
        r := Balloc();
        if r.None? { return; }
        MapDirect(v, owner, i, bn, r.value);
        inodes := inodes[i := Inode(inodes[i].size, inodes[i].addrs[bn := r.value])];
        owner := owner[r.value := (i, bn)];
      } else {
        r := Some(addr);
      }
    }

    /** bmap, the indirect block itself: load it, allocating if necessary. */
    method BmapIndirect(i: nat) returns (ok: bool)
      requires Sound(V(), owner) && i < sb.ninodes
      modifies this`disk, this`inodes, this`owner, this`calls
      ensures old(Covered()) ==> Covered()
      ensures !ok ==> Full(V()) && V() == old(V()) && owner == old(owner)
      ensures ok ==> |owner| == |old(owner)| + if old(inodes)[i].addrs[NDIRECT] == 0 then 1 else 0
      ensures ok ==> Sound(V(), owner) && DataKept(old(V()), V()) && SizesKept(old(V()), V(), i)
      ensures ok ==> inodes[i].addrs[NDIRECT] != 0
      ensures ok ==> forall j: nat, m: nat :: j < sb.ninodes && m < MAXFILE ==> Addr(V(), j, m) == Addr(old(V()), j, m)
      ensures old(inodes)[i].addrs[NDIRECT] != 0 ==> ok && Same(old(V()), old(owner), old(calls))
      ensures ok ==> Logged() <= old(Logged()) + IndirectCost(V(), i)
    {
      ghost var v := V();
      if inodes[i].addrs[NDIRECT] == 0 {
        var r := Balloc();
        if r.None? { return false; }
        MapIndirect(v, owner, i, r.value);
        inodes := inodes[i := Inode(inodes[i].size, inodes[i].addrs[NDIRECT := r.value])];
        owner := owner[r.value := (i, NDIRECT)];
      }
      return true;
    }

    /** Fill an empty entry of the loaded indirect block. */
    method NewEntry(i: nat, j: nat) returns (r: Option<nat>)
      requires Sound(V(), owner) && i < sb.ninodes && j < NINDIRECT
      requires inodes[i].addrs[NDIRECT] != 0 && Addr(V(), i, NDIRECT + j) == 0
      modifies this`disk, this`owner, this`calls
      ensures old(Covered()) ==> Covered()
      ensures r.None? ==> Full(V()) && V() == old(V()) && owner == old(owner)
      ensures r.Some? ==> |owner| == |old(owner)| + 1
      ensures r.Some? ==> Mapping(old(V()), V(), owner, i, NDIRECT + j, r.value)
      ensures r.Some? ==> Logged() == old(Logged()) + {sb.MapBlock(r.value), r.value} + {inodes[i].addrs[NDIRECT]}
    {
      ghost var v := V();
      r := Balloc();
      if r.None? { return; }
      MapEntry(v, owner, i, j, r.value);
      var ind := inodes[i].addrs[NDIRECT];
      LogWrite(ind, WithWord(disk[ind], j, r.value));
      owner := owner[r.value := (i, NDIRECT + 1 + j)];
      assert V() == WithEntry(Allocated(v, r.value), i, j, r.value);
    }

    /** bmap, an entry of the loaded indirect block. */
    method BmapEntry(i: nat, j: nat) returns (r: Option<nat>)
      requires Sound(V(), owner) && i < sb.ninodes && j < NINDIRECT && inodes[i].addrs[NDIRECT] != 0
      modifies this`disk, this`owner, this`calls
      ensures old(Covered()) ==> Covered()
      ensures r.None? ==> Addr(old(V()), i, NDIRECT + j) == 0 && Full(V()) && V() == old(V()) && owner == old(owner)
      ensures r.Some? ==> |owner| == |old(owner)| + if Addr(old(V()), i, NDIRECT + j) == 0 then 1 else 0
      ensures r.Some? ==> Mapping(old(V()), V(), owner, i, NDIRECT + j, r.value)
      ensures Addr(old(V()), i, NDIRECT + j) != 0 ==> r.Some? && Same(old(V()), old(owner), old(calls))
      ensures r.Some? ==> Logged() <= old(Logged()) + {r.value, sb.MapBlock(r.value)} + IndirectCost(V(), i)
    {
      var ind := inodes[i].addrs[NDIRECT];
      assert ind < sb.size by { assert Ref(V(), i, NDIRECT) == ind; }
      var addr := Word(disk[ind], j);
      assert addr == Addr(V(), i, NDIRECT + j);
      if addr == 0 {
        r := NewEntry(i, j);
      } else {
        r := Some(addr);
      }
    }

    /** bmap, indirect case. */
    method BmapFar(i: nat, bn: nat) returns (r: Option<nat>)
      requires Sound(V(), owner) && i < sb.ninodes && NDIRECT <= bn < MAXFILE
      modifies this`disk, this`inodes, this`owner, this`calls
      ensures old(Covered()) ==> Covered()
      ensures r.None? ==> Full(V()) && Sound(V(), owner) && |owner| < |old(owner)| + Missing(old(V()), i, bn)
      ensures r.Some? ==> |owner| == |old(owner)| + Missing(old(V()), i, bn)
      ensures r.Some? ==> Mapping(old(V()), V(), owner, i, bn, r.value)
      ensures Addr(old(V()), i, bn) != 0 ==> r.Some? && Same(old(V()), old(owner), old(calls))
      ensures r.Some? ==> Logged() <= old(Logged()) + {r.value, sb.MapBlock(r.value)} + IndirectCost(V(), i)
    {
      ghost var v := V();
      assert v.inodes[i].addrs[NDIRECT] == 0 ==> Addr(v, i, bn) == 0;
      var ok := BmapIndirect(i);
      if !ok { return None; }
      ghost var u := V();
      assert Addr(u, i, bn) == Addr(v, i, bn);
      r := BmapEntry(i, bn - NDIRECT);
      if r.Some? { MappingAfter(v, u, V(), owner, i, bn, r.value); }
    }

    /** bmap: the address of the bn-th block of inode i, allocated if there was none.  None is a panic:
        block number out of range, or fewer blocks left than are missing. */
    method Bmap(i: nat, bn: nat) returns (r: Option<nat>)
      requires Sound(V(), owner) && i < sb.ninodes
      modifies this`disk, this`inodes, this`owner, this`calls
      ensures old(Covered()) ==> Covered()
      ensures r.None? ==> bn >= MAXFILE || Full(V())
      ensures r.None? <==> bn >= MAXFILE || |Free(old(V()))| < Missing(old(V()), i, bn)
      ensures r.Some? ==> V().Ok() && |Free(V())| == |Free(old(V()))| - Missing(old(V()), i, bn)
      ensures r.Some? ==> bn < MAXFILE && Mapping(old(V()), V(), owner, i, bn, r.value)
      ensures bn < MAXFILE && Addr(old(V()), i, bn) != 0 ==> r.Some? && Same(old(V()), old(owner), old(calls))
      ensures r.Some? ==> Logged() <= old(Logged()) + {r.value, sb.MapBlock(r.value)} + IndirectCost(V(), i)
    {
      FreeCount(V(), owner);
      if bn < NDIRECT {
        r := BmapDirect(i, bn);
      } else if bn - NDIRECT < NINDIRECT {
        r := BmapFar(i, bn);
      } else {
        return None;
      }
      if r.None? { FullCount(V(), owner); } else { FreeCount(V(), owner); }
    }

    /** One round of writei's loop: map block bn, copy the bytes to offset o in it, log it. */
    method WriteSome(i: nat, bn: nat, o: nat, chunk: seq<byte>) returns (r: Option<nat>)
      requires Sound(V(), owner) && i < sb.ninodes && bn < MAXFILE && o + |chunk| <= BSIZE
      modifies this`disk, this`inodes, this`owner, this`calls
      ensures old(Covered()) ==> Covered()
      ensures r.None? ==> Full(V())
      ensures r.None? <==> |Free(old(V()))| < Missing(old(V()), i, bn)
      ensures r.Some? ==> V().Ok() && |Free(V())| == |Free(old(V()))| - Missing(old(V()), i, bn)
      ensures r.Some? ==> Sound(V(), owner) && WroteAt(old(V()), V(), i, bn, o, chunk)
      ensures r.Some? && Addr(old(V()), i, bn) != 0 ==>
        inodes == old(inodes) && Logged() <= old(Logged()) + {r.value}
      ensures r.Some? ==> Logged() <= old(Logged()) + {r.value, sb.MapBlock(r.value)} + IndirectCost(V(), i)
    {
      ghost var v := V();
      r := Bmap(i, bn);
      if r.None? { return; }
      ghost var u := V();
      var a := r.value;
      assert a < sb.size by { assert Slot(u, i, DataSlot(bn)); }
      var blk := Overlay(disk[a], o, chunk);
      PatchSound(u, owner, i, bn, a, blk);
      Patched(v, u, owner, i, bn, o, chunk, a);
      LogWrite(a, blk);
      FreeCount(u, owner);
      FreeCount(V(), owner);
    }
  }

  /** The bytes of `chunk` are at offset o of block bn of inode i; every other mapped byte is as before. */
  ghost predicate WroteAt(v: Vol, w: Vol, i: nat, bn: nat, o: nat, chunk: seq<byte>)
    requires bn < MAXFILE && o + |chunk| <= BSIZE
  {
    && SizesKept(v, w, i) && AddrsKept(v, w, i, bn) && IndirectKept(v, w, i) && IndirectAfter(v, w, i, bn)
    && i < w.sb.ninodes && Addr(w, i, bn) != 0
    && (Addr(v, i, bn) != 0 ==> Addr(w, i, bn) == Addr(v, i, bn))
    && (forall k :: o <= k < o + |chunk| ==> Cell(w, i, bn, k) == chunk[k - o])
    && (forall j: nat, m: nat, k: nat :: j < v.sb.ninodes && m < MAXFILE && k < BSIZE && Addr(v, j, m) != 0 ==>
          (j == i && m == bn && o <= k < o + |chunk|) || Cell(w, j, m, k) == Cell(v, j, m, k))
  }

  lemma PatchSound(u: Vol, owner: Owner, i: nat, bn: nat, a: nat, blk: Block)
    requires Sound(u, owner) && i < u.sb.ninodes && bn < MAXFILE && a != 0 && Addr(u, i, bn) == a
    ensures a < u.sb.size && a in owner && owner[a] == (i, DataSlot(bn))
    ensures var w := Vol(u.sb, u.disk[a := blk], u.inodes); SameRefs(u, w) && Sound(w, owner)
  {
    assert Slot(u, i, DataSlot(bn)) && Ref(u, i, DataSlot(bn)) == a;
    DataWriteAccounts(u, owner, a, blk);
  }

  /** Rewriting part of one file block, at the level of file bytes. */
  lemma Patched(v: Vol, u: Vol, owner: Owner, i: nat, bn: nat, o: nat, chunk: seq<byte>, a: nat)
    requires bn < MAXFILE && o + |chunk| <= BSIZE
    requires Mapping(v, u, owner, i, bn, a) && a < u.sb.size
    requires Addr(v, i, bn) != 0 ==> u == v
    ensures WroteAt(v, Vol(u.sb, u.disk[a := Overlay(u.disk[a], o, chunk)], u.inodes), i, bn, o, chunk)
  {
    var w := Vol(u.sb, u.disk[a := Overlay(u.disk[a], o, chunk)], u.inodes);
    PatchSound(u, owner, i, bn, a, Overlay(u.disk[a], o, chunk));
    forall j: nat, m: nat | j < v.sb.ninodes && m < MAXFILE ensures Addr(w, j, m) == Addr(u, j, m) {
      assert Slot(u, j, DataSlot(m));
    }
    forall j: nat, m: nat, k: nat | j < v.sb.ninodes && m < MAXFILE && k < BSIZE && Addr(v, j, m) != 0
      ensures (j == i && m == bn && o <= k < o + |chunk|) || Cell(w, j, m, k) == Cell(v, j, m, k)
    {
      if (j, m) != (i, bn) { UnpatchedBlock(v, u, owner, i, bn, a, j, m); }
    }
  }

  /** Another file block is another disk block. */
  lemma UnpatchedBlock(v: Vol, u: Vol, owner: Owner, i: nat, bn: nat, a: nat, j: nat, m: nat)
    requires Mapping(v, u, owner, i, bn, a)
    requires j < v.sb.ninodes && m < MAXFILE && (j, m) != (i, bn) && Addr(v, j, m) != 0
    ensures var c := Addr(v, j, m); Addr(u, j, m) == c && c != a && c < u.sb.size && u.disk[c] == v.disk[c]
  {
    var c := Addr(v, j, m);
    assert Slot(u, j, DataSlot(m)) && Slot(u, i, DataSlot(bn));
    assert Ref(u, j, DataSlot(m)) == c && Ref(u, i, DataSlot(bn)) == a;
    if DataSlot(m) == DataSlot(bn) { DataSlotInjective(m, bn); }
  }
}
