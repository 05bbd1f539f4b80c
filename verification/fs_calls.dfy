/** The remaining calls of the file layer: readi, itrunc and filewrite. */
module FsCalls {
  import opened Common
  import opened FsBytes
  import opened FsVolume
  import opened FsCode
  import opened FsFiles

  // ---- readi ----

  /** Byte x of block bn of a file is byte 512 * bn + x of its contents. */
  lemma ContentAt(v: Vol, i: nat, bn: nat, x: nat)
    requires v.Ok() && i < v.sb.ninodes && bn < MAXFILE && x < 512 && 512 * bn + x < v.inodes[i].size
    ensures Content(v, i)[512 * bn + x] == Cell(v, i, bn, x)
  {
    var p := 512 * bn + x;
    assert p / 512 == bn && p % 512 == x;
  }

  /** A run of bytes inside one block is a run of the file. */
  lemma BlockSlice(v: Vol, owner: Owner, i: nat, at: nat, bn: nat, o: nat, m: nat)
    requires Good(v, owner) && i < v.sb.ninodes && at == 512 * bn + o && o + m <= 512
    requires 0 < m && at + m <= v.inodes[i].size
    ensures bn < MAXFILE && 0 < Addr(v, i, bn) < v.sb.size
    ensures v.disk[Addr(v, i, bn)][o..o + m] == Content(v, i)[at..at + m]
  {
    assert MappedTo(v, i, v.inodes[i].size);
    assert Addr(v, i, bn) != 0 && Slot(v, i, DataSlot(bn));
    var a, c := v.disk[Addr(v, i, bn)][o..o + m], Content(v, i)[at..at + m];
    forall k | 0 <= k < m ensures a[k] == c[k] { ContentAt(v, i, bn, o + k); }
  }

  /** Where a position falls, and how far to the next block boundary. */
  lemma Split(at: nat, left: nat)
    requires 0 < left
    ensures var bn, o := at / 512, at % 512; var m := Min(left, 512 - o);
            at == 512 * bn + o && 0 < m && o + m <= 512 && m <= left
  {
  }

  /** bmap of a mapped block changes nothing, and the block holds the file's bytes. */
  method ReadBlock(fs: Fs, i: nat, at: nat, bn: nat, o: nat, m: nat) returns (chunk: seq<byte>)
    requires fs.Valid() && i < fs.sb.ninodes && at == 512 * bn + o && o + m <= 512 && 0 < m && at + m <= fs.inodes[i].size
    modifies fs
    ensures fs.Same(old(fs.V()), old(fs.owner), old(fs.calls)) && fs.dinodes == old(fs.dinodes)
    ensures |chunk| == m && chunk == Content(fs.V(), i)[at..at + m]
  {
    BlockSlice(fs.V(), fs.owner, i, at, bn, o, m);
    var a := fs.Bmap(i, bn);
    chunk := fs.disk[a.value][o..o + m];
  }

  /** One round of readi's loop: the bytes up to the next block boundary. */
  method ReadSome(fs: Fs, i: nat, at: nat, left: nat) returns (chunk: seq<byte>)
    requires fs.Valid() && i < fs.sb.ninodes && 0 < left && at + left <= fs.inodes[i].size
    modifies fs
    ensures fs.Same(old(fs.V()), old(fs.owner), old(fs.calls)) && fs.dinodes == old(fs.dinodes)
    ensures 0 < |chunk| <= left && chunk == Content(fs.V(), i)[at..at + |chunk|]
  {
    Split(at, left);
    var bn, o := at / 512, at % 512;
    var m := Min(left, 512 - o);
    chunk := ReadBlock(fs, i, at, bn, o, m);
  }

  /** readi's loop. */
  method CopyOut(fs: Fs, i: nat, off: nat, n: nat) returns (dst: seq<byte>)
    requires fs.Valid() && i < fs.sb.ninodes && off + n <= fs.inodes[i].size
    modifies fs
    ensures fs.Same(old(fs.V()), old(fs.owner), old(fs.calls)) && fs.dinodes == old(fs.dinodes)
    ensures dst == Content(fs.V(), i)[off..off + n]
  {
    ghost var v, own, l := fs.V(), fs.owner, fs.calls;
    ghost var c := Content(v, i);
    dst := [];
    var tot := 0;
    while tot < n
      invariant 0 <= tot <= n && fs.Same(v, own, l) && fs.dinodes == old(fs.dinodes)
      invariant dst == c[off..off + tot]
    {
      var chunk := ReadSome(fs, i, off + tot, n - tot);
      dst := dst + chunk;
      assert c[off..off + tot + |chunk|] == c[off..off + tot] + c[off + tot..off + tot + |chunk|];
      tot := tot + |chunk|;
    }
  }

  /** readi: refused outside its bounds, otherwise exactly the bytes asked for, clipped to the file's
      size; nothing is allocated or changed. */
  method Readi(fs: Fs, i: nat, off: nat, n: nat) returns (r: Outcome, dst: seq<byte>)
    requires fs.Valid() && i < fs.sb.ninodes && off < 0x1_0000_0000 && n < 0x1_0000_0000
    modifies fs
    ensures fs.Same(old(fs.V()), old(fs.owner), old(fs.calls)) && fs.dinodes == old(fs.dinodes)
    ensures r.Refused? <==> off > fs.inodes[i].size || off + n >= 0x1_0000_0000
    ensures !r.Refused? ==>
      r == Moved(Min(n, fs.inodes[i].size - off)) && dst == Content(fs.V(), i)[off..off + r.n]
  {
    assert Add32(off, n) < off <==> off + n >= 0x1_0000_0000;
    if off > fs.inodes[i].size || Add32(off, n) < off { return Refused, []; }
    var n' := if Add32(off, n) > fs.inodes[i].size then fs.inodes[i].size - off else n;
    dst := CopyOut(fs, i, off, n');
    return Moved(n'), dst;
  }

  // ---- itrunc ----

  /** The owner map without inode i. */
  ghost function Without(owner: Owner, i: nat): (r: Owner) { map b | b in owner && owner[b].0 != i :: owner[b] }

  ghost function WithoutBlock(owner: Owner, b: nat): (r: Owner) { map c | c in owner && c != b :: owner[c] }

  /** Data blocks are as they were, and so are the other inodes. */
  ghost predicate OthersUntouched(v: Vol, w: Vol, i: nat) {
    && v.Ok() && w.Ok() && v.sb == w.sb
    && (forall b :: v.sb.DataStart() <= b < v.sb.size ==> w.disk[b] == v.disk[b])
    && (forall j :: 0 <= j < v.sb.ninodes && j != i ==> w.inodes[j] == v.inodes[j])
  }

  lemma UnmarkTouches(v: Vol, w: Vol, i: nat, b: nat)
    requires OthersUntouched(v, w, i) && b < v.sb.size && InUse(w, b)
    ensures OthersUntouched(v, Unmarked(w, b), i)
  {
    assert v.sb.MapBlock(b) < v.sb.DataStart();
  }

  /** Emptying one slot shrinks the inverse. */
  lemma OneLessRef(v: Vol, w: Vol, owner: Owner, i: nat, s: nat, b: nat)
    requires v.Ok() && w.Ok() && w.sb == v.sb && Inverse(v, owner) && Slot(v, i, s)
    requires Ref(v, i, s) == b != 0 && Ref(w, i, s) == 0
    requires forall k: nat, t: nat :: Slot(v, k, t) && (k, t) != (i, s) ==> Ref(w, k, t) == Ref(v, k, t)
    ensures Inverse(w, WithoutBlock(owner, b))
  {
    var own := WithoutBlock(owner, b);
    forall j: nat, t: nat | Slot(w, j, t) && Ref(w, j, t) != 0 ensures Ref(w, j, t) in own && own[Ref(w, j, t)] == (j, t) {
      assert Ref(w, j, t) == Ref(v, j, t);
    }
    forall c | c in own ensures Slot(w, own[c].0, own[c].1) && Ref(w, own[c].0, own[c].1) == c {
      assert Ref(v, owner[c].0, owner[c].1) == c;
    }
  }

  /** Clearing a direct slot whose block was freed. */
  lemma DropDirect(v: Vol, owner: Owner, i: nat, s: nat, b: nat)
    requires Accounts(v, owner, {}, {b}) && i < v.sb.ninodes && s < NDIRECT && Ref(v, i, s) == b != 0
    ensures Sound(WithAddr(v, i, s, 0), WithoutBlock(owner, b))
    ensures forall t: nat :: t < NSLOT && t != s ==> Ref(WithAddr(v, i, s, 0), i, t) == Ref(v, i, t)
    ensures Without(WithoutBlock(owner, b), i) == Without(owner, i)
  {
    var w := WithAddr(v, i, s, 0);
    assert Slot(v, i, s) && owner[b] == (i, s);
    forall j: nat, t: nat | Slot(v, j, t) && (j, t) != (i, s) ensures Ref(w, j, t) == Ref(v, j, t) {}
    OneLessRef(v, w, owner, i, s, b);
    forall c: nat | c < v.sb.size ensures InUse(w, c) == InUse(v, c) {}
  }

  /** Blocks of inode i in slots lo..hi. */
  ghost function SlotBlocks(owner: Owner, i: nat, lo: nat, hi: nat): (r: set<nat>) {
    set b | b in owner && owner[b].0 == i && lo <= owner[b].1 < hi
  }

  /** Clearing the indirect pointer empties all of the inode's far slots. */
  lemma DropFarRefs(v: Vol, owner: Owner, i: nat)
    requires v.Ok() && Inverse(v, owner) && i < v.sb.ninodes
    requires forall s: nat :: s < NDIRECT ==> Ref(v, i, s) == 0
    ensures Inverse(WithAddr(v, i, NDIRECT, 0), Without(owner, i))
    ensures forall s: nat :: s < NSLOT ==> Ref(WithAddr(v, i, NDIRECT, 0), i, s) == 0
  {
    var w, own := WithAddr(v, i, NDIRECT, 0), Without(owner, i);
    forall j: nat, t: nat | Slot(v, j, t) && j != i ensures Ref(w, j, t) == Ref(v, j, t) {}
    forall s: nat | s < NSLOT ensures Ref(w, i, s) == 0 { if s < NDIRECT { assert Ref(v, i, s) == 0; } }
    forall j: nat, t: nat | Slot(w, j, t) && Ref(w, j, t) != 0 ensures Ref(w, j, t) in own && own[Ref(w, j, t)] == (j, t) {
      assert j != i && Ref(w, j, t) == Ref(v, j, t);
    }
    forall c | c in own ensures Slot(w, own[c].0, own[c].1) && Ref(w, own[c].0, own[c].1) == c {
      assert Ref(v, owner[c].0, owner[c].1) == c;
    }
  }

  /** Clearing the indirect pointer once the indirect block and all its entries were freed. */
  lemma DropIndirect(v: Vol, owner: Owner, i: nat)
    requires i < v.sb.ninodes && Accounts(v, owner, {}, SlotBlocks(owner, i, NDIRECT, NSLOT))
    requires forall s: nat :: s < NDIRECT ==> Ref(v, i, s) == 0
    ensures Sound(WithAddr(v, i, NDIRECT, 0), Without(owner, i))
    ensures forall s: nat :: s < NSLOT ==> Ref(WithAddr(v, i, NDIRECT, 0), i, s) == 0
  {
    var w, own := WithAddr(v, i, NDIRECT, 0), Without(owner, i);
    DropFarRefs(v, owner, i);
    forall b | b in owner && owner[b].0 == i ensures b in SlotBlocks(owner, i, NDIRECT, NSLOT) {
      assert Ref(v, i, owner[b].1) == b && b != 0;
    }
    forall c: nat | c < v.sb.size ensures InUse(w, c) == InUse(v, c) {}
  }

  lemma SlotBlocksNext(v: Vol, owner: Owner, i: nat, lo: nat, s: nat)
    requires v.Ok() && Inverse(v, owner) && i < v.sb.ninodes && lo <= s < NSLOT
    ensures SlotBlocks(owner, i, lo, s + 1)
            == SlotBlocks(owner, i, lo, s) + if Ref(v, i, s) == 0 then {} else {Ref(v, i, s)}
    ensures Ref(v, i, s) != 0 ==> Ref(v, i, s) in owner && Ref(v, i, s) !in SlotBlocks(owner, i, lo, s)
  {
    assert Slot(v, i, s);
    forall b | b in owner && owner[b] == (i, s) ensures b == Ref(v, i, s) {}
  }

  /** Free one direct block and clear its slot; the block is never free already. */
  method FreeDirect(fs: Fs, i: nat, d: nat, ghost v: Vol) returns (panicked: bool)
    requires Sound(fs.V(), fs.owner) && i < fs.sb.ninodes && d < NDIRECT && fs.inodes[i].addrs[d] != 0
    requires OthersUntouched(v, fs.V(), i)
    modifies fs`disk, fs`inodes, fs`owner, fs`calls
    ensures old(fs.Covered()) ==> fs.Covered()
    ensures !panicked && Sound(fs.V(), fs.owner) && OthersUntouched(v, fs.V(), i)
    ensures Without(fs.owner, i) == Without(old(fs.owner), i) && Ref(fs.V(), i, d) == 0
    ensures forall t: nat :: t < NSLOT && t != d ==> Ref(fs.V(), i, t) == Ref(old(fs.V()), i, t)
  {
    ghost var u := fs.V();
    var b := fs.inodes[i].addrs[d];
    assert Slot(u, i, d) && Ref(u, i, d) == b && b in fs.owner;
    UnmarkAccounts(u, fs.owner, {}, b);
    UnmarkTouches(v, u, i, b);
    assert {} + {b} == {b};
    panicked := fs.Bfree(b);
    DropDirect(fs.V(), fs.owner, i, d, b);
    fs.inodes := fs.inodes[i := Inode(fs.inodes[i].size, fs.inodes[i].addrs[d := 0])];
    fs.owner := WithoutBlock(fs.owner, b);
  }

  /** itrunc, the direct blocks: freed and cleared one by one. */
  method TruncDirect(fs: Fs, i: nat) returns (panicked: bool)
    requires Sound(fs.V(), fs.owner) && i < fs.sb.ninodes
    modifies fs`disk, fs`inodes, fs`owner, fs`calls
    ensures old(fs.Covered()) ==> fs.Covered()
    ensures !panicked && Sound(fs.V(), fs.owner) && OthersUntouched(old(fs.V()), fs.V(), i)
    ensures Without(fs.owner, i) == Without(old(fs.owner), i)
    ensures forall s: nat :: s < NDIRECT ==> Ref(fs.V(), i, s) == 0
  {
    ghost var v := fs.V();
    var d := 0;
    while d < NDIRECT
      invariant 0 <= d <= NDIRECT && Sound(fs.V(), fs.owner) && OthersUntouched(v, fs.V(), i)
      invariant Without(fs.owner, i) == Without(old(fs.owner), i) && (old(fs.Covered()) ==> fs.Covered())
      invariant forall s: nat :: s < d ==> Ref(fs.V(), i, s) == 0
    {
      if fs.inodes[i].addrs[d] != 0 {
        panicked := FreeDirect(fs, i, d, v);
      }
      d := d + 1;
    }
    panicked := false;
  }

  /** Freeing one more entry of the indirect block, which was in use. */
  lemma EntryFreed(u: Vol, owner: Owner, i: nat, j: nat, b: nat)
    requires i < u.sb.ninodes && j < NINDIRECT
    requires Accounts(u, owner, {}, SlotBlocks(owner, i, NDIRECT + 1, NDIRECT + 1 + j))
    requires Ref(u, i, NDIRECT + 1 + j) == b != 0
    ensures b < u.sb.size && InUse(u, b) && SameRefs(u, Unmarked(u, b))
    ensures Accounts(Unmarked(u, b), owner, {}, SlotBlocks(owner, i, NDIRECT + 1, NDIRECT + 1 + j + 1))
  {
    var freed := SlotBlocks(owner, i, NDIRECT + 1, NDIRECT + 1 + j);
    assert b in owner && b !in freed && SlotBlocks(owner, i, NDIRECT + 1, NDIRECT + 1 + j + 1) == freed + {b} by {
      SlotBlocksNext(u, owner, i, NDIRECT + 1, NDIRECT + 1 + j);
    }
    UnmarkAccounts(u, owner, freed, b);
  }

  /** Free entry j of the indirect block; its word stays until the pointer is cleared. */
  method FreeEntry(fs: Fs, i: nat, j: nat, ghost v: Vol) returns (panicked: bool)
    requires OthersUntouched(v, fs.V(), i) && i < fs.sb.ninodes && j < NINDIRECT
    requires fs.inodes[i].addrs[NDIRECT] != 0
    requires Accounts(fs.V(), fs.owner, {}, SlotBlocks(fs.owner, i, NDIRECT + 1, NDIRECT + 1 + j))
    modifies fs`disk, fs`calls
    ensures old(fs.Covered()) ==> fs.Covered()
    ensures !panicked && OthersUntouched(v, fs.V(), i)
    ensures Accounts(fs.V(), fs.owner, {}, SlotBlocks(fs.owner, i, NDIRECT + 1, NDIRECT + 1 + j + 1))
    ensures SameRefs(old(fs.V()), fs.V())
  {
    ghost var u := fs.V();
    var ind := fs.inodes[i].addrs[NDIRECT];
    assert ind < fs.sb.size by { assert Slot(u, i, NDIRECT) && Ref(u, i, NDIRECT) == ind; }
    var b := Word(fs.disk[ind], j);
    assert b == Ref(u, i, NDIRECT + 1 + j);
    panicked := false;
    if b != 0 {
      panicked := FreeListed(fs, i, j, b, v);
    } else {
      SlotBlocksNext(u, fs.owner, i, NDIRECT + 1, NDIRECT + 1 + j);
    }
  }

  /** bfree of a block that entry j lists. */
  method FreeListed(fs: Fs, i: nat, j: nat, b: nat, ghost v: Vol) returns (panicked: bool)
    requires OthersUntouched(v, fs.V(), i) && i < fs.sb.ninodes && j < NINDIRECT && Ref(fs.V(), i, NDIRECT + 1 + j) == b != 0
    requires Accounts(fs.V(), fs.owner, {}, SlotBlocks(fs.owner, i, NDIRECT + 1, NDIRECT + 1 + j))
    modifies fs`disk, fs`calls
    ensures old(fs.Covered()) ==> fs.Covered()
    ensures !panicked && OthersUntouched(v, fs.V(), i)
    ensures Accounts(fs.V(), fs.owner, {}, SlotBlocks(fs.owner, i, NDIRECT + 1, NDIRECT + 1 + j + 1))
    ensures SameRefs(old(fs.V()), fs.V())
  {
    ghost var u := fs.V();
    EntryFreed(u, fs.owner, i, j, b);
    UnmarkTouches(v, u, i, b);
    panicked := fs.Bfree(b);
  }

  /** itrunc, the indirect block: free every entry, then the block itself, then clear the pointer. */
  method TruncIndirect(fs: Fs, i: nat) returns (panicked: bool)
    requires Sound(fs.V(), fs.owner) && i < fs.sb.ninodes && fs.inodes[i].addrs[NDIRECT] != 0
    requires forall s: nat :: s < NDIRECT ==> Ref(fs.V(), i, s) == 0
    modifies fs`disk, fs`inodes, fs`owner, fs`calls
    ensures old(fs.Covered()) ==> fs.Covered()
    ensures !panicked && Sound(fs.V(), fs.owner) && OthersUntouched(old(fs.V()), fs.V(), i)
    ensures fs.owner == Without(old(fs.owner), i)
    ensures forall s: nat :: s < NSLOT ==> Ref(fs.V(), i, s) == 0
  {
    ghost var v := fs.V();
    assert SlotBlocks(fs.owner, i, NDIRECT + 1, NDIRECT + 1) == {};
    var j := 0;
    while j < NINDIRECT
      invariant 0 <= j <= NINDIRECT && fs.owner == old(fs.owner) && fs.inodes == old(fs.inodes)
      invariant Accounts(fs.V(), fs.owner, {}, SlotBlocks(fs.owner, i, NDIRECT + 1, NDIRECT + 1 + j))
      invariant OthersUntouched(v, fs.V(), i) && SameRefs(v, fs.V()) && (old(fs.Covered()) ==> fs.Covered())
    {
      panicked := FreeEntry(fs, i, j, v);
      j := j + 1;
    }
    panicked := FreePointer(fs, i, v);
  }

  /** itrunc's last free: the indirect block, whose entries were all freed. */
  method FreePointer(fs: Fs, i: nat, ghost v: Vol) returns (panicked: bool)
    requires OthersUntouched(v, fs.V(), i) && i < fs.sb.ninodes && fs.inodes[i].addrs[NDIRECT] != 0
    requires Accounts(fs.V(), fs.owner, {}, SlotBlocks(fs.owner, i, NDIRECT + 1, NSLOT))
    requires forall s: nat :: s < NDIRECT ==> Ref(fs.V(), i, s) == 0
    modifies fs`disk, fs`inodes, fs`owner, fs`calls
    ensures old(fs.Covered()) ==> fs.Covered()
    ensures !panicked && Sound(fs.V(), fs.owner) && OthersUntouched(v, fs.V(), i)
    ensures fs.owner == Without(old(fs.owner), i)
    ensures forall s: nat :: s < NSLOT ==> Ref(fs.V(), i, s) == 0
  {
    ghost var u, own := fs.V(), fs.owner;
    var ind := fs.inodes[i].addrs[NDIRECT];
    ghost var freed := SlotBlocks(own, i, NDIRECT + 1, NSLOT);
    assert Slot(u, i, NDIRECT) && Ref(u, i, NDIRECT) == ind && ind in own && own[ind] == (i, NDIRECT);
    UnmarkAccounts(u, own, freed, ind);
    UnmarkTouches(v, u, i, ind);
    panicked := fs.Bfree(ind);
    assert freed + {ind} == SlotBlocks(own, i, NDIRECT, NSLOT) by {
      forall b | b in own && own[b] == (i, NDIRECT) ensures b == ind { assert Ref(u, i, NDIRECT) == b; }
    }
    DropIndirect(fs.V(), own, i);
    fs.inodes := fs.inodes[i := Inode(fs.inodes[i].size, fs.inodes[i].addrs[NDIRECT := 0])];
    fs.owner := Without(own, i);
  }

  /** Data that was not touched reads the same. */
  lemma UntouchedContent(v: Vol, w: Vol, owner: Owner, i: nat, j: nat)
    requires Good(v, owner) && OthersUntouched(v, w, i) && j < v.sb.ninodes && j != i
    ensures Content(w, j) == Content(v, j) && MappedTo(w, j, w.inodes[j].size)
  {
    assert MappedTo(v, j, v.inodes[j].size);
    assert Slot(v, j, NDIRECT) && Ref(v, j, NDIRECT) == v.inodes[j].addrs[NDIRECT];
    forall m: nat | m < MAXFILE ensures Addr(w, j, m) == Addr(v, j, m) {}
    forall p: nat | p < v.inodes[j].size ensures Content(w, j)[p] == Content(v, j)[p] {
      UntouchedCell(v, w, owner, i, j, p);
    }
  }

  lemma UntouchedCell(v: Vol, w: Vol, owner: Owner, i: nat, j: nat, p: nat)
    requires Sound(v, owner) && OthersUntouched(v, w, i) && j < v.sb.ninodes && j != i
    requires MappedTo(v, j, v.inodes[j].size) && p < v.inodes[j].size
    requires Addr(w, j, p / 512) == Addr(v, j, p / 512)
    ensures Cell(w, j, p / 512, p % 512) == Cell(v, j, p / 512, p % 512)
  {
    var m := p / 512;
    assert m * 512 < v.inodes[j].size && m < MAXFILE && Addr(v, j, m) != 0 && Slot(v, j, DataSlot(m));
  }

  /** itrunc's frees. */
  method TruncBlocks(fs: Fs, i: nat) returns (panicked: bool)
    requires Sound(fs.V(), fs.owner) && i < fs.sb.ninodes
    modifies fs`disk, fs`inodes, fs`owner, fs`calls
    ensures old(fs.Covered()) ==> fs.Covered()
    ensures !panicked && Sound(fs.V(), fs.owner) && OthersUntouched(old(fs.V()), fs.V(), i)
    ensures fs.owner == Without(old(fs.owner), i)
    ensures forall s: nat :: s < NSLOT ==> Ref(fs.V(), i, s) == 0
  {
    panicked := TruncDirect(fs, i);
    if fs.inodes[i].addrs[NDIRECT] != 0 {
      panicked := TruncIndirect(fs, i);
    } else {
      NothingLeft(fs.V(), fs.owner, i);
    }
  }

  /** The emptied volume is good again, and every other file reads the same. */
  lemma TruncDone(v: Vol, own: Owner, u: Vol, owner: Owner, w: Vol, i: nat)
    requires Good(v, own) && OthersUntouched(v, u, i) && Sound(u, owner) && i < v.sb.ninodes
    requires w == Vol(u.sb, u.disk, u.inodes[i := Inode(0, u.inodes[i].addrs)])
    ensures Good(w, owner)
    ensures forall j: nat :: j < v.sb.ninodes && j != i ==> w.inodes[j] == v.inodes[j] && Content(w, j) == Content(v, j)
    ensures forall s: nat :: s < NSLOT ==> Ref(w, i, s) == Ref(u, i, s)
  {
    ResizedSound(u, w, owner);
    forall j: nat | j < v.sb.ninodes && j != i
      ensures w.inodes[j] == v.inodes[j] && Content(w, j) == Content(v, j) && MappedTo(w, j, w.inodes[j].size)
    {
      UntouchedContent(v, w, own, i, j);
    }
    assert MappedTo(w, i, 0);
  }

  /** itrunc: every block of the inode is freed exactly once and none of anyone else's; the inode is
      empty, in memory and on disk; "freeing free block" cannot happen. */
  method Itrunc(fs: Fs, i: nat) returns (panicked: bool)
    requires fs.Valid() && i < fs.sb.ninodes
    modifies fs`disk, fs`inodes, fs`dinodes, fs`owner, fs`calls
    ensures old(fs.Covered()) ==> fs.Covered()
    ensures !panicked && fs.Valid() && fs.owner == Without(old(fs.owner), i)
    ensures fs.inodes[i].size == 0 && forall s: nat :: s < NSLOT ==> Ref(fs.V(), i, s) == 0
    ensures forall j: nat :: j < fs.sb.ninodes && j != i ==>
              fs.inodes[j] == old(fs.inodes)[j] && Content(fs.V(), j) == Content(old(fs.V()), j)
  {
    ghost var v, own := fs.V(), fs.owner;
    panicked := TruncBlocks(fs, i);
    ghost var u, owner := fs.V(), fs.owner;
    fs.inodes := fs.inodes[i := Inode(0, fs.inodes[i].addrs)];
    Iupdate(fs, i);
    TruncDone(v, own, u, owner, fs.V(), i);
  }

  /** With no direct block and no indirect block, an inode owns nothing. */
  lemma NothingLeft(v: Vol, owner: Owner, i: nat)
    requires Sound(v, owner) && i < v.sb.ninodes && v.inodes[i].addrs[NDIRECT] == 0
    requires forall s: nat :: s < NDIRECT ==> Ref(v, i, s) == 0
    ensures (forall s: nat :: s < NSLOT ==> Ref(v, i, s) == 0) && Without(owner, i) == owner
  {
    forall s: nat | s < NSLOT ensures Ref(v, i, s) == 0 {}
    forall b | b in owner ensures owner[b].0 != i { assert Ref(v, owner[b].0, owner[b].1) == b && b != 0; }
  }

  // ---- filewrite ----

  /** Two writes in a row are one write of both. */
  lemma SplicedTwice(c: seq<byte>, off: nat, a: seq<byte>, b: seq<byte>)
    requires off <= |c|
    ensures off + |a| <= |Spliced(c, off, a)|
    ensures Spliced(Spliced(c, off, a), off + |a|, b) == Spliced(c, off, a + b)
  {
    var x := Spliced(c, off, a);
    assert x[..off + |a|] == c[..off] + a;
    if off + |a + b| < |c| {
      assert x[off + |a| + |b|..] == c[off + |a + b|..];
    }
  }

  const CHUNK: nat := (MAXOPBLOCKS - 1 - 1 - 2) / 2 * 512

  /** One chunk of filewrite fits in one transaction, whatever its alignment, even if every block it
      maps has its bit in a different block of the free map. */
  lemma ChunkFits(off: nat, n: nat)
    requires n <= CHUNK
    ensures WriteCost(off, n) <= MAXOPBLOCKS
  {
    assert CHUNK == 1536;
    var x := off % 512;
    assert (x + n + 511) / 512 <= if x == 0 then 3 else 4;
  }

  /** The next chunk from byte k on would be refused. */
  ghost predicate Stuck(size: nat, off: nat, n: nat, k: nat)
    requires k <= n
  {
    off + k > size || off + k + Min(n - k, CHUNK) > MAXFILE * 512
  }

  /** A transaction that log.c has reserved for: at most MAXOPBLOCKS different blocks, and fewer than that
      before each log_write. */
  ghost predicate Modest(calls: seq<nat>) { |BlocksOf(calls)| <= MAXOPBLOCKS && EachBelow(calls, {}, MAXOPBLOCKS) }

  lemma ChunkModest(calls: seq<nat>, off: nat, n: nat)
    requires n <= CHUNK && |BlocksOf(calls) - {}| <= WriteCost(off, n) && EachBelow(calls, {}, WriteCost(off, n))
    ensures Modest(calls)
  {
    ChunkFits(off, n);
    assert BlocksOf(calls) - {} == BlocksOf(calls);
  }

  /** One transaction of filewrite: begin_op, writei, end_op.  What it changed it logged. */
  method WriteChunk(fs: Fs, i: nat, src: seq<byte>, off: nat) returns (r: Outcome)
    requires fs.Valid() && i < fs.sb.ninodes && off < 0x1_0000_0000 && |src| <= CHUNK
    modifies fs
    ensures r.Refused? <==> off > old(fs.inodes)[i].size || off + |src| > MAXFILE * 512
    ensures r.Refused? ==> fs.Valid() && fs.V() == old(fs.V())
    ensures r.Panicked? ==> Full(fs.V()) && fs.history == old(fs.history)
    ensures r.Moved? ==> fs.Valid() && Written(old(fs.V()), fs.V(), i, off, src)
    ensures !r.Panicked? ==> fs.history == old(fs.history) + [fs.calls] && Modest(fs.calls)
    ensures fs.base == old(fs.disk) && fs.ibase == old(fs.dinodes) && fs.Covered()
  {
    assert CHUNK < 0x1_0000_0000;
    fs.calls, fs.base, fs.ibase := [], fs.disk, fs.dinodes;
    r := Writei(fs, i, src, off);
    if r.Panicked? { return; }
    ChunkModest(fs.calls, off, if r.Moved? then |src| else 0);
    fs.history := fs.history + [fs.calls];
  }

  /** The first k bytes of src are in the file, or the offset was beyond its end and nothing is. */
  ghost predicate SoFar(v: Vol, u: Vol, i: nat, off: nat, src: seq<byte>, k: nat)
    requires k <= |src|
  {
    && v.Ok() && i < v.sb.ninodes
    && (off <= v.inodes[i].size ==> Written(v, u, i, off, src[..k]))
    && (off > v.inodes[i].size ==> k == 0 && u == v)
  }

  /** filewrite's loop with k bytes done; whether the last writei panicked or was refused. */
  ghost predicate Writing(fs: Fs, v: Vol, i: nat, off: nat, src: seq<byte>, k: nat, panicked: bool, refused: bool)
    requires k <= |src|
    reads fs
  {
    && (panicked ==> Full(fs.V()))
    && (!panicked ==> fs.Valid() && i < |fs.inodes| && SoFar(v, fs.V(), i, off, src, k))
    && (!panicked && refused ==> k < |src| && Stuck(fs.inodes[i].size, off, |src|, k))
  }

  /** Since `before`, n transactions ended, each of them modest. */
  ghost predicate Ended(before: seq<seq<nat>>, after: seq<seq<nat>>, n: nat) {
    before <= after && |after| == |before| + n && forall k :: |before| <= k < |after| ==> Modest(after[k])
  }

  /** One round of filewrite's loop: the next chunk, at most CHUNK bytes from byte k on. */
  method NextChunk(fs: Fs, ghost v: Vol, i: nat, src: seq<byte>, off: nat, k: nat) returns (r: Outcome, n: nat)
    requires k < |src| && off + k < 0x1_0000_0000 && Writing(fs, v, i, off, src, k, false, false)
    modifies fs
    ensures 0 < n <= |src| - k && n == Min(|src| - k, CHUNK)
    ensures r.Moved? ==> Writing(fs, v, i, off, src, k + n, false, false) && off + k + n <= MAXFILE * 512
    ensures !r.Moved? ==> Writing(fs, v, i, off, src, k, r.Panicked?, r.Refused?)
    ensures Ended(old(fs.history), fs.history, if r.Panicked? then 0 else 1)
  {
    n := Min(|src| - k, CHUNK);
    ghost var u := fs.V();
    r := WriteChunk(fs, i, src[k..k + n], off + k);
    if r.Moved? { MoreWritten(v, u, fs.V(), i, off, src, k, n); }
  }

  /** Chunks that n bytes make. */
  function Chunks(n: nat): (r: nat) { (n + 1535) / 1536 }

  /** The loop with k bytes done: `done` transactions since h0. */
  ghost predicate Between(fs: Fs, v: Vol, i: nat, off: nat, src: seq<byte>, k: nat, h0: seq<seq<nat>>, done: nat)
    reads fs
  {
    k <= |src| && (k % 1536 == 0 || k == |src|) && Writing(fs, v, i, off, src, k, false, false) && Ended(h0, fs.history, done)
  }

  /** The loop's end, with k bytes done and outcome r. */
  ghost predicate Stopped(fs: Fs, v: Vol, i: nat, off: nat, src: seq<byte>, k: nat, h0: seq<seq<nat>>, r: Outcome)
    reads fs
  {
    && k <= |src| && Writing(fs, v, i, off, src, k, r.Panicked?, r.Refused?)
    && Ended(h0, fs.history, Chunks(k) + if r.Refused? then 1 else 0)
    && (r.Moved? ==> k == |src| == r.n)
  }

  /** The round, with the transactions counted. */
  method NextRound(fs: Fs, ghost v: Vol, i: nat, src: seq<byte>, off: nat, k: nat, ghost h0: seq<seq<nat>>) returns (r: Outcome, k': nat)
    requires k < |src| && off + k < 0x1_0000_0000 && Between(fs, v, i, off, src, k, h0, Chunks(k))
    modifies fs
    ensures if r.Moved? then k < k' <= |src| else k' == k
    ensures r.Moved? ==> Between(fs, v, i, off, src, k', h0, Chunks(k')) && off + k' < 0x1_0000_0000
    ensures !r.Moved? ==> Stopped(fs, v, i, off, src, k', h0, r)
  {
    ghost var h := fs.history;
    var n;
    r, n := NextChunk(fs, v, i, src, off, k);
    k' := if r.Moved? then k + n else k;
    EndedTwice(h0, h, fs.history, Chunks(k), if r.Panicked? then 0 else 1);
    ChunksNext(k, n, |src|);
  }

  /** filewrite on an inode: chunks in transactions of their own.  off' - off bytes reach the file; all
      of them unless the next chunk would not fit; there is one transaction for each chunk, the refused
      one included, and each is modest; the file offset moves past what was written. */
  method Filewrite(fs: Fs, i: nat, src: seq<byte>, off: nat) returns (r: Outcome, off': nat)
    requires fs.Valid() && i < fs.sb.ninodes && off < 0x1_0000_0000 && |src| < 0x8000_0000
    modifies fs
    ensures off <= off' && Stopped(fs, old(fs.V()), i, off, src, off' - off, old(fs.history), r)
  {
    NothingWritten(fs.V(), i, off, src);
    var k;
    r, k := WriteChunks(fs, fs.V(), i, src, off);
    off' := off + k;
  }

  /** filewrite's loop. */
  method WriteChunks(fs: Fs, ghost v: Vol, i: nat, src: seq<byte>, off: nat) returns (r: Outcome, k: nat)
    requires off < 0x1_0000_0000 && Writing(fs, v, i, off, src, 0, false, false)
    modifies fs
    ensures Stopped(fs, v, i, off, src, k, old(fs.history), r)
  {
    ghost var h0 := fs.history;
    k := 0;
    while k < |src|
      invariant off + k < 0x1_0000_0000 && Between(fs, v, i, off, src, k, h0, Chunks(k))
    {
      r, k := NextRound(fs, v, i, src, off, k, h0);
      if !r.Moved? { return; }
    }
    r := Moved(|src|);
  }

  lemma ChunksNext(k: nat, n: nat, size: nat)
    requires k % 1536 == 0 && k < size && n == Min(size - k, CHUNK)
    ensures Chunks(k + n) == Chunks(k) + 1 && ((k + n) % 1536 == 0 || k + n == size)
  {
    assert CHUNK == 1536;
  }

  lemma EndedTwice(a: seq<seq<nat>>, b: seq<seq<nat>>, c: seq<seq<nat>>, m: nat, n: nat)
    requires Ended(a, b, m) && Ended(b, c, n)
    ensures Ended(a, c, m + n)
  {
    forall k | |a| <= k < |c| ensures Modest(c[k]) { if k < |b| { assert c[k] == b[k]; } }
  }

  lemma MoreWritten(v: Vol, u: Vol, w: Vol, i: nat, off: nat, src: seq<byte>, k: nat, n: nat)
    requires k + n <= |src| && SoFar(v, u, i, off, src, k) && Written(u, w, i, off + k, src[k..k + n])
    requires off + k + n <= MAXFILE * 512 && off + k <= u.inodes[i].size
    ensures SoFar(v, w, i, off, src, k + n)
  {
    if off <= v.inodes[i].size { WrittenTwice(v, u, w, i, off, src, k, n); }
  }

  lemma NothingWritten(v: Vol, i: nat, off: nat, src: seq<byte>)
    requires v.Ok() && i < v.sb.ninodes
    ensures SoFar(v, v, i, off, src, 0)
  {
    if off <= v.inodes[i].size {
      var c := Content(v, i);
      assert src[..0] == [] && Spliced(c, off, []) == c;
    }
  }

  lemma WrittenTwice(v: Vol, u: Vol, w: Vol, i: nat, off: nat, src: seq<byte>, k: nat, n: nat)
    requires k + n <= |src| && Written(v, u, i, off, src[..k]) && Written(u, w, i, off + k, src[k..k + n])
    ensures Written(v, w, i, off, src[..k + n])
  {
    SplicedTwice(Content(v, i), off, src[..k], src[k..k + n]);
    assert src[..k] + src[k..k + n] == src[..k + n];
  }
}
