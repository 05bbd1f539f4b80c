/** A file system volume as values: who refers to which block, what the free map
    says about it, and the bytes of each file.

    Each inode has NSLOT slots that can name a block: NDIRECT direct ones, the
    indirect pointer, and one per word of the indirect block.  `Ref` reads a slot;
    the free map is sound when a ghost map `owner` inverts it. */
module FsVolume {
  import opened Common
  import opened FsBytes

  const NSLOT: nat := NDIRECT + 1 + NINDIRECT
  const IPB: nat := 8

  datatype Super = Super(size: nat, nblocks: nat, ninodes: nat, inodestart: nat, bmapstart: nat) {
    /** Number of metadata blocks: boot, super, log, inodes, free map. */
    function DataStart(): (r: int) { size - nblocks }

    function InodeBlock(i: nat): (r: nat) { i / 8 + inodestart }

    function MapBlock(b: nat): (r: nat) { b / 4096 + bmapstart }

    /** The layout mkfs builds: inode blocks, then the free map, then data. */
    predicate Ok() {
      && size < 0x1_0000_0000 && 0 < DataStart() <= size
      && (forall i: nat :: i < ninodes ==> InodeBlock(i) < bmapstart)
      && (forall b: nat :: b < size ==> MapBlock(b) < DataStart())
    }
  }

  type Addrs = a: seq<nat> | |a| == NDIRECT + 1 witness seq(NDIRECT + 1, i => 0)

  datatype Inode = Inode(size: nat, addrs: Addrs)

  datatype Vol = Vol(sb: Super, disk: seq<Block>, inodes: seq<Inode>) {
    predicate Ok() { sb.Ok() && |disk| == sb.size && |inodes| == sb.ninodes }
  }

  /** The free map's bit for block b. */
  predicate InUse(v: Vol, b: nat)
    requires v.Ok() && b < v.sb.size
  {
    MapBit(v.disk[v.sb.MapBlock(b)], b % 4096)
  }

  /** The block number in slot s of inode i; 0 for none. */
  function Ref(v: Vol, i: nat, s: nat): (b: nat)
    requires v.Ok() && i < v.sb.ninodes && s < NSLOT
  {
    var a := v.inodes[i].addrs;
    if s <= NDIRECT then a[s]
    else if a[NDIRECT] == 0 || a[NDIRECT] >= v.sb.size then 0
    else Word(v.disk[a[NDIRECT]], s - NDIRECT - 1)
  }

  /** The slot of a file's bn-th block. */
  function DataSlot(bn: nat): (s: nat)
    requires bn < MAXFILE
    ensures s < NSLOT && s != NDIRECT
  {
    if bn < NDIRECT then bn else bn + 1
  }

  function Addr(v: Vol, i: nat, bn: nat): (b: nat)
    requires v.Ok() && i < v.sb.ninodes && bn < MAXFILE
  {
    Ref(v, i, DataSlot(bn))
  }

  predicate Slot(v: Vol, i: int, s: int) { 0 <= i < v.sb.ninodes && 0 <= s < NSLOT }

  predicate DataBlock(v: Vol, b: int) { v.sb.DataStart() <= b < v.sb.size }

  type Owner = map<nat, (nat, nat)>

  /** Slots and `owner` are inverse to each other. */
  ghost predicate Inverse(v: Vol, owner: Owner)
    requires v.Ok()
  {
    && (forall i: nat, s: nat :: Slot(v, i, s) && Ref(v, i, s) != 0 ==>
          Ref(v, i, s) in owner && owner[Ref(v, i, s)] == (i, s))
    && (forall b :: b in owner ==>
          DataBlock(v, b) && Slot(v, owner[b].0, owner[b].1) && Ref(v, owner[b].0, owner[b].1) == b)
  }

  /** The free map marks metadata, owned blocks and `fresh` ones (allocated, not yet stored in a slot),
      except those in `freed` (already freed, their slot not yet cleared). */
  ghost predicate Accounts(v: Vol, owner: Owner, fresh_: set<nat>, freed: set<nat>) {
    && v.Ok() && Inverse(v, owner)
    && fresh_ !! owner.Keys && freed <= owner.Keys
    && (forall b :: b in fresh_ ==> DataBlock(v, b))
    && (forall b: nat {:trigger InUse(v, b)} :: b < v.sb.size ==>
          (InUse(v, b) <==> b !in freed && (b < v.sb.DataStart() || b in owner || b in fresh_)))
  }

  /** Between operations: a bit is set exactly for metadata and blocks that a slot refers to. */
  ghost predicate Sound(v: Vol, owner: Owner) { Accounts(v, owner, {}, {}) }

  /** What soundness says without the ghost map: in use means metadata or referred to by exactly one
      slot; so no block is shared, leaked, or free while in use. */
  lemma SoundMeansExactlyOne(v: Vol, owner: Owner, b: nat)
    requires Sound(v, owner) && b < v.sb.size
    ensures InUse(v, b) <==> b < v.sb.DataStart() || exists i: nat, s: nat :: Slot(v, i, s) && Ref(v, i, s) == b && b != 0
    ensures forall i: nat, s: nat, j: nat, t: nat ::
              Slot(v, i, s) && Slot(v, j, t) && Ref(v, i, s) == b && Ref(v, j, t) == b && b != 0 ==> i == j && s == t
    ensures forall i: nat, s: nat :: Slot(v, i, s) && Ref(v, i, s) != 0 ==> DataBlock(v, Ref(v, i, s))
  {
    if b in owner {
      assert Slot(v, owner[b].0, owner[b].1) && Ref(v, owner[b].0, owner[b].1) == b;
    }
  }

  /** The blocks that balloc can still hand out. */
  ghost function Free(v: Vol): (r: set<nat>)
    requires v.Ok()
  {
    set b: nat | b < v.sb.size && !InUse(v, b)
  }

  /** Free blocks and owned ones are all the data blocks there are. */
  lemma FreeCount(v: Vol, owner: Owner)
    requires Sound(v, owner)
    ensures |Free(v)| + |owner| == v.sb.nblocks
  {
    var all := Range(v.sb.DataStart(), v.sb.size);
    RangeSize(v.sb.DataStart(), v.sb.size);
    assert Free(v) !! owner.Keys;
    forall b ensures b in all <==> b in Free(v) + owner.Keys {
      if b in all { assert Lies(b, v.sb.DataStart(), v.sb.size) && (InUse(v, b) <==> b in owner); }
      if b in owner { assert DataBlock(v, b) && Lies(b, v.sb.DataStart(), v.sb.size); }
      if b in Free(v) { assert Lies(b, v.sb.DataStart(), v.sb.size); }
    }
    assert all == Free(v) + owner.Keys;
  }

  // ---- single changes to a volume ----

  /** Every slot reads the same in both volumes. */
  ghost predicate SameRefs(v: Vol, w: Vol) {
    && v.Ok() && w.Ok() && v.sb == w.sb
    && forall i: nat, s: nat :: Slot(v, i, s) ==> Ref(w, i, s) == Ref(v, i, s)
  }

  /** Writing a block that is nobody's indirect block changes no slot. */
  lemma WriteKeepsRefs(v: Vol, owner: Owner, b: nat, blk: Block)
    requires v.Ok() && Inverse(v, owner) && b < v.sb.size
    requires b in owner ==> owner[b].1 != NDIRECT
    ensures SameRefs(v, Vol(v.sb, v.disk[b := blk], v.inodes))
  {
    var w := Vol(v.sb, v.disk[b := blk], v.inodes);
    forall i: nat, s: nat | Slot(v, i, s) ensures Ref(w, i, s) == Ref(v, i, s) {
      if v.inodes[i].addrs[NDIRECT] == b { assert Ref(v, i, NDIRECT) == b; }
    }
  }

  /** balloc's effect: mark block b and zero it. */
  function Allocated(v: Vol, b: nat): (w: Vol)
    requires v.Ok() && b < v.sb.size && !InUse(v, b)
    ensures w.Ok()
  {
    Vol(v.sb, v.disk[v.sb.MapBlock(b) := WithBit(v.disk[v.sb.MapBlock(b)], b % 4096)][b := Zeros()], v.inodes)
  }

  /** bfree's effect: unmark block b. */
  function Unmarked(v: Vol, b: nat): (w: Vol)
    requires v.Ok() && b < v.sb.size && InUse(v, b)
    ensures w.Ok()
  {
    Vol(v.sb, v.disk[v.sb.MapBlock(b) := WithoutBit(v.disk[v.sb.MapBlock(b)], b % 4096)], v.inodes)
  }

  /** Two block numbers with the same map block differ in their bit. */
  lemma MapPlaces(sb: Super, b: nat, c: nat)
    requires b != c && sb.MapBlock(b) == sb.MapBlock(c)
    ensures b % 4096 != c % 4096
  {
  }

  lemma AllocateBits(v: Vol, b: nat)
    requires v.Ok() && b < v.sb.size && !InUse(v, b) && DataBlock(v, b)
    ensures InUse(Allocated(v, b), b)
    ensures forall c: nat :: c < v.sb.size && c != b ==> InUse(Allocated(v, b), c) == InUse(v, c)
  {
    forall c: nat | c < v.sb.size && c != b ensures InUse(Allocated(v, b), c) == InUse(v, c) {
      if v.sb.MapBlock(b) == v.sb.MapBlock(c) { MapPlaces(v.sb, b, c); }
    }
  }

  lemma UnmarkBits(v: Vol, b: nat)
    requires v.Ok() && b < v.sb.size && InUse(v, b)
    ensures !InUse(Unmarked(v, b), b)
    ensures forall c: nat :: c < v.sb.size && c != b ==> InUse(Unmarked(v, b), c) == InUse(v, c)
  {
    forall c: nat | c < v.sb.size && c != b ensures InUse(Unmarked(v, b), c) == InUse(v, c) {
      if v.sb.MapBlock(b) == v.sb.MapBlock(c) { MapPlaces(v.sb, b, c); }
    }
  }

  /** Slots that read the same have the same inverse. */
  lemma SameRefsInverse(v: Vol, w: Vol, owner: Owner)
    requires SameRefs(v, w) && Inverse(v, owner)
    ensures Inverse(w, owner)
  {
  }

  /** Allocation hands out a block nobody refers to. */
  lemma AllocateAccounts(v: Vol, owner: Owner, fresh_: set<nat>, b: nat)
    requires Accounts(v, owner, fresh_, {}) && b < v.sb.size && !InUse(v, b)
    ensures DataBlock(v, b) && b !in owner && b !in fresh_
    ensures SameRefs(v, Allocated(v, b))
    ensures Accounts(Allocated(v, b), owner, fresh_ + {b}, {})
  {
    var m := v.sb.MapBlock(b);
    var mid := Vol(v.sb, v.disk[m := WithBit(v.disk[m], b % 4096)], v.inodes);
    WriteKeepsRefs(v, owner, m, WithBit(v.disk[m], b % 4096));
    SameRefsInverse(v, mid, owner);
    WriteKeepsRefs(mid, owner, b, Zeros());
    AllocateBits(v, b);
    SameRefsInverse(v, Allocated(v, b), owner);
  }

  lemma UnmarkAccounts(v: Vol, owner: Owner, freed: set<nat>, b: nat)
    requires Accounts(v, owner, {}, freed) && b in owner && b !in freed
    ensures InUse(v, b) && SameRefs(v, Unmarked(v, b)) && Accounts(Unmarked(v, b), owner, {}, freed + {b})
  {
    assert InUse(v, b);
    var m := v.sb.MapBlock(b);
    WriteKeepsRefs(v, owner, m, WithoutBit(v.disk[m], b % 4096));
    UnmarkBits(v, b);
    SameRefsInverse(v, Unmarked(v, b), owner);
  }

  /** Writing a file's data block touches no slot and no bit. */
  lemma DataWriteAccounts(v: Vol, owner: Owner, b: nat, blk: Block)
    requires Accounts(v, owner, {}, {}) && b in owner && owner[b].1 != NDIRECT
    ensures var w := Vol(v.sb, v.disk[b := blk], v.inodes); SameRefs(v, w) && Accounts(w, owner, {}, {})
  {
    var w := Vol(v.sb, v.disk[b := blk], v.inodes);
    WriteKeepsRefs(v, owner, b, blk);
    SameRefsInverse(v, w, owner);
    forall c: nat | c < v.sb.size ensures InUse(w, c) == InUse(v, c) {
      assert v.sb.MapBlock(c) < v.sb.DataStart();
    }
  }

  function WithAddr(v: Vol, i: nat, s: nat, b: nat): (w: Vol)
    requires v.Ok() && i < v.sb.ninodes && s <= NDIRECT
    ensures w.Ok()
  {
    Vol(v.sb, v.disk, v.inodes[i := Inode(v.inodes[i].size, v.inodes[i].addrs[s := b])])
  }

  /** Storing a fresh block in an empty direct slot, or a zeroed one in the empty indirect pointer. */
  lemma StoreAddr(v: Vol, owner: Owner, i: nat, s: nat, b: nat)
    requires Accounts(v, owner, {b}, {}) && i < v.sb.ninodes && s <= NDIRECT && Ref(v, i, s) == 0
    requires s == NDIRECT ==> v.disk[b] == Zeros()
    ensures var w := WithAddr(v, i, s, b);
            && Sound(w, owner[b := (i, s)])
            && forall j: nat, t: nat :: Slot(v, j, t) && (j, t) != (i, s) ==> Ref(w, j, t) == Ref(v, j, t)
  {
    ZeroWords();
    var w := WithAddr(v, i, s, b);
    forall j: nat, t: nat | Slot(v, j, t) && (j, t) != (i, s) ensures Ref(w, j, t) == Ref(v, j, t) {
    }
    assert forall c: nat :: c < v.sb.size ==> InUse(w, c) == InUse(v, c);
    OneMoreRef(v, w, owner, i, s, b);
  }

  function WithEntry(v: Vol, i: nat, j: nat, b: nat): (w: Vol)
    requires v.Ok() && i < v.sb.ninodes && j < NINDIRECT && b < v.sb.size
    requires v.inodes[i].addrs[NDIRECT] < v.sb.size
    ensures w.Ok()
  {
    Vol(v.sb, v.disk[v.inodes[i].addrs[NDIRECT] := WithWord(v.disk[v.inodes[i].addrs[NDIRECT]], j, b)], v.inodes)
  }

  /** Writing one word of an indirect block changes that slot only. */
  lemma EntryRefs(v: Vol, owner: Owner, i: nat, j: nat, b: nat)
    requires v.Ok() && Inverse(v, owner) && i < v.sb.ninodes && j < NINDIRECT && b < v.sb.size
    requires v.inodes[i].addrs[NDIRECT] != 0
    ensures v.inodes[i].addrs[NDIRECT] < v.sb.size && Ref(WithEntry(v, i, j, b), i, NDIRECT + 1 + j) == b
    ensures forall k: nat, t: nat :: Slot(v, k, t) && (k, t) != (i, NDIRECT + 1 + j) ==>
              Ref(WithEntry(v, i, j, b), k, t) == Ref(v, k, t)
  {
    var ind := v.inodes[i].addrs[NDIRECT];
    assert Ref(v, i, NDIRECT) == ind;
    var w := WithEntry(v, i, j, b);
    forall k: nat, t: nat | Slot(v, k, t) && (k, t) != (i, NDIRECT + 1 + j) ensures Ref(w, k, t) == Ref(v, k, t) {
      if v.inodes[k].addrs[NDIRECT] == ind { assert Ref(v, k, NDIRECT) == ind; }
    }
  }

  /** Storing a fresh block in an empty word of the indirect block. */
  lemma StoreEntry(v: Vol, owner: Owner, i: nat, j: nat, b: nat)
    requires Accounts(v, owner, {b}, {}) && i < v.sb.ninodes && j < NINDIRECT
    requires v.inodes[i].addrs[NDIRECT] != 0 && Ref(v, i, NDIRECT + 1 + j) == 0
    ensures v.inodes[i].addrs[NDIRECT] < v.sb.size
    ensures Sound(WithEntry(v, i, j, b), owner[b := (i, NDIRECT + 1 + j)])
  {
    EntryRefs(v, owner, i, j, b);
    var w := WithEntry(v, i, j, b);
    assert Ref(v, i, NDIRECT) == v.inodes[i].addrs[NDIRECT];
    forall c: nat | c < v.sb.size ensures InUse(w, c) == InUse(v, c) {
      assert v.sb.MapBlock(c) < v.sb.DataStart();
    }
    OneMoreRef(v, w, owner, i, NDIRECT + 1 + j, b);
  }

  /** Filling one empty slot with an unowned block extends the inverse. */
  lemma OneMoreRef(v: Vol, w: Vol, owner: Owner, i: nat, s: nat, b: nat)
    requires v.Ok() && w.Ok() && w.sb == v.sb && Inverse(v, owner) && Slot(v, i, s)
    requires DataBlock(v, b) && b !in owner && Ref(v, i, s) == 0 && Ref(w, i, s) == b
    requires forall k: nat, t: nat :: Slot(v, k, t) && (k, t) != (i, s) ==> Ref(w, k, t) == Ref(v, k, t)
    ensures Inverse(w, owner[b := (i, s)])
  {
  }

  // ---- file contents ----

  /** Every block below byte n of the file is mapped. */
  ghost predicate MappedTo(v: Vol, i: nat, n: nat)
    requires v.Ok() && i < v.sb.ninodes
  {
    n <= MAXFILE * 512 && forall bn: nat :: bn < MAXFILE && bn * 512 < n ==> Addr(v, i, bn) != 0
  }

  /** Byte o of the bn-th block of inode i. */
  function Cell(v: Vol, i: nat, bn: nat, o: nat): (x: byte)
    requires v.Ok() && i < v.sb.ninodes && bn < MAXFILE && o < BSIZE
  {
    var a := Addr(v, i, bn);
    if a < v.sb.size then v.disk[a][o] else 0
  }

  /** The bytes of a file: position p is byte p % BSIZE of block p / BSIZE. */
  ghost function Content(v: Vol, i: nat): (r: seq<byte>)
    requires v.Ok() && i < v.sb.ninodes
    ensures |r| == v.inodes[i].size
  {
    seq(v.inodes[i].size, p requires 0 <= p < v.inodes[i].size =>
      if p < MAXFILE * 512 then Cell(v, i, p / 512, p % 512) else 0)
  }

  /** The state between operations: sound free map, and every file mapped to its size. */
  ghost predicate Good(v: Vol, owner: Owner) {
    Sound(v, owner) && forall i: nat :: i < v.sb.ninodes ==> MappedTo(v, i, v.inodes[i].size)
  }

  /** No slot of a file block other than (i, bn) changed. */
  ghost predicate AddrsKept(v: Vol, w: Vol, i: nat, bn: nat) {
    && v.Ok() && w.Ok() && v.sb == w.sb
    && forall j: nat, m: nat :: j < v.sb.ninodes && m < MAXFILE && (j, m) != (i, bn) ==> Addr(w, j, m) == Addr(v, j, m)
  }

  /** No mapped file block changed contents. */
  ghost predicate DataKept(v: Vol, w: Vol) {
    && v.Ok() && w.Ok() && v.sb == w.sb
    && forall j: nat, m: nat :: j < v.sb.ninodes && m < MAXFILE && 0 < Addr(v, j, m) < v.sb.size ==>
         w.disk[Addr(v, j, m)] == v.disk[Addr(v, j, m)]
  }

  /** Inodes other than i are the same, and i keeps its size. */
  ghost predicate SizesKept(v: Vol, w: Vol, i: nat) {
    && |v.inodes| == |w.inodes| && i < |v.inodes|
    && w.inodes[i].size == v.inodes[i].size
    && forall j :: 0 <= j < |v.inodes| && j != i ==> w.inodes[j] == v.inodes[j]
  }

  /** Allocation leaves every mapped block's contents alone. */
  lemma AllocateData(v: Vol, owner: Owner, b: nat)
    requires Sound(v, owner) && b < v.sb.size && !InUse(v, b)
    ensures DataKept(v, Allocated(v, b))
  {
    forall j: nat, m: nat | j < v.sb.ninodes && m < MAXFILE && 0 < Addr(v, j, m) < v.sb.size
      ensures Allocated(v, b).disk[Addr(v, j, m)] == v.disk[Addr(v, j, m)]
    {
      assert Slot(v, j, DataSlot(m));
      assert v.sb.MapBlock(b) < v.sb.DataStart();
    }
  }

  /** Slots of file blocks are one-to-one with block numbers. */
  lemma DataSlotInjective(m: nat, n: nat)
    requires m < MAXFILE && n < MAXFILE && DataSlot(m) == DataSlot(n)
    ensures m == n
  {
  }
}
