/** Disk blocks as bytes, and the two ways fs.c looks inside them: the bits of a
    free-map block and the 32-bit little-endian words of an indirect block. */
module FsBytes {

  const BSIZE: nat := 512
  const NDIRECT: nat := 12
  const NINDIRECT: nat := BSIZE / 4
  const MAXFILE: nat := NDIRECT + NINDIRECT
  const BPB: nat := 4096

  type byte = x: int | 0 <= x < 256
  type Block = b: seq<byte> | |b| == BSIZE witness seq(BSIZE, i => 0)

  /** memset(data, 0, BSIZE) */
  function Zeros(): (r: Block)
    ensures forall i :: 0 <= i < BSIZE ==> r[i] == 0
  {
    seq(BSIZE, i => 0)
  }

  /** memmove(data + o, chunk, |chunk|) */
  function Overlay(blk: Block, o: nat, chunk: seq<byte>): (r: Block)
    requires o + |chunk| <= BSIZE
    ensures forall k :: 0 <= k < |chunk| ==> r[o + k] == chunk[k]
    ensures forall k :: 0 <= k < BSIZE && !(o <= k < o + |chunk|) ==> r[k] == blk[k]
  {
    blk[..o] + chunk + blk[o + |chunk|..]
  }

  // ---- bits ----

  /** 1 << k */
  function Mask(k: nat): (m: nat)
    ensures m >= 1
  {
    if k == 0 then 1 else 2 * Mask(k - 1)
  }

  /** (x & (1 << k)) != 0 */
  predicate BitOf(x: nat, k: nat) { if k == 0 then x % 2 == 1 else BitOf(x / 2, k - 1) }

  /** x | (1 << k) and x & ~(1 << k) change bit k by adding or taking away its mask; nothing carries
      into another bit, and the value stays within n bits. */
  lemma {:induction false} FlipBit(x: nat, y: nat, k: nat, n: nat)
    requires k < n && !BitOf(x, k) && y == x + Mask(k)
    ensures BitOf(y, k) && (x < Mask(n) <==> y < Mask(n))
    ensures forall j: nat :: j != k ==> BitOf(y, j) == BitOf(x, j)
  {
    if k > 0 {
      FlipBit(x / 2, y / 2, k - 1, n - 1);
    }
    forall j: nat | j != k ensures BitOf(y, j) == BitOf(x, j) {
      if j > 0 { assert k > 0 && j - 1 != k - 1 ==> BitOf(y / 2, j - 1) == BitOf(x / 2, j - 1); }
    }
  }

  lemma {:induction false} MaskFits(x: nat, k: nat)
    requires BitOf(x, k)
    ensures Mask(k) <= x && !BitOf(x - Mask(k), k)
  {
    if k > 0 { MaskFits(x / 2, k - 1); }
  }

  lemma ByteMask()
    ensures Mask(8) == 256
  {
    assert Mask(4) == 16;
  }

  /** x | (1 << k) */
  function ByteWith(x: byte, k: nat): (y: byte)
    requires k < 8 && !BitOf(x, k)
    ensures BitOf(y, k) && forall j: nat :: j != k ==> BitOf(y, j) == BitOf(x, j)
  {
    FlipBit(x, x + Mask(k), k, 8);
    ByteMask();
    x + Mask(k)
  }

  /** x & ~(1 << k) */
  function ByteWithout(x: byte, k: nat): (y: byte)
    requires k < 8 && BitOf(x, k)
    ensures !BitOf(y, k) && forall j: nat :: j != k ==> BitOf(y, j) == BitOf(x, j)
  {
    MaskFits(x, k);
    FlipBit(x - Mask(k), x, k, 8);
    ByteMask();
    x - Mask(k)
  }

  /** Bit bi of a free-map block. */
  predicate MapBit(blk: Block, bi: nat)
    requires bi < BPB
  {
    BitOf(blk[bi / 8], bi % 8)
  }

  function WithBit(blk: Block, bi: nat): (r: Block)
    requires bi < BPB && !MapBit(blk, bi)
    ensures MapBit(r, bi)
    ensures forall j :: 0 <= j < BPB && j != bi ==> MapBit(r, j) == MapBit(blk, j)
  {
    blk[bi / 8 := ByteWith(blk[bi / 8], bi % 8)]
  }

  function WithoutBit(blk: Block, bi: nat): (r: Block)
    requires bi < BPB && MapBit(blk, bi)
    ensures !MapBit(r, bi)
    ensures forall j :: 0 <= j < BPB && j != bi ==> MapBit(r, j) == MapBit(blk, j)
  {
    blk[bi / 8 := ByteWithout(blk[bi / 8], bi % 8)]
  }

  // ---- words ----

  /** ((uint*)data)[j] */
  function Word(blk: Block, j: nat): (w: nat)
    requires j < NINDIRECT
  {
    var b0: int, b1: int, b2: int, b3: int := blk[4 * j], blk[4 * j + 1], blk[4 * j + 2], blk[4 * j + 3];
    b0 + 256 * b1 + 65536 * b2 + 16777216 * b3
  }

  function WithWord(blk: Block, j: nat, w: nat): (r: Block)
    requires j < NINDIRECT && w < 0x1_0000_0000
    ensures Word(r, j) == w
    ensures forall i :: 0 <= i < NINDIRECT && i != j ==> Word(r, i) == Word(blk, i)
  {
    blk[4 * j := w % 256][4 * j + 1 := w / 256 % 256][4 * j + 2 := w / 65536 % 256][4 * j + 3 := w / 16777216]
  }

  lemma ZeroWords()
    ensures forall j :: 0 <= j < NINDIRECT ==> Word(Zeros(), j) == 0
  {
  }
}
