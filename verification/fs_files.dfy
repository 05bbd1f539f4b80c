/** writei, proved against the bytes of each file. */
module FsFiles {
  import opened Common
  import opened FsBytes
  import opened FsVolume
  import opened FsCode

  datatype Outcome = Moved(n: nat) | Refused | Panicked

  /** Unsigned 32-bit addition. */
  function Add32(a: nat, b: nat): (r: nat) { (a + b) % 0x1_0000_0000 }

  /** A file's bytes with src written at off. */
  function Spliced(c: seq<byte>, off: nat, src: seq<byte>): (r: seq<byte>)
    requires off <= |c|
  {
    c[..off] + src + if off + |src| < |c| then c[off + |src|..] else []
  }

  /** How many blocks n bytes from offset off touch. */
  function Span(off: nat, n: nat): (r: nat) {
    if n == 0 then 0 else (off % 512 + n + 511) / 512
  }

  /** Blocks a write may log: each block touched, a map bit for each but an unaligned first one, and
      the indirect block, its map bit and the inode. */
  function WriteCost(off: nat, n: nat): (r: nat) {
    Span(off, n) + (if off % 512 == 0 || n == 0 then Span(off, n) else Span(off, n) - 1) + 3
  }

  /** The first `tot` bytes of src are in place from `off`, and nothing else that was mapped has changed. */
  ghost predicate Progress(v: Vol, w: Vol, i: nat, off: nat, src: seq<byte>, tot: nat)
    requires tot <= |src| && off + |src| <= MAXFILE * 512
  {
    && SizesKept(v, w, i) && v.Ok() && w.Ok() && v.sb == w.sb && i < v.sb.ninodes
    && (forall j: nat, m: nat :: j < v.sb.ninodes && m < MAXFILE && Addr(v, j, m) != 0 ==> Addr(w, j, m) == Addr(v, j, m))
    && MappedTo(w, i, off + tot)
    && (forall m: nat, k: nat :: m < MAXFILE && k < BSIZE && off <= 512 * m + k < off + tot ==>
          Cell(w, i, m, k) == src[512 * m + k - off])
    && (forall j: nat, m: nat, k: nat :: j < v.sb.ninodes && m < MAXFILE && k < BSIZE && Addr(v, j, m) != 0 ==>
          (j == i && off <= 512 * m + k < off + tot) || Cell(w, j, m, k) == Cell(v, j, m, k))
  }

  lemma ProgressStart(v: Vol, i: nat, off: nat, src: seq<byte>)
    requires v.Ok() && i < v.sb.ninodes && MappedTo(v, i, v.inodes[i].size)
    requires off <= v.inodes[i].size && off + |src| <= MAXFILE * 512
    ensures Progress(v, v, i, off, src, 0)
  {
  }

  lemma ProgressStep(v: Vol, u: Vol, w: Vol, i: nat, off: nat, src: seq<byte>, tot: nat, bn: nat, o: nat, m: nat)
    requires 0 < m && tot + m <= |src| && off + |src| <= MAXFILE * 512
    requires off + tot == 512 * bn + o && o + m <= BSIZE
    requires Progress(v, u, i, off, src, tot) && WroteAt(u, w, i, bn, o, src[tot..tot + m])
    ensures Progress(v, w, i, off, src, tot + m)
  {
    forall b: nat | b < MAXFILE && b * 512 < off + tot + m ensures Addr(w, i, b) != 0 {
      if b != bn { assert Addr(w, i, b) == Addr(u, i, b); }
    }
    forall b: nat, k: nat | b < MAXFILE && k < BSIZE && off <= 512 * b + k < off + tot + m
      ensures Cell(w, i, b, k) == src[512 * b + k - off]
    {
      if 512 * b + k < off + tot {
        assert Addr(u, i, b) != 0 && Cell(w, i, b, k) == Cell(u, i, b, k);
      } else {
        assert b == bn && Cell(w, i, bn, k) == src[tot..tot + m][k - o];
      }
    }
    forall j: nat, b: nat, k: nat | j < v.sb.ninodes && b < MAXFILE && k < BSIZE && Addr(v, j, b) != 0
      ensures (j == i && off <= 512 * b + k < off + tot + m) || Cell(w, j, b, k) == Cell(v, j, b, k)
    {
      assert Addr(u, j, b) == Addr(v, j, b);
      if !(j == i && off <= 512 * b + k < off + tot) { assert Cell(u, j, b, k) == Cell(v, j, b, k); }
    }
  }

  // ---- what a write may log ----

  lemma UnionSize(a: set<nat>, b: set<nat>)
    ensures |a + b| <= |a| + |b|
  {
    assert a + b == a + (b - a);
  }

  /** At most the listed blocks were logged since `before`. */
  lemma CostBound(before: set<nat>, after: set<nat>, data: set<nat>, maps: set<nat>, rest: set<nat>)
    requires Within(before, after, data, maps, rest)
    ensures |after - before| <= |data| + |maps| + |rest|
  {
    SubsetSize(after - before, data + maps + rest);
    UnionSize(data + maps, rest);
    UnionSize(data, maps);
  }

  /** Since `before`, only the listed blocks were logged. */
  ghost predicate Within(before: set<nat>, after: set<nat>, data: set<nat>, maps: set<nat>, rest: set<nat>) {
    after <= before + data + maps + rest
  }

  /** One round logs the block, and its map bit and the indirect block's only if it was newly mapped. */
  lemma WithinStep(before: set<nat>, l0: set<nat>, l1: set<nat>, data: set<nat>, maps: set<nat>,
                   rest0: set<nat>, rest1: set<nat>, a: nat, mb: nat, fresh_: bool)
    requires Within(before, l0, data, maps, rest0) && rest0 <= rest1
    requires if fresh_ then Within(l0, l1, {a}, {mb}, rest1) else l1 <= l0 + {a}
    ensures Within(before, l1, data + {a}, if fresh_ then maps + {mb} else maps, rest1)
  {
  }

  /** After k rounds: blocks written, and map bits of those newly mapped, which an unaligned first
      block never is. */
  ghost predicate Tally(off: nat, k: nat, data: set<nat>, maps: set<nat>) {
    |data| <= k && |maps| <= if off % 512 == 0 || k == 0 then k else k - 1
  }

  lemma TallyStep(off: nat, k: nat, data: set<nat>, maps: set<nat>, a: nat, mb: nat, fresh_: bool)
    requires Tally(off, k, data, maps) && (k == 0 && off % 512 != 0 ==> !fresh_)
    ensures Tally(off, k + 1, data + {a}, if fresh_ then maps + {mb} else maps)
  {
    UnionSize(data, {a});
    UnionSize(maps, {mb});
  }

  /** The n bytes from off on are in the blocks from lo up to hi. */
  ghost predicate Covers(off: nat, n: nat, lo: nat, hi: nat) {
    512 * lo <= off < 512 * (lo + 1) && if n == 0 then hi == lo else 512 * (hi - 1) < off + n <= 512 * hi
  }

  lemma CoversSpan(off: nat, n: nat)
    ensures Covers(off, n, off / 512, off / 512 + Span(off, n))
  {
  }

  /** Where k rounds have got to: at a block boundary, unless none or all of the bytes are done. */
  ghost predicate Rounds(off: nat, n: nat, tot: nat, lo: nat, k: nat) {
    && 512 * lo <= off < 512 * (lo + 1)
    && (tot == 0 <==> k == 0)
    && (0 < tot < n ==> off + tot == 512 * (lo + k))
    && (0 < tot == n ==> 512 * (lo + k - 1) < off + n <= 512 * (lo + k))
  }

  lemma RoundsStep(off: nat, n: nat, tot: nat, lo: nat, k: nat)
    requires Rounds(off, n, tot, lo, k) && tot < n
    ensures var o := (off + tot) % 512; var m := Min(n - tot, 512 - o);
            && (off + tot) / 512 == lo + k && off + tot == 512 * (lo + k) + o && 0 < m && o + m <= 512 && tot + m <= n
            && Rounds(off, n, tot + m, lo, k + 1)
  {
    RoundsBlock(off, n, tot, lo, k);
  }

  lemma RoundsBlock(off: nat, n: nat, tot: nat, lo: nat, k: nat)
    requires Rounds(off, n, tot, lo, k) && tot < n
    ensures (off + tot) / 512 == lo + k
  {
    assert 512 * (lo + k) <= off + tot < 512 * (lo + k + 1);
  }

  lemma RoundsCost(off: nat, n: nat, lo: nat, hi: nat, k: nat)
    requires Rounds(off, n, n, lo, k) && Covers(off, n, lo, hi)
    ensures Span(off, n) == k && hi == lo + k
  {
  }

  lemma RoundsLeft(off: nat, n: nat, tot: nat, lo: nat, hi: nat, k: nat)
    requires Rounds(off, n, tot, lo, k) && tot < n && Covers(off, n, lo, hi)
    ensures lo + k + 1 <= hi
  {
  }

  // ---- how many blocks a write takes ----

  /** The blocks from lo to hi of a file that have no disk block yet. */
  ghost function Lacking(v: Vol, i: nat, lo: nat, hi: nat): (r: set<nat>)
    requires v.Ok() && i < v.sb.ninodes
  {
    set bn: nat | lo <= bn < hi && bn < MAXFILE && Addr(v, i, bn) == 0
  }

  /** Blocks to allocate for a write to them: those, and the indirect block if one is needed and missing. */
  ghost function Need(v: Vol, i: nat, lo: nat, hi: nat): (r: nat)
    requires v.Ok() && i < v.sb.ninodes
  {
    |Lacking(v, i, lo, hi)| + if lo < hi && NDIRECT < hi && v.inodes[i].addrs[NDIRECT] == 0 then 1 else 0
  }

  ghost predicate Enough(v: Vol, i: nat, lo: nat, hi: nat)
    requires v.Ok() && i < v.sb.ninodes
  {
    |Free(v)| >= Need(v, i, lo, hi)
  }

  /** The blocks before cur have been paid for; those from cur on are as they were. */
  ghost predicate Paid(v: Vol, w: Vol, i: nat, lo: nat, cur: nat) {
    && v.Ok() && w.Ok() && v.sb == w.sb && i < v.sb.ninodes && lo <= cur
    && |Free(w)| + Need(v, i, lo, cur) == |Free(v)|
    && (forall m: nat :: cur <= m < MAXFILE ==> Addr(w, i, m) == Addr(v, i, m))
    && (w.inodes[i].addrs[NDIRECT] == 0 <==> v.inodes[i].addrs[NDIRECT] == 0 && (lo == cur || cur <= NDIRECT))
  }

  lemma PaidStart(v: Vol, i: nat, lo: nat)
    requires v.Ok() && i < v.sb.ninodes
    ensures Paid(v, v, i, lo, lo)
  {
    assert Lacking(v, i, lo, lo) == {};
  }

  /** The next block adds what bmap finds missing. */
  lemma NeedNext(v: Vol, w: Vol, i: nat, lo: nat, cur: nat)
    requires Paid(v, w, i, lo, cur) && cur < MAXFILE
    ensures Need(v, i, lo, cur + 1) == Need(v, i, lo, cur) + Missing(w, i, cur)
  {
    assert Lacking(v, i, lo, cur + 1) == Lacking(v, i, lo, cur) + if Addr(v, i, cur) == 0 then {cur} else {};
  }

  lemma NotEnough(v: Vol, w: Vol, i: nat, lo: nat, cur: nat)
    requires Paid(v, w, i, lo, cur) && cur < MAXFILE && |Free(w)| < Missing(w, i, cur)
    ensures !Enough(v, i, lo, cur + 1)
  {
    NeedNext(v, w, i, lo, cur);
  }

  lemma NeedMore(v: Vol, i: nat, lo: nat, cur: nat, hi: nat)
    requires v.Ok() && i < v.sb.ninodes && lo < cur <= hi && !Enough(v, i, lo, cur)
    ensures !Enough(v, i, lo, hi)
  {
    SubsetSize(Lacking(v, i, lo, cur), Lacking(v, i, lo, hi));
  }

  lemma PaidEnough(v: Vol, w: Vol, i: nat, lo: nat, cur: nat, hi: nat)
    requires Paid(v, w, i, lo, cur) && cur == hi
    ensures Enough(v, i, lo, hi)
  {
  }

  lemma PaidNext(v: Vol, u: Vol, w: Vol, i: nat, lo: nat, cur: nat, o: nat, chunk: seq<byte>)
    requires Paid(v, u, i, lo, cur) && cur < MAXFILE && o + |chunk| <= BSIZE
    requires WroteAt(u, w, i, cur, o, chunk) && |Free(w)| == |Free(u)| - Missing(u, i, cur)
    ensures Paid(v, w, i, lo, cur + 1)
  {
    NeedNext(v, u, i, lo, cur);
    forall m: nat | cur + 1 <= m < MAXFILE ensures Addr(w, i, m) == Addr(v, i, m) { assert Addr(w, i, m) == Addr(u, i, m); }
  }

  // ---- the calls ----

  /** iupdate: copy the in-memory inode to its disk block. */
  method Iupdate(fs: Fs, i: nat)
    requires i < |fs.inodes| == |fs.dinodes|
    modifies fs`dinodes, fs`calls
    ensures fs.dinodes == old(fs.dinodes)[i := fs.inodes[i]] && fs.calls == old(fs.calls) + [fs.sb.InodeBlock(i)]
    ensures fs.Logged() == old(fs.Logged()) + {fs.sb.InodeBlock(i)}
    ensures old(fs.Covered()) ==> fs.Covered()
  {
    fs.dinodes := fs.dinodes[i := fs.inodes[i]];
    fs.calls := fs.calls + [fs.sb.InodeBlock(i)];
  }

  /** One round of the loop: the bytes up to the next block boundary.  `fresh_` says the block was
      newly mapped. */
  method CopyRound(fs: Fs, i: nat, src: seq<byte>, off: nat, tot: nat, bn: nat, o: nat, m: nat,
                   ghost v: Vol, ghost lo: nat, ghost next: nat)
    returns (r: Option<nat>, ghost fresh_: bool)
    requires Sound(fs.V(), fs.owner) && off + |src| <= MAXFILE * 512 && 0 < m && tot + m <= |src|
    requires off + tot == 512 * bn + o && o + m <= 512 && Progress(v, fs.V(), i, off, src, tot)
    requires Paid(v, fs.V(), i, lo, bn) && next == bn + 1
    modifies fs`disk, fs`inodes, fs`owner, fs`calls
    ensures old(fs.Covered()) ==> fs.Covered()
    ensures r.None? ==> Full(fs.V()) && !Enough(v, i, lo, next)
    ensures r.Some? ==> Sound(fs.V(), fs.owner) && Progress(v, fs.V(), i, off, src, tot + m)
    ensures r.Some? ==> Paid(v, fs.V(), i, lo, next)
    ensures fresh_ <==> Addr(old(fs.V()), i, bn) == 0
    ensures r.Some? && !fresh_ ==> fs.inodes == old(fs.inodes) && fs.Logged() <= old(fs.Logged()) + {r.value}
    ensures r.Some? && fresh_ ==>
      Within(old(fs.Logged()), fs.Logged(), {r.value}, {fs.sb.MapBlock(r.value)}, IndirectCost(fs.V(), i))
    ensures r.Some? ==> IndirectCost(old(fs.V()), i) <= IndirectCost(fs.V(), i)
  {
    ghost var u := fs.V();
    fresh_ := Addr(u, i, bn) == 0;
    r := fs.WriteSome(i, bn, o, src[tot..tot + m]);
    if r.Some? {
      ProgressStep(v, u, fs.V(), i, off, src, tot, bn, o, m);
      PaidNext(v, u, fs.V(), i, lo, bn, o, src[tot..tot + m]);
    } else {
      NotEnough(v, u, i, lo, bn);
    }
  }

  /** What the loop's k rounds have logged so far, counted against the transaction. */
  ghost predicate Charged(off: nat, n: nat, tot: nat, lo: nat, k: nat, l0: set<nat>, l: set<nat>, data: set<nat>, maps: set<nat>, rest: set<nat>) {
    Rounds(off, n, tot, lo, k) && Tally(off, k, data, maps) && Within(l0, l, data, maps, rest)
  }

  /** The loop's state: sound volume, tot bytes copied, nothing resized while inside the file. */
  ghost predicate Copying(fs: Fs, v: Vol, i: nat, off: nat, src: seq<byte>, tot: nat)
    requires tot <= |src| && off + |src| <= MAXFILE * 512
    reads fs
  {
    && Sound(fs.V(), fs.owner) && Progress(v, fs.V(), i, off, src, tot)
    && i < |v.inodes| && (off + tot <= v.inodes[i].size ==> fs.inodes == v.inodes)
  }

  /** One round with its charge. */
  method CopyNext(fs: Fs, i: nat, src: seq<byte>, off: nat, tot: nat, ghost v: Vol, ghost l0: set<nat>,
                  ghost lo: nat, ghost hi: nat, ghost k: nat, ghost cur: nat, ghost next: nat, ghost data: set<nat>, ghost maps: set<nat>)
    returns (ok: bool, m: nat, ghost data': set<nat>, ghost maps': set<nat>)
    requires tot < |src| && off + |src| <= MAXFILE * 512 && Copying(fs, v, i, off, src, tot)
    requires MappedTo(v, i, v.inodes[i].size) && off <= v.inodes[i].size
    requires Charged(off, |src|, tot, lo, k, l0, fs.Logged(), data, maps, IndirectCost(fs.V(), i))
    requires Paid(v, fs.V(), i, lo, cur) && cur == lo + k && next == cur + 1 && Covers(off, |src|, lo, hi)
    modifies fs`disk, fs`inodes, fs`owner, fs`calls
    ensures old(fs.Covered()) ==> fs.Covered()
    ensures !ok ==> Full(fs.V()) && !Enough(v, i, lo, hi)
    ensures ok ==> Paid(v, fs.V(), i, lo, next)
    ensures ok ==> 0 < m <= |src| - tot && Copying(fs, v, i, off, src, tot + m)
    ensures ok ==> Charged(off, |src|, tot + m, lo, k + 1, l0, fs.Logged(), data', maps', IndirectCost(fs.V(), i))
  {
    RoundsStep(off, |src|, tot, lo, k);
    var bn, o := (off + tot) / 512, (off + tot) % 512;
    m := Min(|src| - tot, 512 - o);
    MappedBelow(v, fs.V(), i, off, src, tot, bn, o);
    ghost var l, rest := fs.Logged(), IndirectCost(fs.V(), i);
    var r, fresh_ := CopyRound(fs, i, src, off, tot, bn, o, m, v, lo, next);
    data', maps' := data, maps;
    if r.None? {
      RoundsLeft(off, |src|, tot, lo, hi, k);
      NeedMore(v, i, lo, next, hi);
      return false, m, data', maps';
    }
    ghost var mb := fs.sb.MapBlock(r.value);
    WithinStep(l0, l, fs.Logged(), data, maps, rest, IndirectCost(fs.V(), i), r.value, mb, fresh_);
    TallyStep(off, k, data, maps, r.value, mb, fresh_);
    data', maps' := data + {r.value}, if fresh_ then maps + {mb} else maps;
    return true, m, data', maps';
  }

  /** writei's loop: copy src into the file block by block.  False is bmap's panic. */
  method CopyLoop(fs: Fs, i: nat, src: seq<byte>, off: nat, ghost v: Vol, ghost l0: set<nat>, ghost lo: nat, ghost hi: nat)
    returns (ok: bool)
    requires off + |src| <= MAXFILE * 512 && Copying(fs, v, i, off, src, 0)
    requires MappedTo(v, i, v.inodes[i].size) && off <= v.inodes[i].size
    requires Charged(off, |src|, 0, lo, 0, l0, fs.Logged(), {}, {}, IndirectCost(fs.V(), i))
    requires Paid(v, fs.V(), i, lo, lo) && Covers(off, |src|, lo, hi)
    modifies fs`disk, fs`inodes, fs`owner, fs`calls
    ensures old(fs.Covered()) ==> fs.Covered()
    ensures !ok ==> Full(fs.V())
    ensures ok <==> Enough(v, i, lo, hi)
    ensures ok ==> Copying(fs, v, i, off, src, |src|) && |fs.Logged() - l0| <= WriteCost(off, |src|) - 1
  {
    ghost var data: set<nat>, maps: set<nat>, k: nat, cur: nat := {}, {}, 0, lo;
    var tot := 0;
    while tot < |src|
      invariant 0 <= tot <= |src| && Copying(fs, v, i, off, src, tot) && (old(fs.Covered()) ==> fs.Covered())
      invariant Charged(off, |src|, tot, lo, k, l0, fs.Logged(), data, maps, IndirectCost(fs.V(), i))
      invariant cur == lo + k && Paid(v, fs.V(), i, lo, cur)
    {
      var m;
      ghost var next := cur + 1;
      ok, m, data, maps := CopyNext(fs, i, src, off, tot, v, l0, lo, hi, k, cur, next, data, maps);
      if !ok { return; }
      tot, k, cur := tot + m, k + 1, next;
    }
    LoopCost(off, |src|, lo, hi, k, l0, fs.Logged(), data, maps, IndirectCost(fs.V(), i));
    PaidEnough(v, fs.V(), i, lo, cur, hi);
    return true;
  }

  lemma LoopCost(off: nat, n: nat, lo: nat, hi: nat, k: nat, l0: set<nat>, l: set<nat>, data: set<nat>, maps: set<nat>, rest: set<nat>)
    requires Charged(off, n, n, lo, k, l0, l, data, maps, rest) && Covers(off, n, lo, hi) && |rest| <= 2
    ensures |l - l0| <= WriteCost(off, n) - 1 && hi == lo + k
  {
    RoundsCost(off, n, lo, hi, k);
    CostBound(l0, l, data, maps, rest);
  }

  method CopyIn(fs: Fs, i: nat, src: seq<byte>, off: nat) returns (ok: bool)
    requires Good(fs.V(), fs.owner) && i < fs.sb.ninodes
    requires off <= fs.inodes[i].size && off + |src| <= MAXFILE * 512
    modifies fs`disk, fs`inodes, fs`owner, fs`calls
    ensures old(fs.Covered()) ==> fs.Covered()
    ensures !ok ==> Full(fs.V())
    ensures ok <==> Enough(old(fs.V()), i, off / 512, off / 512 + Span(off, |src|))
    ensures ok ==> Sound(fs.V(), fs.owner) && Progress(old(fs.V()), fs.V(), i, off, src, |src|)
    ensures ok && off + |src| <= old(fs.inodes)[i].size ==> fs.inodes == old(fs.inodes)
    ensures ok ==> |fs.Logged() - old(fs.Logged())| <= WriteCost(off, |src|) - 1
  {
    assert MappedTo(fs.V(), i, fs.inodes[i].size);
    ProgressStart(fs.V(), i, off, src);
    PaidStart(fs.V(), i, off / 512);
    CoversSpan(off, |src|);
    ok := CopyLoop(fs, i, src, off, fs.V(), fs.Logged(), off / 512, off / 512 + Span(off, |src|));
  }

  /** The block at a position below the old size is mapped; so is an unaligned first block. */
  lemma MappedBelow(v: Vol, u: Vol, i: nat, off: nat, src: seq<byte>, tot: nat, bn: nat, o: nat)
    requires tot < |src| && off + |src| <= MAXFILE * 512 && Progress(v, u, i, off, src, tot)
    requires MappedTo(v, i, v.inodes[i].size) && off <= v.inodes[i].size
    requires off + tot == 512 * bn + o && o < 512
    ensures off + tot < v.inodes[i].size ==> Addr(u, i, bn) != 0
    ensures tot == 0 && off % 512 != 0 ==> Addr(u, i, bn) != 0
  {
    if bn * 512 < v.inodes[i].size { assert Addr(v, i, bn) != 0; }
  }

  /** w is u after writei's size update. */
  ghost predicate Resized(v: Vol, u: Vol, w: Vol, i: nat, end: nat) {
    && w.sb == u.sb && w.disk == u.disk && |w.inodes| == |u.inodes| == |v.inodes| && i < |v.inodes|
    && (forall j :: 0 <= j < |u.inodes| ==> w.inodes[j].addrs == u.inodes[j].addrs)
    && (forall j :: 0 <= j < |u.inodes| && j != i ==> w.inodes[j] == u.inodes[j])
    && w.inodes[i].size == if end > v.inodes[i].size then end else v.inodes[i].size
  }

  ghost predicate AllMapped(v: Vol) {
    v.Ok() && forall j: nat :: j < v.sb.ninodes ==> MappedTo(v, j, v.inodes[j].size)
  }

  lemma StillMapped(v: Vol, u: Vol, w: Vol, i: nat, off: nat, src: seq<byte>)
    requires AllMapped(v) && off + |src| <= MAXFILE * 512
    requires Progress(v, u, i, off, src, |src|) && Resized(v, u, w, i, off + |src|)
    ensures AllMapped(w)
  {
    forall j: nat | j < v.sb.ninodes ensures MappedTo(w, j, w.inodes[j].size) {
      assert MappedTo(v, j, v.inodes[j].size);
      forall bn: nat | bn < MAXFILE && bn * 512 < w.inodes[j].size ensures Addr(w, j, bn) != 0 {
        assert Addr(w, j, bn) == Addr(u, j, bn);
        if bn * 512 < v.inodes[j].size { assert Addr(v, j, bn) != 0; }
      }
    }
  }

  /** After the loop and the size update, every other file is as it was... */
  lemma OtherContent(v: Vol, u: Vol, w: Vol, i: nat, off: nat, src: seq<byte>, j: nat)
    requires AllMapped(v) && off + |src| <= MAXFILE * 512
    requires Progress(v, u, i, off, src, |src|) && Resized(v, u, w, i, off + |src|)
    requires j < v.sb.ninodes && j != i
    ensures Content(w, j) == Content(v, j)
  {
    assert MappedTo(v, j, v.inodes[j].size);
    forall p: nat | p < v.inodes[j].size ensures Content(w, j)[p] == Content(v, j)[p] {
      SameByte(v, u, w, i, off, src, j, p);
    }
  }

  /** ... and this one is spliced. */
  lemma SplicedAt(v: Vol, u: Vol, w: Vol, i: nat, off: nat, src: seq<byte>, p: nat)
    requires AllMapped(v) && off + |src| <= MAXFILE * 512
    requires Progress(v, u, i, off, src, |src|) && Resized(v, u, w, i, off + |src|)
    requires off <= v.inodes[i].size && p < w.inodes[i].size
    ensures Cell(w, i, p / 512, p % 512)
            == if off <= p < off + |src| then src[p - off] else Cell(v, i, p / 512, p % 512)
  {
    assert MappedTo(v, i, v.inodes[i].size);
    var m, k := p / 512, p % 512;
    assert p == 512 * m + k && Addr(w, i, m) == Addr(u, i, m);
    if off <= p < off + |src| {
      assert Cell(u, i, m, k) == src[p - off];
    } else {
      SameByte(v, u, w, i, off, src, i, p);
    }
  }

  lemma SplicedContent(v: Vol, u: Vol, w: Vol, i: nat, off: nat, src: seq<byte>)
    requires AllMapped(v) && off + |src| <= MAXFILE * 512
    requires Progress(v, u, i, off, src, |src|) && Resized(v, u, w, i, off + |src|) && off <= v.inodes[i].size
    ensures Content(w, i) == Spliced(Content(v, i), off, src)
  {
    assert MappedTo(v, i, v.inodes[i].size);
    var c, want := Content(w, i), Spliced(Content(v, i), off, src);
    assert |c| == |want|;
    forall p: nat | p < |c| ensures c[p] == want[p] {
      SplicedAt(v, u, w, i, off, src, p);
    }
  }

  lemma SameByte(v: Vol, u: Vol, w: Vol, i: nat, off: nat, src: seq<byte>, j: nat, p: nat)
    requires off + |src| <= MAXFILE * 512 && Progress(v, u, i, off, src, |src|)
    requires w.Ok() && w.sb == u.sb && w.disk == u.disk && j < v.sb.ninodes
    requires w.inodes[j].addrs == u.inodes[j].addrs
    requires MappedTo(v, j, v.inodes[j].size) && p < v.inodes[j].size && !(j == i && off <= p < off + |src|)
    ensures Cell(w, j, p / 512, p % 512) == Cell(v, j, p / 512, p % 512)
  {
    var m, k := p / 512, p % 512;
    assert p == 512 * m + k && m < MAXFILE;
    assert Addr(v, j, m) != 0 && Addr(w, j, m) == Addr(u, j, m);
    assert Cell(u, j, m, k) == Cell(v, j, m, k);
  }

  /** A size is not part of the free map's accounts. */
  lemma ResizedSound(u: Vol, w: Vol, owner: Owner)
    requires Sound(u, owner) && w.sb == u.sb && w.disk == u.disk && |w.inodes| == |u.inodes|
    requires forall j :: 0 <= j < |u.inodes| ==> w.inodes[j].addrs == u.inodes[j].addrs
    ensures Sound(w, owner)
  {
    forall j: nat, s: nat | Slot(u, j, s) ensures Ref(w, j, s) == Ref(u, j, s) {}
    SameRefsInverse(u, w, owner);
    forall b: nat | b < u.sb.size ensures InUse(w, b) == InUse(u, b) {}
  }

  /** Only bytes off..off+n of inode i changed, and the file grew if they pass its end. */
  ghost predicate Written(v: Vol, w: Vol, i: nat, off: nat, src: seq<byte>) {
    && v.Ok() && w.Ok() && v.sb == w.sb && i < v.sb.ninodes && off <= v.inodes[i].size
    && Content(w, i) == Spliced(Content(v, i), off, src)
    && forall j: nat :: j < v.sb.ninodes && j != i ==> w.inodes[j] == v.inodes[j] && Content(w, j) == Content(v, j)
  }

  lemma WriteDone(v: Vol, u: Vol, w: Vol, i: nat, off: nat, src: seq<byte>, owner: Owner)
    requires AllMapped(v) && off + |src| <= MAXFILE * 512 && Sound(u, owner)
    requires Progress(v, u, i, off, src, |src|) && Resized(v, u, w, i, off + |src|) && off <= v.inodes[i].size
    ensures Good(w, owner) && Written(v, w, i, off, src)
  {
    SplicedContent(v, u, w, i, off, src);
    forall j: nat | j < v.sb.ninodes && j != i ensures w.inodes[j] == v.inodes[j] && Content(w, j) == Content(v, j) {
      OtherContent(v, u, w, i, off, src, j);
    }
    StillMapped(v, u, w, i, off, src);
    ResizedSound(u, w, owner);
  }

  /** writei's tests, in 32-bit arithmetic, come to this. */
  lemma BoundsTest(size: nat, off: nat, n: nat)
    requires off < 0x1_0000_0000 && n < 0x1_0000_0000
    ensures off > size || Add32(off, n) < off || Add32(off, n) > MAXFILE * 512
            <==> off > size || off + n > MAXFILE * 512
  {
  }

  lemma OneMore(before: set<nat>, l: set<nat>, b: nat)
    ensures |l + {b} - before| <= |l - before| + 1
  {
    UnionSize(l - before, {b});
    SubsetSize(l + {b} - before, (l - before) + {b});
  }

  /** Fewer calls have logged no more blocks. */
  lemma PrefixCost(calls: seq<nat>, more: seq<nat>, before: set<nat>, k: nat)
    requires k <= |calls|
    ensures |BlocksOf((calls + more)[..k]) - before| <= |BlocksOf(calls) - before|
  {
    assert (calls + more)[..k] == calls[..k];
    SubsetSize(BlocksOf(calls[..k]) - before, BlocksOf(calls) - before);
  }

  /** Each log_write was made with fewer than `cost` blocks logged before it, counted from `before`. */
  ghost predicate EachBelow(calls: seq<nat>, before: set<nat>, cost: nat) {
    forall k: nat {:trigger calls[..k]} :: k < |calls| ==> |BlocksOf(calls[..k]) - before| < cost
  }

  lemma CallsBelow(calls: seq<nat>, more: seq<nat>, before: set<nat>, cost: nat)
    requires |BlocksOf(calls) - before| < cost && |more| <= 1
    ensures EachBelow(calls + more, before, cost)
  {
    forall k: nat | k < |calls + more| ensures |BlocksOf((calls + more)[..k]) - before| < cost {
      PrefixCost(calls, more, before, k);
    }
  }

  /** The size update: the new end of the file, written through. */
  method Resize(fs: Fs, i: nat, size: nat)
    requires i < |fs.inodes| == |fs.dinodes| && fs.dinodes[..i] == fs.inodes[..i] && fs.dinodes[i + 1..] == fs.inodes[i + 1..]
    modifies fs`inodes, fs`dinodes, fs`calls
    ensures old(fs.Covered()) ==> fs.Covered()
    ensures fs.inodes == old(fs.inodes)[i := Inode(size, old(fs.inodes)[i].addrs)] == fs.dinodes
    ensures fs.calls == old(fs.calls) + [fs.sb.InodeBlock(i)]
  {
    fs.inodes := fs.inodes[i := Inode(size, fs.inodes[i].addrs)];
    Iupdate(fs, i);
  }

  /** writei past its tests. */
  method WriteWithin(fs: Fs, i: nat, src: seq<byte>, off: nat) returns (ok: bool)
    requires fs.Valid() && i < fs.sb.ninodes && off <= fs.inodes[i].size && off + |src| <= MAXFILE * 512
    modifies fs`disk, fs`inodes, fs`dinodes, fs`owner, fs`calls
    ensures old(fs.Covered()) ==> fs.Covered()
    ensures !ok ==> Full(fs.V())
    ensures ok <==> Enough(old(fs.V()), i, off / 512, off / 512 + Span(off, |src|))
    ensures ok ==> fs.Valid() && Written(old(fs.V()), fs.V(), i, off, src)
    ensures ok ==> |fs.Logged() - old(fs.Logged())| <= WriteCost(off, |src|)
    ensures ok ==> EachBelow(fs.calls, old(fs.Logged()), WriteCost(off, |src|))
  {
    ghost var v := fs.V();
    ok := CopyIn(fs, i, src, off);
    if !ok { return; }
    ghost var u, own, c := fs.V(), fs.owner, fs.calls;
    if |src| > 0 && off + |src| > fs.inodes[i].size {
      OthersSame(v, u, i, off, src);
      Resize(fs, i, off + |src|);
    }
    WriteCharge(c, fs.calls, old(fs.Logged()), fs.sb.InodeBlock(i), WriteCost(off, |src|));
    WriteDone(v, u, fs.V(), i, off, src, own);
  }

  lemma OthersSame(v: Vol, u: Vol, i: nat, off: nat, src: seq<byte>)
    requires off + |src| <= MAXFILE * 512 && Progress(v, u, i, off, src, |src|)
    ensures i < |u.inodes| == |v.inodes| && v.inodes[..i] == u.inodes[..i] && v.inodes[i + 1..] == u.inodes[i + 1..]
  {
  }

  /** At most the inode is logged after the copy loop. */
  lemma WriteCharge(c: seq<nat>, calls: seq<nat>, before: set<nat>, ib: nat, cost: nat)
    requires |BlocksOf(c) - before| < cost && (calls == c || calls == c + [ib])
    ensures |BlocksOf(calls) - before| <= cost && EachBelow(calls, before, cost)
  {
    CallsBelow(c, [], before, cost);
    CallsBelow(c, [ib], before, cost);
    assert c + [] == c && BlocksOf(c + [ib]) == BlocksOf(c) + {ib};
    OneMore(before, BlocksOf(c), ib);
  }

  /** writei: refused outside its bounds; a panic if there are fewer free blocks than the write has to
      allocate, data blocks and an indirect block; otherwise exactly bytes off..off+n of that inode change, the
      file grows if they pass its end, and at most WriteCost blocks are logged. */
  method Writei(fs: Fs, i: nat, src: seq<byte>, off: nat) returns (r: Outcome)
    requires fs.Valid() && i < fs.sb.ninodes && off < 0x1_0000_0000 && |src| < 0x1_0000_0000
    modifies fs`disk, fs`inodes, fs`dinodes, fs`owner, fs`calls
    ensures old(fs.Covered()) ==> fs.Covered()
    ensures r.Refused? <==> off > old(fs.inodes)[i].size || off + |src| > MAXFILE * 512
    ensures r.Refused? ==> unchanged(fs)
    ensures r.Panicked? ==> Full(fs.V())
    ensures r.Panicked? <==> !r.Refused? && !Enough(old(fs.V()), i, off / 512, off / 512 + Span(off, |src|))
    ensures r.Moved? ==> r.n == |src| && fs.Valid() && Written(old(fs.V()), fs.V(), i, off, src)
    ensures r.Moved? ==> |fs.Logged() - old(fs.Logged())| <= WriteCost(off, |src|)
    ensures r.Moved? ==> EachBelow(fs.calls, old(fs.Logged()), WriteCost(off, |src|))
  {
    BoundsTest(fs.inodes[i].size, off, |src|);
    if off > fs.inodes[i].size || Add32(off, |src|) < off { return Refused; }
    if Add32(off, |src|) > MAXFILE * 512 { return Refused; }
    var ok := WriteWithin(fs, i, src, off);
    return if ok then Moved(|src|) else Panicked;
  }
}
