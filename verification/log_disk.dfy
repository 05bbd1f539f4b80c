/** The on-disk redo log of log.c: what a header block says, which disk writes
    a commit and a recovery issue, and why a crash between any two of them is
    harmless.

    A block is BSIZE/4 words, so the header struct (an `int n` followed by
    `int block[LOGSIZE]`) is its first LOGSIZE + 1 words.  A single block write
    is atomic; a crash happens between two writes. */
module LogDisk {
  import opened Common

  const WORDS: nat := 128

  type Block = b: seq<nat> | |b| == WORDS witness seq(WORDS, i => 0)
  type Disk = seq<Block>
  datatype Write = Write(blockno: nat, data: Block)

  /** log.start and log.size. */
  datatype Layout = Layout(start: nat, size: nat) {
    predicate InLog(b: nat) { start <= b < start + size }
  }

  /** The log area lies on the disk and has at least its header block. */
  predicate FitsDisk(lay: Layout, d: Disk) { 0 < lay.size && lay.start + lay.size <= |d| }

  /** A block outside the log area: where file system data lives. */
  predicate Home(lay: Layout, d: Disk, b: int) { 0 <= b < |d| && !lay.InLog(b) }

  /** What a transaction may log: distinct home blocks, as many as fit in the log area. */
  ghost predicate Loggable(lay: Layout, d: Disk, blocks: seq<nat>) {
    |blocks| <= LOGSIZE && Distinct(blocks) && FitHomes(lay, d, blocks)
  }

  ghost predicate FitHomes(lay: Layout, d: Disk, blocks: seq<nat>) {
    FitsDisk(lay, d) && |blocks| < lay.size && forall i :: 0 <= i < |blocks| ==> Home(lay, d, blocks[i])
  }

  /** What log.lh can hold: different home blocks, whether or not the log area has a slot for each. */
  ghost predicate Listing(lay: Layout, d: Disk, blocks: seq<nat>) {
    FitsDisk(lay, d) && |blocks| <= LOGSIZE && Distinct(blocks) && forall i :: 0 <= i < |blocks| ==> Home(lay, d, blocks[i])
  }

  /** The block numbers a header block lists. */
  function Entries(head: Block): (r: seq<nat>)
    requires head[0] <= LOGSIZE
  {
    head[1..1 + head[0]]
  }

  /** The header on disk describes a transaction that was loggable. */
  ghost predicate ValidHead(lay: Layout, d: Disk) {
    FitsDisk(lay, d) && d[lay.start][0] <= LOGSIZE && Loggable(lay, d, Entries(d[lay.start]))
  }

  /** The header on disk describes a list that log.lh could hold. */
  ghost predicate ReadableHead(lay: Layout, d: Disk) {
    FitsDisk(lay, d) && d[lay.start][0] <= LOGSIZE && Listing(lay, d, Entries(d[lay.start]))
  }

  /** The header block that write_head leaves: words past the entries keep their old value. */
  function HeadWith(old_: Block, blocks: seq<nat>): (r: Block)
    requires |blocks| <= LOGSIZE
    ensures r[0] == |blocks|
    ensures forall i :: 0 <= i < |blocks| ==> r[1 + i] == blocks[i]
    ensures forall i :: |blocks| < i < WORDS ==> r[i] == old_[i]
  {
    [|blocks|] + blocks + old_[|blocks| + 1..]
  }

  /** One disk write; a block number beyond the disk is refused. */
  function Put(d: Disk, w: Write): (r: Disk)
    ensures |r| == |d|
  {
    if w.blockno < |d| then d[w.blockno := w.data] else d
  }

  /** The disk after the first k writes of ws. */
  function After(d: Disk, ws: seq<Write>, k: nat): (r: Disk)
    requires k <= |ws|
    ensures |r| == |d|
  {
    if k == 0 then d else Put(After(d, ws, k - 1), ws[k - 1])
  }

  /** Every logged block has a pinned buffer. */
  predicate AllCached(blocks: seq<nat>, cached: map<nat, Block>) {
    forall i :: 0 <= i < |blocks| ==> blocks[i] in cached
  }

  /** Every disk write of recover_from_log(), in order: home blocks from their log slots, then the
      cleared header. */
  ghost function RecoveryWrites(lay: Layout, d: Disk): (r: seq<Write>)
    requires ValidHead(lay, d)
  {
    var es := Entries(d[lay.start]);
    seq(|es| + 1, k requires 0 <= k <= |es| =>
      if k < |es| then Write(es[k], d[lay.start + 1 + k]) else Write(lay.start, HeadWith(d[lay.start], [])))
  }

  /** The disk a completed recovery leaves. */
  ghost function Recovered(lay: Layout, d: Disk): (r: Disk)
    requires ValidHead(lay, d)
    ensures |r| == |d|
  {
    After(d, RecoveryWrites(lay, d), |RecoveryWrites(lay, d)|)
  }

  /** The two disks agree on every home block. */
  ghost predicate SameHome(lay: Layout, d: Disk, e: Disk) {
    |d| == |e| && forall b :: Home(lay, d, b) ==> d[b] == e[b]
  }

  /** Disk d with the cached contents of the logged blocks in place: the transaction's effect. */
  ghost predicate Installed(lay: Layout, d: Disk, blocks: seq<nat>, cached: map<nat, Block>, e: Disk) {
    && |d| == |e|
    && forall b: nat :: Home(lay, d, b) ==>
         if b in blocks then b in cached && e[b] == cached[b] else e[b] == d[b]
  }

  // ---- pointwise effect of a sequence of writes ----

  /** A block that none of the first k writes names keeps its contents. */
  lemma {:induction false} AfterOther(d: Disk, ws: seq<Write>, k: nat, b: nat)
    requires k <= |ws| && b < |d| && forall i :: 0 <= i < k ==> ws[i].blockno != b
    ensures After(d, ws, k)[b] == d[b]
  {
    if k > 0 { AfterOther(d, ws, k - 1, b); }
  }

  /** A block written exactly once holds that write's data. */
  lemma {:induction false} AfterAt(d: Disk, ws: seq<Write>, k: nat, j: nat)
    requires j < k <= |ws| && ws[j].blockno < |d|
    requires forall i :: 0 <= i < k && i != j ==> ws[i].blockno != ws[j].blockno
    ensures After(d, ws, k)[ws[j].blockno] == ws[j].data
  {
    if j < k - 1 { AfterAt(d, ws, k - 1, j); }
  }

  /** Shape of a recovery's writes: home blocks, then the header. */
  lemma RecoveryShape(lay: Layout, d: Disk)
    requires ValidHead(lay, d)
    ensures var ws := RecoveryWrites(lay, d); var es := Entries(d[lay.start]);
            && |ws| == |es| + 1
            && (forall i :: 0 <= i < |es| ==> ws[i] == Write(es[i], d[lay.start + 1 + i]))
            && ws[|es|] == Write(lay.start, HeadWith(d[lay.start], []))
  {
  }

  /** Recovery gives a listed block the contents of its log slot. */
  lemma RecoveredListed(lay: Layout, d: Disk, i: nat)
    requires ValidHead(lay, d) && i < |Entries(d[lay.start])|
    ensures Recovered(lay, d)[Entries(d[lay.start])[i]] == d[lay.start + 1 + i]
  {
    RecoveryShape(lay, d);
    AfterAt(d, RecoveryWrites(lay, d), |RecoveryWrites(lay, d)|, i);
  }

  /** Recovery leaves a home block that is not listed alone. */
  lemma RecoveredOther(lay: Layout, d: Disk, b: nat)
    requires ValidHead(lay, d) && Home(lay, d, b) && b !in Entries(d[lay.start])
    ensures Recovered(lay, d)[b] == d[b]
  {
    RecoveryShape(lay, d);
    AfterOther(d, RecoveryWrites(lay, d), |RecoveryWrites(lay, d)|, b);
  }

  /** Recovery ends with an empty log, and a disk with an empty log has nothing to recover. */
  lemma RecoveredEmpty(lay: Layout, d: Disk)
    requires ValidHead(lay, d)
    ensures Recovered(lay, d)[lay.start][0] == 0
    ensures ValidHead(lay, Recovered(lay, d))
    ensures d[lay.start][0] == 0 ==> SameHome(lay, Recovered(lay, d), d)
  {
    RecoveryShape(lay, d);
    if d[lay.start][0] == 0 {
      forall b: nat | Home(lay, d, b) ensures Recovered(lay, d)[b] == d[b] { RecoveredOther(lay, d, b); }
    }
  }

  // ---- crash inside a commit ----

  /** A transaction about to commit: the disk it finds, the blocks it logged and their cached contents. */
  datatype Txn = Txn(lay: Layout, disk: Disk, blocks: seq<nat>, cached: map<nat, Block>) {
    ghost predicate Ready() {
      Loggable(lay, disk, blocks) && AllCached(blocks, cached) && disk[lay.start][0] == 0
    }

    predicate Fits() { FitsDisk(lay, disk) && |blocks| <= LOGSIZE && AllCached(blocks, cached) }

    function Head(): (r: Block)
      requires Fits()
    {
      HeadWith(disk[lay.start], blocks)
    }

    /** The k-th disk write of a commit: log slots, header, home blocks, header. */
    function Nth(k: nat): (w: Write)
      requires Fits() && k < 2 * |blocks| + 2
    {
      var n := |blocks|;
      if k < n then Write(lay.start + 1 + k, cached[blocks[k]])
      else if k == n then Write(lay.start, Head())
      else if k <= 2 * n then Write(blocks[k - n - 1], cached[blocks[k - n - 1]])
      else Write(lay.start, HeadWith(Head(), []))
    }

    /** Every disk write of commit(), in order; none when nothing was logged. */
    function Writes(): (r: seq<Write>)
      requires Fits()
    {
      if blocks == [] then []
      else seq(2 * |blocks| + 2, k requires 0 <= k < 2 * |blocks| + 2 => Nth(k))
    }

    /** Disk e holds the transaction's effect. */
    ghost predicate InPlace(e: Disk) { Installed(lay, disk, blocks, cached, e) }

    /** Home blocks outside the transaction are as they were. */
    ghost predicate OthersKept(e: Disk) {
      |e| == |disk| && forall b: nat :: Home(lay, disk, b) && b !in blocks ==> e[b] == disk[b]
    }

    /** Log slots below k hold the transaction's data. */
    ghost predicate SlotsHold(e: Disk, k: nat)
      requires Ready() && |e| == |disk| && k <= |blocks|
    {
      forall i :: 0 <= i < k ==> e[lay.start + 1 + i] == cached[blocks[i]]
    }

    /** The first k logged blocks are in place. */
    ghost predicate HomesHold(e: Disk, k: nat)
      requires Ready() && |e| == |disk| && k <= |blocks|
    {
      forall i :: 0 <= i < k ==> e[blocks[i]] == cached[blocks[i]]
    }

    /** What the disk looks like after k writes of the commit. */
    ghost predicate Stage(e: Disk, k: nat)
      requires Ready() && k <= 2 * |blocks| + 2
    {
      var n := |blocks|;
      && OthersKept(e)
      && (k <= n ==> SameHome(lay, e, disk) && e[lay.start] == disk[lay.start] && SlotsHold(e, k))
      && (n < k <= 2 * n + 1 ==> e[lay.start] == Head() && SlotsHold(e, n) && HomesHold(e, k - n - 1))
      && (k == 2 * n + 2 ==> e[lay.start][0] == 0 && HomesHold(e, n))
    }
  }

  /** Writing log slot k moves a commit one stage on. */
  lemma StageSlot(t: Txn, e: Disk, k: nat)
    requires t.Ready() && k < |t.blocks| && t.Stage(e, k)
    ensures t.Stage(Put(e, t.Nth(k)), k + 1)
  {
  }

  /** Writing the j-th logged block home touches neither the log area nor other blocks. */
  lemma StageHome(t: Txn, e: Disk, j: nat)
    requires t.Ready() && j < |t.blocks| && t.Stage(e, |t.blocks| + 1 + j)
    ensures t.Stage(Put(e, t.Nth(|t.blocks| + 1 + j)), |t.blocks| + 1 + j + 1)
  {
    var b := t.blocks[j];
    var e' := Put(e, Write(b, t.cached[b]));
    assert t.Nth(|t.blocks| + 1 + j) == Write(b, t.cached[b]);
    assert Home(t.lay, t.disk, b);
    assert t.OthersKept(e') by { assert b in t.blocks; }
    assert t.SlotsHold(e', |t.blocks|);
    assert t.HomesHold(e', j + 1);
  }

  lemma StageStep(t: Txn, e: Disk, k: nat)
    requires t.Ready() && k < 2 * |t.blocks| + 2 && t.Stage(e, k)
    ensures t.Stage(Put(e, t.Nth(k)), k + 1)
  {
    var n := |t.blocks|;
    if k < n {
      StageSlot(t, e, k);
    } else if n < k <= 2 * n {
      StageHome(t, e, k - n - 1);
    } else {
      forall i | 0 <= i < n ensures !t.lay.InLog(t.blocks[i]) { assert Home(t.lay, t.disk, t.blocks[i]); }
    }
  }

  lemma {:induction false} StageReached(t: Txn, ws: seq<Write>, k: nat)
    requires t.Ready() && k <= |ws| == 2 * |t.blocks| + 2
    requires forall i {:trigger ws[i]} :: 0 <= i < |ws| ==> ws[i] == t.Nth(i)
    ensures t.Stage(After(t.disk, ws, k), k)
  {
    if k > 0 {
      var e := After(t.disk, ws, k - 1);
      assert After(t.disk, ws, k) == Put(e, t.Nth(k - 1));
      StageReached(t, ws, k - 1);
      StageStep(t, e, k - 1);
    }
  }

  /** From the header write on, recovery takes a logged block from its slot. */
  lemma PastCommitPointAt(t: Txn, e: Disk, i: nat)
    requires t.Ready() && |e| == |t.disk| && ValidHead(t.lay, e)
    requires Entries(e[t.lay.start]) == t.blocks && t.SlotsHold(e, |t.blocks|) && i < |t.blocks|
    ensures Recovered(t.lay, e)[t.blocks[i]] == t.cached[t.blocks[i]]
  {
    RecoveredListed(t.lay, e, i);
  }

  lemma PastCommitPoint(t: Txn, e: Disk, k: nat)
    requires t.Ready() && |t.blocks| < k <= 2 * |t.blocks| + 1 && t.Stage(e, k)
    ensures ValidHead(t.lay, e) && t.InPlace(Recovered(t.lay, e))
  {
    assert Entries(e[t.lay.start]) == t.blocks;
    forall b: nat | Home(t.lay, t.disk, b)
      ensures Recovered(t.lay, e)[b] == if b in t.blocks then t.cached[b] else t.disk[b]
    {
      if i: nat :| i < |t.blocks| && t.blocks[i] == b {
        PastCommitPointAt(t, e, i);
      } else {
        RecoveredOther(t.lay, e, b);
      }
    }
  }

  /** After the last write the transaction is in place and the log is empty. */
  lemma CommitFinished(t: Txn)
    requires t.Ready() && t.blocks != []
    ensures var e := After(t.disk, t.Writes(), |t.Writes()|);
            && e[t.lay.start][0] == 0 && ValidHead(t.lay, e)
            && t.InPlace(e) && SameHome(t.lay, Recovered(t.lay, e), e)
  {
    var ws := t.Writes();
    StageReached(t, ws, |ws|);
    RecoveredEmpty(t.lay, After(t.disk, ws, |ws|));
  }

  /** What recovery makes of each stage of a commit. */
  lemma StageCrash(t: Txn, e: Disk, k: nat)
    requires t.Ready() && k <= 2 * |t.blocks| + 2 && t.Stage(e, k)
    ensures ValidHead(t.lay, e)
    ensures if k <= |t.blocks| then SameHome(t.lay, Recovered(t.lay, e), t.disk)
            else t.InPlace(Recovered(t.lay, e))
  {
    if |t.blocks| < k <= 2 * |t.blocks| + 1 {
      PastCommitPoint(t, e, k);
    } else {
      RecoveredEmpty(t.lay, e);
    }
  }

  /** Crash atomicity of commit(): stop it after any number k of its disk writes, and a completed
      recovery leaves either every home block as before or the whole transaction in place.  The
      first |blocks| writes (the log slots) are before the commit point, the header write is it. */
  lemma CommitCrashAtomic(t: Txn, k: nat)
    requires t.Ready() && k <= |t.Writes()|
    ensures var e := After(t.disk, t.Writes(), k);
            && ValidHead(t.lay, e)
            && if k <= |t.blocks| then SameHome(t.lay, Recovered(t.lay, e), t.disk)
               else t.InPlace(Recovered(t.lay, e))
  {
    if t.blocks == [] {
      RecoveredEmpty(t.lay, t.disk);
    } else {
      StageReached(t, t.Writes(), k);
      StageCrash(t, After(t.disk, t.Writes(), k), k);
    }
  }

  // ---- crash inside a recovery ----

  /** A recovery cut before its last write has not touched the log area, nor any block it need not. */
  lemma RecoveryCutShort(lay: Layout, d: Disk, k: nat, b: nat)
    requires ValidHead(lay, d) && k < |RecoveryWrites(lay, d)|
    requires b < |d| && b !in Entries(d[lay.start])
    ensures After(d, RecoveryWrites(lay, d), k)[b] == d[b]
  {
    RecoveryShape(lay, d);
    AfterOther(d, RecoveryWrites(lay, d), k, b);
  }

  /** A recovery stopped after any k of its writes, and run again from the start, ends where an
      uninterrupted one would. */
  lemma RecoveryCrash(lay: Layout, d: Disk, k: nat)
    requires ValidHead(lay, d) && k <= |RecoveryWrites(lay, d)|
    ensures var e := After(d, RecoveryWrites(lay, d), k);
            ValidHead(lay, e) && SameHome(lay, Recovered(lay, e), Recovered(lay, d))
  {
    var es := Entries(d[lay.start]);
    var e := After(d, RecoveryWrites(lay, d), k);
    RecoveryShape(lay, d);
    if k == |RecoveryWrites(lay, d)| {
      RecoveredEmpty(lay, d);
      RecoveredEmpty(lay, e);
    } else {
      forall b: nat | lay.InLog(b) ensures e[b] == d[b] {
        assert forall i :: 0 <= i < |es| ==> Home(lay, d, es[i]);
        RecoveryCutShort(lay, d, k, b);
      }
      forall b: nat | Home(lay, d, b) ensures Recovered(lay, e)[b] == Recovered(lay, d)[b] {
        if b in es {
          var i :| 0 <= i < |es| && es[i] == b;
          RecoveredListed(lay, d, i);
          RecoveredListed(lay, e, i);
        } else {
          RecoveryCutShort(lay, d, k, b);
          RecoveredOther(lay, d, b);
          RecoveredOther(lay, e, b);
        }
      }
    }
  }

  /** Crashes pile up: each recovery is cut short after some number of its writes. */
  ghost function AfterCrashes(lay: Layout, d: Disk, cuts: seq<nat>): (r: Disk)
    requires ValidHead(lay, d)
    ensures ValidHead(lay, r)
    decreases |cuts|
  {
    if cuts == [] then d
    else
      var all := |RecoveryWrites(lay, d)|;
      var k := if cuts[0] < all then cuts[0] else all;
      RecoveryCrash(lay, d, k);
      AfterCrashes(lay, After(d, RecoveryWrites(lay, d), k), cuts[1..])
  }

  /** However often recovery itself is interrupted, the one that completes gives the same home blocks. */
  lemma {:induction false} RecoveryIdempotent(lay: Layout, d: Disk, cuts: seq<nat>)
    requires ValidHead(lay, d)
    ensures SameHome(lay, Recovered(lay, AfterCrashes(lay, d, cuts)), Recovered(lay, d))
    decreases |cuts|
  {
    if cuts != [] {
      var all := |RecoveryWrites(lay, d)|;
      var k := if cuts[0] < all then cuts[0] else all;
      RecoveryCrash(lay, d, k);
      RecoveryIdempotent(lay, After(d, RecoveryWrites(lay, d), k), cuts[1..]);
    }
  }

  /** Crash atomicity end to end: commit stopped anywhere, then recovery stopped any number of times. */
  lemma CommitThenCrashesAtomic(t: Txn, k: nat, cuts: seq<nat>)
    requires t.Ready() && k <= |t.Writes()|
    ensures var e := After(t.disk, t.Writes(), k);
            && ValidHead(t.lay, e)
            && var end := Recovered(t.lay, AfterCrashes(t.lay, e, cuts));
               if k <= |t.blocks| then SameHome(t.lay, end, t.disk) else t.InPlace(end)
  {
    CommitCrashAtomic(t, k);
    RecoveryIdempotent(t.lay, After(t.disk, t.Writes(), k), cuts);
  }
}
