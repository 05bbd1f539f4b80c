/** The commit of log.c and the buffers of bio.c: the blocks of the open transaction
    stay dirty in the cache, so a commit finds a buffer for its log blocks only if
    the cache has one to spare.  Commits that do not fit in the log area included:
    their last log blocks go through the buffers of the blocks behind it. */
module LogBuffers {
  import opened Common
  import opened BioCache
  import opened BioCode
  import BioFull
  import BioRuns
  import LogDisk
  import LogProtocol
  import LogGroups
  import LogCapacity

  /** The commit at hand: device, log area, logged blocks. */
  datatype Job = Job(dev: nat, lay: LogDisk.Layout, blocks: seq<nat>) {
    function LogKey(i: nat): (k: Key) { Key(dev, lay.start + i) }

    predicate InLog(k: Key) { k.dev == dev && lay.InLog(k.blockno) }

    /** Block i is the block that its own log block is copied to. */
    predicate Clash(i: nat) { i < |blocks| && blocks[i] == lay.start + 1 + i }

    ghost predicate Ok() {
      && dev != 0 && Distinct(blocks) && (blocks != [] ==> 2 <= lay.size)
      && forall i :: 0 <= i < |blocks| ==> !lay.InLog(blocks[i])
    }

    ghost function All(): (r: set<nat>) { set x | x in blocks }
  }

  ghost predicate Unique(c: Cache) {
    forall a, b :: 0 <= a < b < |c.bufs| && c.bufs[a].key == c.bufs[b].key ==> c.bufs[a].key.dev == 0
  }

  ghost predicate Counts(c: Cache, refs: seq<nat>, mine: set<nat>) {
    |refs| == |c.bufs| && forall b: nat :: b < |refs| ==> c.bufs[b].refcnt == refs[b] + if b in mine then 1 else 0
  }

  /** A block still to be written home: its key is the key of a dirty buffer. */
  predicate Waits(k: Key, dev: nat, left: set<nat>) { k.dev == dev && k.blockno in left }

  /** The cache while `left` are the logged blocks still dirty: exactly their buffers are; others refer to
      buffers as `refs` says, the committer to `mine`; nobody else uses log blocks. */
  ghost predicate Backed(c: Cache, job: Job, left: set<nat>, refs: seq<nat>, mine: set<nat>) {
    && job.Ok() && left <= job.All() && Permutation(c.ring, |c.bufs|) && Unique(c) && Counts(c, refs, mine)
    && (forall b :: 0 <= b < |c.bufs| ==> (c.bufs[b].dirty <==> Waits(c.bufs[b].key, job.dev, left)))
    && (forall x :: x in left ==> Cached(c, Key(job.dev, x)))
    && (forall b :: 0 <= b < |c.bufs| && refs[b] > 0 ==> !job.InLog(c.bufs[b].key))
  }

  /** A buffer nobody else needs. */
  predicate Spare(c: Cache, refs: seq<nat>, u: nat) { u < |c.bufs| == |refs| && refs[u] == 0 && !c.bufs[u].dirty }

  /** A block that somebody else has a buffer of. */
  predicate Held(c: Cache, refs: seq<nat>, k: Key) {
    |refs| == |c.bufs| && exists b :: 0 <= b < |c.bufs| && c.bufs[b].key == k && refs[b] > 0
  }

  /** Enough to go on: two buffers to spare, or one and all blocks from position k on sure to be cached. */
  ghost predicate Roomy(c: Cache, job: Job, left: set<nat>, refs: seq<nat>, k: nat, u: nat, v: nat) {
    && Spare(c, refs, u) && Spare(c, refs, v)
    && (u == v ==> forall i :: k <= i < |job.blocks| ==> job.blocks[i] in left || Held(c, refs, Key(job.dev, job.blocks[i])))
  }

  // ---- single calls ----

  /** What bget does to the buffers. */
  lemma GotIs(c: Cache, key: Key)
    requires Permutation(c.ring, |c.bufs|) && Got(c, key).Some?
    ensures var (c', b) := Got(c, key).value;
            && b < |c.bufs| && c'.ring == c.ring && |c'.bufs| == |c.bufs| && c'.bufs == c.bufs[b := c'.bufs[b]]
            && c'.bufs[b].key == key
            && if Cached(c, key) then c.bufs[b].key == key && c'.bufs[b] == Ref(c.bufs[b], 1)
               else Unused(c.bufs[b]) && c'.bufs[b].refcnt == 1 && !c'.bufs[b].dirty
  {
    var k := FindAt(c, key, 0);
    if Cached(c, key) {
      var b: nat :| b < |c.bufs| && c.bufs[b].key == key;
      assert b in c.ring;
      var j :| 0 <= j < |c.ring| && c.ring[j] == b;
    }
  }

  /** Replacing buffer b by one for a block not among them loses no cached block but its own. */
  lemma StillCached(c: Cache, c': Cache, b: nat, dev: nat, left: set<nat>)
    requires forall x :: x in left ==> Cached(c, Key(dev, x))
    requires b < |c.bufs| && |c'.bufs| == |c.bufs| && c'.bufs == c.bufs[b := c'.bufs[b]]
    requires c'.bufs[b].key == c.bufs[b].key || !Waits(c.bufs[b].key, dev, left)
    ensures forall x :: x in left ==> Cached(c', Key(dev, x))
  {
    forall x | x in left ensures Cached(c', Key(dev, x)) {
      var a: nat :| a < |c.bufs| && c.bufs[a].key == Key(dev, x);
      assert c'.bufs[a].key == Key(dev, x);
    }
  }

  /** Nor does it take away what others hold or the buffers to spare. */
  lemma StillRoomy(c: Cache, c': Cache, job: Job, left: set<nat>, refs: seq<nat>, k: nat, u: nat, v: nat, b: nat)
    requires Roomy(c, job, left, refs, k, u, v) && b < |c.bufs| && |c'.bufs| == |c.bufs| && c'.bufs == c.bufs[b := c'.bufs[b]]
    requires c'.bufs[b].key == c.bufs[b].key || refs[b] == 0
    requires c'.bufs[b].dirty ==> c.bufs[b].dirty
    ensures Roomy(c', job, left, refs, k, u, v)
  {
    if u == v {
      forall i | k <= i < |job.blocks| ensures job.blocks[i] in left || Held(c', refs, Key(job.dev, job.blocks[i])) {
        var key := Key(job.dev, job.blocks[i]);
        if job.blocks[i] !in left {
          var a :| 0 <= a < |c.bufs| && c.bufs[a].key == key && refs[a] > 0;
          assert c'.bufs[a].key == key;
        }
      }
    }
  }

  /** bget of a block that the committer does not hold. */
  lemma GetAny(c: Cache, job: Job, left: set<nat>, refs: seq<nat>, mine: set<nat>, key: Key)
    requires Backed(c, job, left, refs, mine) && key.dev == job.dev && Got(c, key).Some?
    requires forall a :: a in mine && a < |c.bufs| ==> c.bufs[a].key != key
    ensures var (c', b) := Got(c, key).value;
            && b < |c'.bufs| == |c.bufs| && b !in mine && c'.bufs == c.bufs[b := c'.bufs[b]] && c'.bufs[b].key == key
            && Backed(c', job, left, refs, mine + {b})
            && (c'.bufs[b].key == c.bufs[b].key || refs[b] == 0) && (c'.bufs[b].dirty ==> c.bufs[b].dirty)
  {
    GotIs(c, key);
    var (c', b) := Got(c, key).value;
    if Cached(c, key) {
      assert b !in mine;
      assert c'.bufs[b].dirty == c.bufs[b].dirty;
    } else {
      assert refs[b] == 0 && b !in mine && !c.bufs[b].dirty;
      assert !Waits(key, job.dev, left);
    }
    StillCached(c, c', b, job.dev, left);
  }

  /** The bread of a block with nothing else in hand finds a buffer. */
  lemma GetFirst(c: Cache, job: Job, left: set<nat>, refs: seq<nat>, key: Key, k: nat, u: nat, v: nat)
    requires Backed(c, job, left, refs, {}) && Roomy(c, job, left, refs, k, u, v) && key.dev == job.dev
    ensures Got(c, key).Some?
    ensures var (c', a) := Got(c, key).value;
            a < |c'.bufs| == |c.bufs| && c'.bufs[a].key == key && Backed(c', job, left, refs, {a})
            && Roomy(c', job, left, refs, k, u, v)
  {
    GotNoneIff(c, key);
    assert u !in Busy(c);
    GetAny(c, job, left, refs, {}, key);
    var (c', a) := Got(c, key).value;
    assert {} + {a} == {a};
    StillRoomy(c, c', job, left, refs, k, u, v, a);
  }

  lemma SecondFree(c: Cache, job: Job, left: set<nat>, refs: seq<nat>, k: nat, i: nat, a: nat, u: nat, v: nat)
    requires Backed(c, job, left, refs, {a}) && Roomy(c, job, left, refs, k, u, v) && k <= i < |job.blocks|
    ensures Got(c, Key(job.dev, job.blocks[i])).Some?
  {
    var key := Key(job.dev, job.blocks[i]);
    GotNoneIff(c, key);
    if u != v {
      var w := if u != a then u else v;
      assert w !in Busy(c);
    } else if job.blocks[i] !in left {
      var b :| 0 <= b < |c.bufs| && c.bufs[b].key == key && refs[b] > 0;
    }
  }

  /** So does the bread of a logged block with one log block in hand. */
  lemma GetSecond(c: Cache, job: Job, left: set<nat>, refs: seq<nat>, k: nat, i: nat, a: nat, u: nat, v: nat)
    requires Backed(c, job, left, refs, {a}) && Roomy(c, job, left, refs, k, u, v) && k <= i < |job.blocks|
    requires a < |c.bufs| && c.bufs[a].key == job.LogKey(1 + i) && !job.Clash(i)
    ensures Got(c, Key(job.dev, job.blocks[i])).Some?
    ensures var (c', b) := Got(c, Key(job.dev, job.blocks[i])).value;
            |c'.bufs| == |c.bufs| && Paired(c', job, left, refs, i, a, b) && Roomy(c', job, left, refs, k, u, v)
  {
    var key := Key(job.dev, job.blocks[i]);
    SecondFree(c, job, left, refs, k, i, a, u, v);
    GetAny(c, job, left, refs, {a}, key);
    var (c', b) := Got(c, key).value;
    assert {a} + {b} == {a, b};
    StillRoomy(c, c', job, left, refs, k, u, v, b);
  }

  lemma DropOne(c: Cache, job: Job, left: set<nat>, refs: seq<nat>, mine: set<nat>, b: nat)
    requires Backed(c, job, left, refs, mine) && b in mine && b < |c.bufs|
    ensures b in c.ring && c.bufs[b].refcnt > 0
    ensures var c' := Dropped(c, b);
            Backed(c', job, left, refs, mine - {b}) && |c'.bufs| == |c.bufs| && c'.bufs == c.bufs[b := Ref(c.bufs[b], -1)]
  {
    var c' := Dropped(c, b);
    FrontPermutes(c.ring, |c.bufs|, b);
    StillCached(c, c', b, job.dev, left);
  }

  /** bwrite: the buffer is valid and clean afterwards. */
  function Written(c: Cache, b: nat, d: Block): (r: Cache)
    requires b < |c.bufs|
  {
    Cache(c.bufs[b := Buf(c.bufs[b].key, true, false, c.bufs[b].refcnt, d)], c.ring)
  }

  /** bwrite by the committer: the block, if it was waiting to be written home, no longer is. */
  lemma WriteAny(c: Cache, job: Job, left: set<nat>, refs: seq<nat>, mine: set<nat>, b: nat, d: Block)
    requires Backed(c, job, left, refs, mine) && b < |c.bufs| && c.bufs[b].key.dev == job.dev
    ensures Backed(Written(c, b, d), job, left - {c.bufs[b].key.blockno}, refs, mine)
  {
    var x, c' := c.bufs[b], Written(c, b, d);
    StillCached(c, c', b, job.dev, left);
    forall a: nat | a < |c.bufs| && a != b ensures c.bufs[a].key != x.key { }
  }

  /** If it was, its buffer is one more to spare, unless somebody else holds it. */
  lemma WriteRoom(c: Cache, job: Job, left: set<nat>, refs: seq<nat>, mine: set<nat>, b: nat, d: Block, k: nat, u: nat, v: nat)
      returns (v': nat)
    requires Backed(c, job, left, refs, mine) && Roomy(c, job, left, refs, k, u, v) && b < |c.bufs| && c.bufs[b].key.dev == job.dev
    ensures Roomy(Written(c, b, d), job, left - {c.bufs[b].key.blockno}, refs, k, u, v')
  {
    var c', left' := Written(c, b, d), left - {c.bufs[b].key.blockno};
    StillRoomy(c, c', job, left, refs, k, u, v, b);
    v' := v;
    if u == v {
      if c.bufs[b].dirty && refs[b] == 0 {
        v' := b;
      } else {
        forall i | k <= i < |job.blocks| ensures job.blocks[i] in left' || Held(c', refs, Key(job.dev, job.blocks[i])) {
          if job.blocks[i] == c.bufs[b].key.blockno && job.blocks[i] in left {
            assert Waits(c.bufs[b].key, job.dev, left);
            assert c'.bufs[b].key == Key(job.dev, job.blocks[i]);
          }
        }
      }
    }
  }

  // ---- commit ----

  /** bget can give the committer nothing: there is something to commit and every buffer is dirty or in use. */
  ghost predicate Stuck(c: Cache, job: Job) { job.blocks != [] && forall b: nat :: b < |c.bufs| ==> b in Busy(c) }

  /** In a full cache the first log block cannot be had. */
  lemma StuckAt(c: Cache, job: Job, refs: seq<nat>)
    requires Backed(c, job, job.All(), refs, {}) && Stuck(c, job)
    ensures Got(c, job.LogKey(1)).None?
  {
    GotNoneIff(c, job.LogKey(1));
    assert job.InLog(job.LogKey(1));
    forall b: nat | b < |c.bufs| ensures c.bufs[b].key != job.LogKey(1) { assert b in Busy(c); }
  }

  /** How a call that uses buffers ends: Asleep is a bread that waits for a buffer its caller has locked. */
  datatype End = Finished | Panicked | Asleep

  /** The committer has log block 1 + i in buffer a and logged block i in b. */
  ghost predicate Paired(c: Cache, job: Job, left: set<nat>, refs: seq<nat>, i: nat, a: nat, b: nat) {
    && Backed(c, job, left, refs, {a, b}) && a != b && a < |c.bufs| && b < |c.bufs| && i < |job.blocks|
    && c.bufs[a].key == job.LogKey(1 + i) && c.bufs[b].key == Key(job.dev, job.blocks[i])
  }

  /** Where a round starts: with a buffer to spare, or, in the first one, with none. */
  ghost predicate Begins(c: Cache, job: Job, left: set<nat>, refs: seq<nat>, k: nat, i: nat, u: nat, v: nat) {
    && Backed(c, job, left, refs, {}) && k <= i < |job.blocks|
    && (Roomy(c, job, left, refs, k, u, v) || (i == 0 && left == job.All() && Stuck(c, job)))
  }

  lemma RoomyNotStuck(c: Cache, job: Job, left: set<nat>, refs: seq<nat>, k: nat, u: nat, v: nat)
    requires Backed(c, job, left, refs, {}) && Roomy(c, job, left, refs, k, u, v)
    ensures !Stuck(c, job)
  {
    assert u !in Busy(c);
  }

  /** The breads of log block 1 + i and of logged block i. */
  method GetPair(bc: Bcache, job: Job, i: nat, ghost left: set<nat>, ghost refs: seq<nat>, ghost k: nat, ghost u: nat, ghost v: nat)
      returns (r: End, a: nat, b: nat)
    requires bc.Valid() && Begins(bc.C(), job, left, refs, k, i, u, v)
    modifies bc.buf
    ensures r.Panicked? <==> Stuck(old(bc.C()), job)
    ensures r.Asleep? <==> !Stuck(old(bc.C()), job) && job.Clash(i)
    ensures r.Finished? ==> bc.Valid() && Paired(bc.C(), job, left, refs, i, a, b) && Roomy(bc.C(), job, left, refs, k, u, v)
  {
    a, b := 0, 0;
    if Roomy(bc.C(), job, left, refs, k, u, v) {
      RoomyNotStuck(bc.C(), job, left, refs, k, u, v);
      GetFirst(bc.C(), job, left, refs, job.LogKey(1 + i), k, u, v);
    } else {
      StuckAt(bc.C(), job, refs);
    }
    var got := bc.Bget(job.LogKey(1 + i));
    if got.None? { return Panicked, a, b; }
    a := got.value;
    if job.lay.start + 1 + i == job.blocks[i] { return Asleep, a, b; }
    GetSecond(bc.C(), job, left, refs, k, i, a, u, v);
    got := bc.Bget(Key(job.dev, job.blocks[i]));
    if got.None? { return Panicked, a, b; }
    return Finished, a, got.value;
  }

  /** Their brelses. */
  method DropPair(bc: Bcache, job: Job, a: nat, b: nat, ghost left: set<nat>, ghost refs: seq<nat>,
      ghost k: nat, ghost u: nat, ghost v: nat)
    requires bc.Valid() && Backed(bc.C(), job, left, refs, {a, b}) && a != b && a < bc.buf.Length && b < bc.buf.Length
    requires Roomy(bc.C(), job, left, refs, k, u, v)
    modifies bc, bc.buf, bc.next, bc.prev
    ensures bc.Valid() && Backed(bc.C(), job, left, refs, {}) && Roomy(bc.C(), job, left, refs, k, u, v)
  {
    ghost var c0 := bc.C();
    DropOne(c0, job, left, refs, {a, b}, a);
    bc.Brelse(a);
    StillRoomy(c0, bc.C(), job, left, refs, k, u, v, a);
    assert {a, b} - {a} == {b};
    ghost var c1 := bc.C();
    DropOne(c1, job, left, refs, {b}, b);
    bc.Brelse(b);
    StillRoomy(c1, bc.C(), job, left, refs, k, u, v, b);
    assert {b} - {b} == {};
  }

  /** bwrite with the data given. */
  method PutData(bc: Bcache, b: nat, d: Block)
    requires bc.Valid() && b < bc.buf.Length
    modifies bc.buf
    ensures bc.Valid() && bc.C() == Written(old(bc.C()), b, d)
  {
    bc.buf[b] := Buf(bc.buf[b].key, true, false, bc.buf[b].refcnt, d);
  }

  /** memmove between the two, bwrite of `to`, brelses. */
  method CopyOne(bc: Bcache, job: Job, from: nat, to: nat, ghost x: nat, ghost left: set<nat>, ghost refs: seq<nat>,
      ghost k: nat, ghost u: nat, ghost v: nat) returns (ghost v': nat)
    requires bc.Valid() && Backed(bc.C(), job, left, refs, {from, to}) && from != to && from < bc.buf.Length && to < bc.buf.Length
    requires bc.buf[to].key == Key(job.dev, x) && Roomy(bc.C(), job, left, refs, k, u, v)
    modifies bc, bc.buf, bc.next, bc.prev
    ensures bc.Valid() && Backed(bc.C(), job, left - {x}, refs, {}) && Roomy(bc.C(), job, left - {x}, refs, k, u, v')
  {
    var d := bc.buf[from].data;
    ghost var left' := left - {x};
    WriteAny(bc.C(), job, left, refs, {from, to}, to, d);
    v' := WriteRoom(bc.C(), job, left, refs, {from, to}, to, d, k, u, v);
    PutData(bc, to, d);
    DropPair(bc, job, from, to, left', refs, k, u, v');
  }

  /** One round of write_log. */
  method LogOne(bc: Bcache, job: Job, i: nat, ghost left: set<nat>, ghost refs: seq<nat>, ghost u: nat, ghost v: nat)
      returns (r: End, ghost v': nat)
    requires bc.Valid() && Begins(bc.C(), job, left, refs, 0, i, u, v)
    modifies bc, bc.buf, bc.next, bc.prev
    ensures r.Panicked? <==> Stuck(old(bc.C()), job)
    ensures r.Asleep? <==> !Stuck(old(bc.C()), job) && job.Clash(i)
    ensures r.Finished? ==> bc.Valid() && Backed(bc.C(), job, left - {job.lay.start + 1 + i}, refs, {})
    ensures r.Finished? ==> Roomy(bc.C(), job, left - {job.lay.start + 1 + i}, refs, 0, u, v')
  {
    v' := v;
    var to, from;
    r, to, from := GetPair(bc, job, i, left, refs, 0, u, v);
    if !r.Finished? { return; }
    ghost var c := bc.C();
    assert Backed(c, job, left, refs, {from, to}) && c.bufs[to].key == Key(job.dev, job.lay.start + 1 + i) by {
      assert {from, to} == {to, from};
    }
    v' := CopyOne(bc, job, from, to, job.lay.start + 1 + i, left, refs, 0, u, v);
  }

  /** One round of install_trans. */
  method InstallOne(bc: Bcache, job: Job, i: nat, ghost left: set<nat>, ghost refs: seq<nat>, ghost u: nat, ghost v: nat)
      returns (r: End, ghost v': nat)
    requires bc.Valid() && Backed(bc.C(), job, left, refs, {}) && i < |job.blocks| && Roomy(bc.C(), job, left, refs, i, u, v)
    modifies bc, bc.buf, bc.next, bc.prev
    ensures if job.Clash(i) then r.Asleep? else r.Finished?
    ensures r.Finished? ==> bc.Valid() && Backed(bc.C(), job, left - {job.blocks[i]}, refs, {})
    ensures r.Finished? ==> Roomy(bc.C(), job, left - {job.blocks[i]}, refs, i + 1, u, v')
  {
    v' := v;
    var lbuf, dbuf;
    RoomyNotStuck(bc.C(), job, left, refs, i, u, v);
    r, lbuf, dbuf := GetPair(bc, job, i, left, refs, i, u, v);
    if !r.Finished? { return; }
    v' := CopyOne(bc, job, lbuf, dbuf, job.blocks[i], left, refs, i, u, v);
  }

  /** write_head's bread, bwrite and brelse; d is the new header. */
  method HeadOne(bc: Bcache, job: Job, d: Block, ghost left: set<nat>, ghost refs: seq<nat>, ghost k: nat, ghost u: nat, ghost v: nat)
      returns (r: End)
    requires bc.Valid() && Backed(bc.C(), job, left, refs, {}) && Roomy(bc.C(), job, left, refs, k, u, v) && 0 < job.lay.size
    modifies bc, bc.buf, bc.next, bc.prev
    ensures r.Finished? && bc.Valid() && Backed(bc.C(), job, left, refs, {}) && Roomy(bc.C(), job, left, refs, k, u, v)
  {
    GetFirst(bc.C(), job, left, refs, job.LogKey(0), k, u, v);
    var got := bc.Bget(job.LogKey(0));
    if got.None? { return Panicked; }
    var b := got.value;
    ghost var c1 := bc.C();
    NotLeft(job, left);
    WriteAny(c1, job, left, refs, {b}, b, d);
    StillRoomy(c1, Written(c1, b, d), job, left, refs, k, u, v, b);
    PutData(bc, b, d);
    ghost var c2 := bc.C();
    DropOne(c2, job, left, refs, {b}, b);
    bc.Brelse(b);
    StillRoomy(c2, bc.C(), job, left, refs, k, u, v, b);
    assert {b} - {b} == {};
    r := Finished;
  }

  lemma NotLeft(job: Job, left: set<nat>)
    requires job.Ok() && left <= job.All() && 0 < job.lay.size
    ensures left - {job.lay.start} == left
  {
    assert job.lay.InLog(job.lay.start);
  }

  /** write_log. */
  method LogAll(bc: Bcache, job: Job, ghost refs: seq<nat>, ghost u: nat) returns (r: End, ghost left: set<nat>, ghost v: nat)
    requires bc.Valid() && Begins(bc.C(), job, job.All(), refs, 0, 0, u, u)
    modifies bc, bc.buf, bc.next, bc.prev
    ensures r.Panicked? <==> Stuck(old(bc.C()), job)
    ensures r.Asleep? <==> !Stuck(old(bc.C()), job) && exists i :: 0 <= i < |job.blocks| && job.Clash(i)
    ensures r.Finished? ==> bc.Valid() && Backed(bc.C(), job, left, refs, {}) && Roomy(bc.C(), job, left, refs, 0, u, v)
  {
    left, v := job.All(), u;
    r, v := LogOne(bc, job, 0, left, refs, u, v);
    if !r.Finished? { return; }
    left := left - {job.lay.start + 1};
    var i := 1;
    while i < |job.blocks|
      invariant 1 <= i <= |job.blocks| && bc.Valid() && Backed(bc.C(), job, left, refs, {}) && Roomy(bc.C(), job, left, refs, 0, u, v)
      invariant r.Finished? && forall j :: 0 <= j < i ==> !job.Clash(j)
    {
      RoomyNotStuck(bc.C(), job, left, refs, 0, u, v);
      r, v := LogOne(bc, job, i, left, refs, u, v);
      if !r.Finished? { return; }
      left := left - {job.lay.start + 1 + i};
      i := i + 1;
    }
  }

  /** install_trans. */
  method InstallAll(bc: Bcache, job: Job, ghost left0: set<nat>, ghost refs: seq<nat>, ghost u: nat, ghost v0: nat)
      returns (r: End, ghost v: nat)
    requires bc.Valid() && Backed(bc.C(), job, left0, refs, {}) && Roomy(bc.C(), job, left0, refs, 0, u, v0)
    requires forall j :: 0 <= j < |job.blocks| ==> !job.Clash(j)
    modifies bc, bc.buf, bc.next, bc.prev
    ensures r.Finished? && bc.Valid() && Backed(bc.C(), job, {}, refs, {}) && Roomy(bc.C(), job, {}, refs, |job.blocks|, u, v)
  {
    ghost var left := left0;
    r, v := Finished, v0;
    var i := 0;
    while i < |job.blocks|
      invariant 0 <= i <= |job.blocks| && bc.Valid() && Backed(bc.C(), job, left, refs, {}) && Roomy(bc.C(), job, left, refs, i, u, v)
      invariant r.Finished? && forall j :: 0 <= j < i ==> job.blocks[j] !in left
    {
      r, v := InstallOne(bc, job, i, left, refs, u, v);
      left := left - {job.blocks[i]};
      i := i + 1;
    }
    assert left == {};
  }

  /** commit's use of the cache, others keeping the references they have.  It panics in bget exactly when
      every buffer is dirty or in use; it waits for itself exactly when, with a buffer to spare, a block is
      copied to its own log block; otherwise it leaves every block of the transaction clean. */
  method CommitBuffers(bc: Bcache, job: Job, head: Block, empty: Block, ghost refs: seq<nat>) returns (r: End)
    requires bc.Valid() && Backed(bc.C(), job, job.All(), refs, {})
    modifies bc, bc.buf, bc.next, bc.prev
    ensures r.Panicked? <==> Stuck(old(bc.C()), job)
    ensures r.Asleep? <==> !Stuck(old(bc.C()), job) && exists i :: 0 <= i < |job.blocks| && job.Clash(i)
    ensures r.Finished? ==> bc.Valid() && Backed(bc.C(), job, {}, refs, {})
  {
    if job.blocks == [] {
      assert job.All() == {};
      return Finished;
    }
    ghost var u := SpareOne(bc.C(), job, refs);
    ghost var left, v;
    r, left, v := LogAll(bc, job, refs, u);
    if !r.Finished? { return; }
    r := HeadOne(bc, job, head, left, refs, 0, u, v);
    if !r.Finished? { return; }
    r, v := InstallAll(bc, job, left, refs, u, v);
    r := HeadOne(bc, job, empty, {}, refs, |job.blocks|, u, v);
  }

  lemma SpareOne(c: Cache, job: Job, refs: seq<nat>) returns (u: nat)
    requires Backed(c, job, job.All(), refs, {}) && job.blocks != []
    ensures Stuck(c, job) || Roomy(c, job, job.All(), refs, 0, u, u)
  {
    u := 0;
    if !Stuck(c, job) {
      u :| u < |c.bufs| && u !in Busy(c);
    }
  }

  // ---- how many buffers that takes ----

  /** Buffers that are dirty, and those that are clean but referenced. */
  ghost function Dirty(c: Cache): (r: set<nat>) { set b: nat | b < |c.bufs| && c.bufs[b].dirty }

  ghost function Pinned(c: Cache): (r: set<nat>) { set b: nat | b < |c.bufs| && !c.bufs[b].dirty && c.bufs[b].refcnt > 0 }

  /** The buffers of the first k logged blocks. */
  ghost function Homes(c: Cache, job: Job, k: nat): (r: set<nat>)
    requires k <= |job.blocks|
  {
    set b: nat | b < |c.bufs| && c.bufs[b].key.dev == job.dev && c.bufs[b].key.blockno in job.blocks[..k]
  }

  lemma HomesNext(c: Cache, job: Job, k: nat, b: nat)
    requires job.Ok() && Unique(c) && k < |job.blocks| && b < |c.bufs| && c.bufs[b].key == Key(job.dev, job.blocks[k])
    ensures b !in Homes(c, job, k) && Homes(c, job, k + 1) == Homes(c, job, k) + {b}
  {
    assert job.blocks[..k + 1] == job.blocks[..k] + [job.blocks[k]];
    assert job.blocks[k] !in job.blocks[..k];
    forall a | a in Homes(c, job, k + 1) && a !in Homes(c, job, k) ensures a == b {
      assert c.bufs[a].key == c.bufs[b].key;
    }
  }

  /** Each logged block has one buffer. */
  lemma {:induction false} HomesSize(c: Cache, job: Job, k: nat)
    requires job.Ok() && Unique(c) && k <= |job.blocks|
    requires forall i :: 0 <= i < |job.blocks| ==> Cached(c, Key(job.dev, job.blocks[i]))
    ensures |Homes(c, job, k)| == k
  {
    if k == 0 {
      assert Homes(c, job, 0) == {};
    } else {
      HomesSize(c, job, k - 1);
      var b: nat :| b < |c.bufs| && c.bufs[b].key == Key(job.dev, job.blocks[k - 1]);
      HomesNext(c, job, k - 1, b);
    }
  }

  lemma DirtySize(c: Cache, job: Job, refs: seq<nat>)
    requires Backed(c, job, job.All(), refs, {})
    ensures |Dirty(c)| == |job.blocks|
  {
    forall i | 0 <= i < |job.blocks| ensures Cached(c, Key(job.dev, job.blocks[i])) { assert job.blocks[i] in job.All(); }
    HomesSize(c, job, |job.blocks|);
    assert job.blocks[..|job.blocks|] == job.blocks;
    assert Dirty(c) == Homes(c, job, |job.blocks|);
  }

  lemma BusySize(c: Cache)
    ensures |Busy(c)| == |Dirty(c)| + |Pinned(c)| && |Busy(c)| <= |c.bufs|
    ensures |Busy(c)| == |c.bufs| <==> forall b: nat :: b < |c.bufs| ==> b in Busy(c)
  {
    assert Busy(c) == Dirty(c) + Pinned(c) && Dirty(c) !! Pinned(c);
    RangeSize(0, |c.bufs|);
    SubsetSize(Busy(c), Range(0, |c.bufs|));
    if |Busy(c)| == |c.bufs| { forall b: nat | b < |c.bufs| ensures b in Busy(c) { assert Lies(b, 0, |c.bufs|) && b in Range(0, |c.bufs|); } }
    if forall b: nat :: b < |c.bufs| ==> b in Busy(c) { assert Busy(c) == Range(0, |c.bufs|); }
  }

  /** So commit panics in bget exactly when the blocks logged and the clean buffers that others refer to
      add up to all the buffers there are. */
  lemma StuckIff(c: Cache, job: Job, refs: seq<nat>)
    requires Backed(c, job, job.All(), refs, {})
    ensures |job.blocks| + |Pinned(c)| <= |c.bufs|
    ensures Stuck(c, job) <==> job.blocks != [] && |job.blocks| + |Pinned(c)| == |c.bufs|
  {
    DirtySize(c, job, refs);
    BusySize(c);
  }

  // ---- over all runs of the log ----

  /** A commit about to start, as the buffer cache sees it. */
  ghost predicate Commits(s: LogProtocol.State, c: Cache, dev: nat) {
    && s.phase.Committing? && s.phase.k == 0
    && var job := Job(dev, s.lay, s.blocks); Backed(c, job, job.All(), seq(|c.bufs|, i => 0), {})
  }

  /** No commit of any run from s0, with operations that log fewer than MAXOPBLOCKS blocks before each
      log_write, is stuck in a cache of nbuf buffers that nobody else uses. */
  ghost predicate CommitsGoOn(s0: LogProtocol.State, nbuf: nat) {
    forall states, steps, c: Cache, dev | LogGroups.FrugalRun(states, steps) && states[0] == s0
        && |c.bufs| == nbuf && Commits(LogCapacity.Last(states), c, dev) ::
      !Stuck(c, Job(dev, s0.lay, LogCapacity.Last(states).blocks))
  }

  lemma MoreBuffers(s0: LogProtocol.State, states: seq<LogProtocol.State>, steps: seq<LogProtocol.Step>, c: Cache, dev: nat)
    requires LogProtocol.Run(states, steps) && states[0] == s0 && Commits(LogCapacity.Last(states), c, dev)
    requires LogCapacity.Most(s0.lay.size) < |c.bufs|
    ensures !Stuck(c, Job(dev, s0.lay, LogCapacity.Last(states).blocks))
  {
    LogProtocol.BasicAlways(states, steps, |states| - 1);
    LogCapacity.MostAlways(states, steps, |states| - 1);
    var refs := seq(|c.bufs|, i => 0);
    StuckIff(c, Job(dev, s0.lay, LogCapacity.Last(states).blocks), refs);
    assert Pinned(c) == {};
  }

  /** Three operations log nbuf blocks and end.  Meanwhile their breads, log_writes and brelses fill a cache
      of nbuf buffers: the commit finds nothing left. */
  lemma FullCache(s0: LogProtocol.State, b0: BioRuns.State, nbuf: nat)
      returns (states: seq<LogProtocol.State>, steps: seq<LogProtocol.Step>, trace: seq<BioRuns.State>, moves: seq<BioRuns.Step>)
    requires LogProtocol.Init(s0) && 0 < nbuf <= LogCapacity.Most(s0.lay.size) && s0.lay.start + s0.lay.size + nbuf <= |s0.disk|
    requires BioRuns.Init(b0) && |b0.cache.bufs| == nbuf && forall b: nat :: b < |s0.disk| ==> Key(1, b) in b0.disk
    ensures LogGroups.FrugalRun(states, steps) && states[0] == s0 && BioRuns.Behaviour(trace, moves) && trace[0] == b0
    ensures var c := BioFull.Last(trace).cache;
      && |c.bufs| == nbuf && Commits(LogCapacity.Last(states), c, 1)
      && Stuck(c, Job(1, s0.lay, LogCapacity.Last(states).blocks))
  {
    states, steps := LogCapacity.FillAndEnd(s0, nbuf, s0.disk[s0.lay.start]);
    var s := LogCapacity.Last(states);
    forall i | 0 <= i < |s.blocks| ensures Key(1, s.blocks[i]) in b0.disk { assert LogDisk.Home(s.lay, s.disk, s.blocks[i]); }
    trace, moves := BioFull.AllLogged(b0, 1, s.blocks);
    var end := BioFull.Last(trace);
    assert BioRuns.Inv(end) by { BioRuns.InvAlways(trace, moves, |moves|); }
    AllDirty(end.cache, Job(1, s0.lay, s.blocks));
  }

  /** A cache with one dirty buffer for each block and no other buffer. */
  lemma AllDirty(c: Cache, job: Job)
    requires job.Ok() && job.blocks != [] && |c.bufs| == |job.blocks| && Permutation(c.ring, |c.bufs|) && BioRuns.Unique(c)
    requires BioFull.Full(c, job.dev, job.blocks, |job.blocks|)
    ensures Backed(c, job, job.All(), seq(|c.bufs|, i => 0), {}) && Stuck(c, job)
  {
    assert job.blocks[..|job.blocks|] == job.blocks;
    RangeSize(0, |c.bufs|);
    if BioFull.Dirty(c) != Range(0, |c.bufs|) {
      SubsetSize(BioFull.Dirty(c), Range(0, |c.bufs|));
    }
    forall b: nat | b < |c.bufs| ensures c.bufs[b].dirty && BioFull.Right(c.bufs[b], job.dev, job.blocks) {
      assert b in Range(0, |c.bufs|);
    }
    forall x | x in job.All() ensures Cached(c, Key(job.dev, x)) {
      var i :| 0 <= i < |job.blocks| && job.blocks[i] == x;
    }
  }

  /** An empty cache over a disk that has every block. */
  lemma EmptyCache(nbuf: nat, size: nat) returns (b0: BioRuns.State)
    ensures BioRuns.Init(b0) && |b0.cache.bufs| == nbuf && forall b: nat :: b < size ==> Key(1, b) in b0.disk
  {
    var disk := map b: nat | b < size :: Key(1, b) := [];
    var c := Cache(seq(nbuf, i => Buf(Key(0, 0), false, false, 0, [])), seq(nbuf, i => i));
    forall b: nat | b < nbuf ensures b in c.ring { assert c.ring[b] == b; }
    b0 := BioRuns.State(c, map[], map[], disk, disk);
  }

  /** The commits of such runs all find their buffers exactly when the cache has more of them than the list
      of logged blocks can get long. */
  lemma CommitsGoOnIff(s0: LogProtocol.State, nbuf: nat)
    requires LogProtocol.Init(s0) && s0.lay.start + 2 * s0.lay.size + 1 <= |s0.disk| && 0 < nbuf
    ensures CommitsGoOn(s0, nbuf) <==> LogCapacity.Most(s0.lay.size) < nbuf
  {
    if LogCapacity.Most(s0.lay.size) < nbuf {
      forall states, steps, c: Cache, dev | LogGroups.FrugalRun(states, steps) && states[0] == s0
          && |c.bufs| == nbuf && Commits(LogCapacity.Last(states), c, dev)
        ensures !Stuck(c, Job(dev, s0.lay, LogCapacity.Last(states).blocks))
      {
        MoreBuffers(s0, states, steps, c, dev);
      }
    } else {
      var b0 := EmptyCache(nbuf, |s0.disk|);
      var states, steps, trace, moves := FullCache(s0, b0, nbuf);
    }
  }

  /** Neither log_write's and end_op's own panics nor bget's in a commit occur, in any such run, exactly when
      both the log area and the cache are larger than LOGSIZE. */
  lemma NoPanicIff(s0: LogProtocol.State, nbuf: nat)
    requires LogProtocol.Init(s0) && s0.lay.start + 2 * s0.lay.size + 1 <= |s0.disk| && 0 < nbuf
    ensures && (forall states, steps | LogGroups.FrugalRun(states, steps) && states[0] == s0 :: !LogCapacity.Last(states).panicked)
            && CommitsGoOn(s0, nbuf)
            <==> LOGSIZE < s0.lay.size && LOGSIZE < nbuf
  {
    LogCapacity.NeverPanicsIff(s0);
    CommitsGoOnIff(s0, nbuf);
  }

  /** param.h makes NBUF equal to LOGSIZE, so no size of the log area excludes both. */
  lemma NoSizeIsSafe(s0: LogProtocol.State)
    requires LogProtocol.Init(s0) && s0.lay.start + 2 * s0.lay.size + 1 <= |s0.disk|
    ensures CommitsGoOn(s0, NBUF) ==>
              exists states, steps :: LogGroups.FrugalRun(states, steps) && states[0] == s0 && LogCapacity.Last(states).panicked
  {
    CommitsGoOnIff(s0, NBUF);
    if s0.lay.size <= LOGSIZE { var states, steps := LogCapacity.SmallLogPanics(s0); }
  }

  /** mkfs.c makes log.size equal to LOGSIZE: there a commit can be stuck. */
  lemma ShippedSizesStick(s0: LogProtocol.State)
    requires LogProtocol.Init(s0) && s0.lay.start + 2 * s0.lay.size + 1 <= |s0.disk| && s0.lay.size == LOGSIZE
    ensures !CommitsGoOn(s0, NBUF)
  {
    CommitsGoOnIff(s0, NBUF);
  }
}
