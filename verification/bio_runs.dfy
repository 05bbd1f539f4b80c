/** The buffer cache in use by any number of callers at once.

    A handle is one bget ... brelse session.  bget's and brelse's sections under
    bcache.lock, taking and releasing the buffer's sleep lock, and a disk transfer
    are one step each.  `logical` is what each block holds as far as callers can
    tell: the last contents given to it by a caller that had it locked. */
module BioRuns {
  import opened Common
  import opened BioCache

  datatype Stage = Waiting | Holding | Leaving

  /** `changed`: the caller has modified the data and has still to log or write it. */
  datatype Handle = Handle(key: Key, b: nat, stage: Stage, changed: bool)

  datatype State = State(
    cache: Cache, locks: map<nat, nat>, handles: map<nat, Handle>, disk: map<Key, Block>, logical: map<Key, Block>)
  {
    predicate Has(h: nat) { h in handles && handles[h].b < |cache.bufs| }

    function BufOf(h: nat): (b: Buf)
      requires Has(h)
    {
      cache.bufs[handles[h].b]
    }
  }

  datatype Step =
    | Get(h: nat, key: Key)        // bget's section; recycling included
    | Acquire(h: nat)              // acquiresleep
    | Fill(h: nat)                 // bread: iderw on an invalid buffer
    | Modify(h: nat, d: Block)     // the caller writes b->data
    | LogWrite(h: nat)             // log_write marks the buffer dirty
    | Write(h: nat)                // bwrite
    | Unlock(h: nat)               // brelse: releasesleep
    | Drop(h: nat)                 // brelse's section

  predicate InRing(c: Cache) { forall j :: 0 <= j < |c.ring| ==> c.ring[j] < |c.bufs| }

  predicate Locked(s: State, h: nat) { s.Has(h) && s.handles[h].stage.Holding? }

  ghost predicate Enabled(s: State, step: Step) {
    InRing(s.cache) &&
    match step
    case Get(h, key) => h !in s.handles && key.dev != 0 && key in s.disk && Got(s.cache, key).Some?
    case Acquire(h) => s.Has(h) && s.handles[h].stage.Waiting? && s.handles[h].b !in s.locks
    case Fill(h) => Locked(s, h) && !s.BufOf(h).valid && s.handles[h].key in s.disk
    case Modify(h, _) => Locked(s, h) && s.BufOf(h).valid
    case LogWrite(h) => Locked(s, h) && s.BufOf(h).valid
    case Write(h) => Locked(s, h) && s.BufOf(h).valid
    case Unlock(h) => Locked(s, h) && !s.handles[h].changed
    case Drop(h) => s.Has(h) && s.handles[h].stage.Leaving? && s.handles[h].b in s.cache.ring && s.BufOf(h).refcnt > 0
  }

  /** The state with buffer b replaced. */
  function PutBuf(c: Cache, b: nat, x: Buf): (r: Cache)
    requires b < |c.bufs|
  {
    Cache(c.bufs[b := x], c.ring)
  }

  function DoGet(s: State, h: nat, key: Key): (t: State)
    requires InRing(s.cache) && Got(s.cache, key).Some?
  {
    var g := Got(s.cache, key).value;
    State(g.0, s.locks, s.handles[h := Handle(key, g.1, Waiting, false)], s.disk, s.logical)
  }

  function DoAcquire(s: State, h: nat): (t: State)
    requires s.Has(h)
  {
    var x := s.handles[h];
    State(s.cache, s.locks[x.b := h], s.handles[h := Handle(x.key, x.b, Holding, false)], s.disk, s.logical)
  }

  function DoUnlock(s: State, h: nat): (t: State)
    requires s.Has(h)
  {
    var x := s.handles[h];
    State(s.cache, s.locks - {x.b}, s.handles[h := Handle(x.key, x.b, Leaving, false)], s.disk, s.logical)
  }

  /** The holder h of a lock replaces its buffer. */
  function DoData(s: State, h: nat, y: Buf, changed: bool, disk: map<Key, Block>, logical: map<Key, Block>): (t: State)
    requires s.Has(h)
  {
    var x := s.handles[h];
    State(PutBuf(s.cache, x.b, y), s.locks, s.handles[h := Handle(x.key, x.b, x.stage, changed)], disk, logical)
  }

  function DoFill(s: State, h: nat): (t: State)
    requires s.Has(h) && s.handles[h].key in s.disk
  {
    var y := s.BufOf(h);
    DoData(s, h, Buf(y.key, true, y.dirty, y.refcnt, s.disk[s.handles[h].key]), s.handles[h].changed, s.disk, s.logical)
  }

  function DoModify(s: State, h: nat, d: Block): (t: State)
    requires s.Has(h)
  {
    var y := s.BufOf(h);
    DoData(s, h, Buf(y.key, y.valid, y.dirty, y.refcnt, d), true, s.disk, s.logical[s.handles[h].key := d])
  }

  function DoLogWrite(s: State, h: nat): (t: State)
    requires s.Has(h)
  {
    var y := s.BufOf(h);
    DoData(s, h, Buf(y.key, y.valid, true, y.refcnt, y.data), false, s.disk, s.logical)
  }

  /** bwrite: B_DIRTY set, and iderw writes the data, clears it and sets B_VALID. */
  function DoWrite(s: State, h: nat): (t: State)
    requires s.Has(h)
  {
    var y := s.BufOf(h);
    DoData(s, h, Buf(y.key, true, false, y.refcnt, y.data), false, s.disk[y.key := y.data], s.logical)
  }

  function DoDrop(s: State, h: nat): (t: State)
    requires s.Has(h) && s.handles[h].b in s.cache.ring && s.BufOf(h).refcnt > 0
  {
    State(Dropped(s.cache, s.handles[h].b), s.locks, s.handles - {h}, s.disk, s.logical)
  }

  function Do(s: State, step: Step): (t: State)
    requires Enabled(s, step)
  {
    match step
    case Get(h, key) => DoGet(s, h, key)
    case Acquire(h) => DoAcquire(s, h)
    case Fill(h) => DoFill(s, h)
    case Modify(h, d) => DoModify(s, h, d)
    case LogWrite(h) => DoLogWrite(s, h)
    case Write(h) => DoWrite(s, h)
    case Unlock(h) => DoUnlock(s, h)
    case Drop(h) => DoDrop(s, h)
  }

  /** After binit: every buffer unused, and nothing cached. */
  ghost predicate Init(s: State) {
    && Permutation(s.cache.ring, |s.cache.bufs|) && s.locks == map[] && s.handles == map[] && s.logical == s.disk
    && (forall b :: 0 <= b < |s.cache.bufs| ==> s.cache.bufs[b].key.dev == 0 && !s.cache.bufs[b].valid
                                                && !s.cache.bufs[b].dirty && s.cache.bufs[b].refcnt == 0)
    && forall k :: k in s.disk ==> k.dev != 0
  }

  // ---- the invariants ----

  ghost function Refs(handles: map<nat, Handle>, b: nat): (r: set<nat>) { set h | h in handles && handles[h].b == b }

  /** Handles point at buffers that have their block; reference counts count them; locks are held by one. */
  ghost predicate HandlesOk(s: State) {
    && Permutation(s.cache.ring, |s.cache.bufs|)
    && (forall h :: h in s.handles ==> s.Has(h) && s.BufOf(h).key == s.handles[h].key && s.handles[h].key.dev != 0)
    && (forall b: nat :: b < |s.cache.bufs| ==> s.cache.bufs[b].refcnt == |Refs(s.handles, b)|)
    && LocksOk(s)
  }

  /** A lock names the one handle that holds it; only a holder changes data. */
  ghost predicate LocksOk(s: State) {
    && (forall b :: b in s.locks ==> Locked(s, s.locks[b]) && s.handles[s.locks[b]].b == b)
    && (forall h :: Locked(s, h) ==> s.handles[h].b in s.locks && s.locks[s.handles[h].b] == h)
    && (forall h :: h in s.handles && s.handles[h].changed ==> s.handles[h].stage.Holding?)
  }

  /** At most one buffer names a block. */
  ghost predicate Unique(c: Cache) {
    forall i: nat, j: nat :: i < |c.bufs| && j < |c.bufs| && c.bufs[i].key == c.bufs[j].key && c.bufs[i].key.dev != 0 ==> i == j
  }

  /** Nobody is between modifying buffer b and logging or writing it. */
  ghost predicate Settled(s: State, b: nat) {
    forall h :: h in s.handles && s.handles[h].b == b ==> !s.handles[h].changed
  }

  ghost predicate BufOk(s: State, b: nat)
    requires b < |s.cache.bufs|
  {
    var x := s.cache.bufs[b];
    && (x.dirty ==> x.valid)
    && (x.valid && x.key.dev != 0 ==> x.key in s.logical && x.data == s.logical[x.key])
    && (x.valid && !x.dirty && x.key.dev != 0 && Settled(s, b) ==> x.key in s.disk && s.disk[x.key] == x.data)
  }

  predicate Caches(c: Cache, key: Key) { exists b: nat :: b < |c.bufs| && c.bufs[b].key == key && c.bufs[b].valid }

  ghost predicate ContentsOk(s: State) {
    && s.disk.Keys == s.logical.Keys && (forall k :: k in s.disk ==> k.dev != 0)
    && (forall b: nat :: b < |s.cache.bufs| ==> BufOk(s, b))
    && (forall k :: k in s.disk && !Caches(s.cache, k) ==> s.disk[k] == s.logical[k])
    && (forall h :: h in s.handles ==> s.handles[h].key in s.disk)
  }

  ghost predicate Inv(s: State) { HandlesOk(s) && Unique(s.cache) && ContentsOk(s) }

  lemma InitInv(s: State)
    requires Init(s)
    ensures Inv(s)
  {
    forall b: nat | b < |s.cache.bufs| ensures s.cache.bufs[b].refcnt == |Refs(s.handles, b)| {
      assert Refs(s.handles, b) == {};
    }
  }

  // ---- steps that change data only ----

  predicate SameBuf(x: Buf, y: Buf) { x.key == y.key && x.refcnt == y.refcnt }

  predicate SameHandle(x: Handle, y: Handle) { x.key == y.key && x.b == y.b && x.stage == y.stage }

  /** Buffers keep their block and count, handles their place. */
  ghost predicate SameShape(s: State, t: State) {
    && |t.cache.bufs| == |s.cache.bufs| && t.cache.ring == s.cache.ring && t.locks == s.locks
    && t.handles.Keys == s.handles.Keys
    && (forall b :: 0 <= b < |s.cache.bufs| ==> SameBuf(t.cache.bufs[b], s.cache.bufs[b]))
    && (forall h :: h in s.handles ==> SameHandle(t.handles[h], s.handles[h]))
    && (forall h :: h in t.handles && t.handles[h].changed ==> t.handles[h].stage.Holding?)
  }

  lemma ShapeHandles(s: State, t: State)
    requires HandlesOk(s) && Unique(s.cache) && SameShape(s, t)
    ensures HandlesOk(t) && Unique(t.cache)
  {
    forall b: nat | b < |t.cache.bufs| ensures t.cache.bufs[b].refcnt == |Refs(t.handles, b)| {
      assert Refs(t.handles, b) == Refs(s.handles, b);
      assert SameBuf(t.cache.bufs[b], s.cache.bufs[b]);
    }
    forall i: nat, j: nat | i < |t.cache.bufs| && j < |t.cache.bufs| && t.cache.bufs[i].key == t.cache.bufs[j].key
                            && t.cache.bufs[i].key.dev != 0
      ensures i == j
    {
      assert SameBuf(t.cache.bufs[i], s.cache.bufs[i]) && SameBuf(t.cache.bufs[j], s.cache.bufs[j]);
    }
    forall h | h in t.handles
      ensures t.Has(h) && t.BufOf(h).key == t.handles[h].key && t.handles[h].key.dev != 0
              && (Locked(t, h) ==> t.handles[h].b in t.locks && t.locks[t.handles[h].b] == h)
    {
      assert SameHandle(t.handles[h], s.handles[h]) && SameBuf(t.cache.bufs[t.handles[h].b], s.cache.bufs[s.handles[h].b]);
      assert Locked(t, h) == Locked(s, h);
    }
    forall b | b in t.locks ensures Locked(t, t.locks[b]) && t.handles[t.locks[b]].b == b {
      assert Locked(s, s.locks[b]) && SameHandle(t.handles[t.locks[b]], s.handles[s.locks[b]]);
    }
  }

  lemma CachesStay(c: Cache, b0: nat, y: Buf, k: Key)
    requires b0 < |c.bufs| && y.key == c.bufs[b0].key && y.valid
    ensures Caches(PutBuf(c, b0, y), y.key) && (Caches(c, k) ==> Caches(PutBuf(c, b0, y), k))
  {
    var r := PutBuf(c, b0, y);
    assert r.bufs[b0].key == y.key;
    if Caches(c, k) {
      var b: nat :| b < |c.bufs| && c.bufs[b].key == k && c.bufs[b].valid;
      assert r.bufs[b].key == k && r.bufs[b].valid;
    }
  }

  /** Buffer y, the disk and the logical contents fit together after a step on y's block. */
  ghost predicate Fitting(s: State, y: Buf, changed: bool, disk: map<Key, Block>, logical: map<Key, Block>) {
    && y.valid && disk.Keys == s.disk.Keys && logical.Keys == s.logical.Keys
    && (forall k :: k in s.disk && k in disk && k in s.logical && k in logical && k != y.key ==>
          disk[k] == s.disk[k] && logical[k] == s.logical[k])
    && y.key in logical && y.data == logical[y.key]
    && (!y.dirty && !changed ==> y.key in disk && disk[y.key] == y.data)
  }

  /** A step by the lock holder h on its own buffer: contents stay right if the new buffer is right. */
  lemma DataContents(s: State, h: nat, y: Buf, changed: bool, disk: map<Key, Block>, logical: map<Key, Block>)
    requires Inv(s) && Locked(s, h) && SameBuf(y, s.BufOf(h)) && Fitting(s, y, changed, disk, logical)
    requires SameShape(s, DoData(s, h, y, changed, disk, logical))
    ensures ContentsOk(DoData(s, h, y, changed, disk, logical))
  {
    var t := DoData(s, h, y, changed, disk, logical);
    var b0 := s.handles[h].b;
    assert SameBuf(t.cache.bufs[b0], s.cache.bufs[b0]) && t.cache.bufs[b0] == y;
    forall b: nat | b < |t.cache.bufs| ensures BufOk(t, b) {
      assert BufOk(s, b);
      if b != b0 {
        assert t.cache.bufs[b] == s.cache.bufs[b];
        if Settled(t, b) {
          forall g | g in s.handles && s.handles[g].b == b ensures !s.handles[g].changed { assert SameHandle(t.handles[g], s.handles[g]); }
          assert Settled(s, b);
        }
      } else {
        assert Settled(t, b) ==> !t.handles[h].changed by { assert SameHandle(t.handles[h], s.handles[h]); }
      }
    }
    forall k | k in t.disk && !Caches(t.cache, k) ensures t.disk[k] == t.logical[k] {
      CachesStay(s.cache, b0, y, k);
    }
    forall g | g in t.handles ensures t.handles[g].key in t.disk { assert SameHandle(t.handles[g], s.handles[g]); }
  }

  lemma OwnShape(s: State, h: nat, y: Buf, changed: bool, disk: map<Key, Block>, logical: map<Key, Block>)
    requires LocksOk(s) && Locked(s, h) && SameBuf(y, s.BufOf(h))
    ensures SameShape(s, DoData(s, h, y, changed, disk, logical))
  {
  }

  /** Only one buffer and the flag of one handle change. */
  lemma OwnKept(s: State, h: nat, y: Buf, changed: bool, disk: map<Key, Block>, logical: map<Key, Block>)
    requires Inv(s) && Locked(s, h) && SameBuf(y, s.BufOf(h)) && Fitting(s, y, changed, disk, logical)
    ensures Inv(DoData(s, h, y, changed, disk, logical))
  {
    OwnShape(s, h, y, changed, disk, logical);
    ShapeHandles(s, DoData(s, h, y, changed, disk, logical));
    DataContents(s, h, y, changed, disk, logical);
  }

  lemma FillKept(s: State, h: nat)
    requires Inv(s) && Locked(s, h) && !s.BufOf(h).valid
    ensures s.handles[h].key in s.disk && Inv(DoFill(s, h))
  {
    var x, y := s.handles[h], s.BufOf(h);
    assert BufOk(s, x.b) && !Caches(s.cache, x.key);
    OwnKept(s, h, Buf(y.key, true, y.dirty, y.refcnt, s.disk[x.key]), x.changed, s.disk, s.logical);
  }

  lemma ModifyKept(s: State, h: nat, d: Block)
    requires Inv(s) && Locked(s, h) && s.BufOf(h).valid
    ensures Inv(DoModify(s, h, d))
  {
    var x, y := s.handles[h], s.BufOf(h);
    assert BufOk(s, x.b);
    assert s.logical[x.key := d].Keys == s.logical.Keys;
    OwnKept(s, h, Buf(y.key, y.valid, y.dirty, y.refcnt, d), true, s.disk, s.logical[x.key := d]);
  }

  lemma LogWriteKept(s: State, h: nat)
    requires Inv(s) && Locked(s, h) && s.BufOf(h).valid
    ensures Inv(DoLogWrite(s, h))
  {
    var y := s.BufOf(h);
    assert BufOk(s, s.handles[h].b);
    OwnKept(s, h, Buf(y.key, y.valid, true, y.refcnt, y.data), false, s.disk, s.logical);
  }

  lemma WriteKept(s: State, h: nat)
    requires Inv(s) && Locked(s, h) && s.BufOf(h).valid
    ensures Inv(DoWrite(s, h))
  {
    var y := s.BufOf(h);
    assert BufOk(s, s.handles[h].b);
    assert s.disk[y.key := y.data].Keys == s.disk.Keys;
    OwnKept(s, h, Buf(y.key, true, false, y.refcnt, y.data), false, s.disk[y.key := y.data], s.logical);
  }

  // ---- taking and releasing the lock ----

  predicate SameSession(x: Handle, y: Handle) { x.key == y.key && x.b == y.b && x.changed == y.changed }

  /** Only locks and stages of handles differ. */
  ghost predicate SameSessions(s: State, t: State) {
    && t.cache == s.cache && t.disk == s.disk && t.logical == s.logical && t.handles.Keys == s.handles.Keys
    && forall h :: h in s.handles ==> SameSession(t.handles[h], s.handles[h])
  }

  lemma LockContents(s: State, t: State)
    requires Inv(s) && SameSessions(s, t)
    ensures ContentsOk(t)
    ensures forall b: nat :: b < |t.cache.bufs| ==> t.cache.bufs[b].refcnt == |Refs(t.handles, b)|
  {
    forall b: nat | b < |t.cache.bufs| ensures t.cache.bufs[b].refcnt == |Refs(t.handles, b)| && BufOk(t, b) {
      assert Refs(t.handles, b) == Refs(s.handles, b) && BufOk(s, b);
      if Settled(t, b) {
        forall h | h in s.handles && s.handles[h].b == b ensures !s.handles[h].changed { assert SameSession(t.handles[h], s.handles[h]); }
        assert Settled(s, b);
      }
    }
    forall h | h in t.handles ensures t.handles[h].key in t.disk { assert SameSession(t.handles[h], s.handles[h]); }
  }

  /** Stages and locks change, and nothing else. */
  lemma StageKept(s: State, t: State)
    requires Inv(s) && SameSessions(s, t) && LocksOk(t)
    ensures Inv(t)
  {
    LockContents(s, t);
    forall h | h in t.handles ensures t.Has(h) && t.BufOf(h).key == t.handles[h].key && t.handles[h].key.dev != 0 {
      assert SameSession(t.handles[h], s.handles[h]);
    }
  }

  lemma AcquireLocks(s: State, h: nat)
    requires LocksOk(s) && s.Has(h) && s.handles[h].stage.Waiting? && s.handles[h].b !in s.locks
    ensures LocksOk(DoAcquire(s, h)) && SameSessions(s, DoAcquire(s, h))
  {
    var t := DoAcquire(s, h);
    forall b | b in t.locks ensures Locked(t, t.locks[b]) && t.handles[t.locks[b]].b == b {
      if b in s.locks { assert Locked(s, s.locks[b]); }
    }
    forall g | Locked(t, g) ensures t.handles[g].b in t.locks && t.locks[t.handles[g].b] == g {
      if g != h { assert Locked(s, g); }
    }
  }

  lemma UnlockLocks(s: State, h: nat)
    requires LocksOk(s) && Locked(s, h) && !s.handles[h].changed
    ensures LocksOk(DoUnlock(s, h)) && SameSessions(s, DoUnlock(s, h))
  {
    var t := DoUnlock(s, h);
    forall b | b in t.locks ensures Locked(t, t.locks[b]) && t.handles[t.locks[b]].b == b { assert Locked(s, s.locks[b]); }
    forall g | Locked(t, g) ensures t.handles[g].b in t.locks && t.locks[t.handles[g].b] == g { assert Locked(s, g); }
  }

  lemma AcquireKept(s: State, h: nat)
    requires Inv(s) && s.Has(h) && s.handles[h].stage.Waiting? && s.handles[h].b !in s.locks
    ensures Inv(DoAcquire(s, h))
  {
    AcquireLocks(s, h);
    StageKept(s, DoAcquire(s, h));
  }

  lemma UnlockKept(s: State, h: nat)
    requires Inv(s) && Locked(s, h) && !s.handles[h].changed
    ensures Inv(DoUnlock(s, h))
  {
    UnlockLocks(s, h);
    StageKept(s, DoUnlock(s, h));
  }

  // ---- bget and brelse ----

  lemma RefsAdd(handles: map<nat, Handle>, h: nat, x: Handle, b: nat)
    requires h !in handles
    ensures |Refs(handles[h := x], b)| == |Refs(handles, b)| + if x.b == b then 1 else 0
  {
    var r := handles[h := x];
    if x.b == b {
      assert Refs(r, b) == Refs(handles, b) + {h};
    } else {
      assert Refs(r, b) == Refs(handles, b);
    }
  }

  lemma RefsDrop(handles: map<nat, Handle>, h: nat, b: nat)
    requires h in handles
    ensures |Refs(handles - {h}, b)| == |Refs(handles, b)| - if handles[h].b == b then 1 else 0
  {
    var r := handles - {h};
    if handles[h].b == b {
      assert Refs(handles, b) == Refs(r, b) + {h};
    } else {
      assert Refs(r, b) == Refs(handles, b);
    }
  }

  /** A buffer with no references has no handles. */
  lemma Unreferenced(s: State, b: nat, h: nat)
    requires HandlesOk(s) && b < |s.cache.bufs| && s.cache.bufs[b].refcnt == 0 && h in s.handles
    ensures s.handles[h].b != b
  {
    assert Refs(s.handles, b) == {};
    assert h !in Refs(s.handles, b);
  }

  /** What bget's section picks: the buffer of the block, or a clean unused one when there is none. */
  ghost predicate Picks(s: State, key: Key, b: nat, x: Buf) {
    && b < |s.cache.bufs|
    && ((s.cache.bufs[b].key == key && x == Ref(s.cache.bufs[b], 1))
        || (Unused(s.cache.bufs[b]) && x == Buf(key, false, false, 1, s.cache.bufs[b].data)
            && forall i :: 0 <= i < |s.cache.bufs| ==> s.cache.bufs[i].key != key))
  }

  lemma GotPicks(s: State, key: Key)
    requires HandlesOk(s) && InRing(s.cache) && Got(s.cache, key).Some?
    ensures var g := Got(s.cache, key).value;
      g.1 < |s.cache.bufs| && g.0 == PutBuf(s.cache, g.1, g.0.bufs[g.1]) && Picks(s, key, g.1, g.0.bufs[g.1])
  {
    var k := FindAt(s.cache, key, 0);
    if k == |s.cache.ring| {
      forall i: nat | i < |s.cache.bufs| ensures s.cache.bufs[i].key != key {
        assert i in s.cache.ring;
        var j :| 0 <= j < |s.cache.ring| && s.cache.ring[j] == i;
      }
    }
  }

  /** Handles and locks other than of one new handle carry over when their buffers keep their keys. */
  lemma LocksCarry(s: State, t: State)
    requires HandlesOk(s) && t.locks == s.locks && |t.cache.bufs| == |s.cache.bufs|
    requires forall g :: g in s.handles && (g in t.handles || s.handles[g].stage.Holding?) ==> g in t.handles && t.handles[g] == s.handles[g]
    requires forall g :: g in t.handles && g !in s.handles ==> t.handles[g].stage.Waiting? && !t.handles[g].changed
    ensures LocksOk(t)
  {
    forall b | b in t.locks ensures Locked(t, t.locks[b]) && t.handles[t.locks[b]].b == b { assert Locked(s, s.locks[b]); }
    forall g | Locked(t, g) ensures t.handles[g].b in t.locks && t.locks[t.handles[g].b] == g { assert Locked(s, g); }
  }

  lemma GetHandles(s: State, h: nat, key: Key, b: nat, x: Buf, t: State)
    requires HandlesOk(s) && h !in s.handles && key.dev != 0 && Picks(s, key, b, x)
    requires t == State(PutBuf(s.cache, b, x), s.locks, s.handles[h := Handle(key, b, Waiting, false)], s.disk, s.logical)
    ensures HandlesOk(t)
  {
    LocksCarry(s, t);
    forall g | g in s.handles ensures t.Has(g) && t.BufOf(g).key == t.handles[g].key {
      if s.cache.bufs[b].refcnt == 0 { Unreferenced(s, b, g); }
    }
    forall i: nat | i < |t.cache.bufs| ensures t.cache.bufs[i].refcnt == |Refs(t.handles, i)| {
      RefsAdd(s.handles, h, Handle(key, b, Waiting, false), i);
    }
  }

  lemma GetUnique(s: State, key: Key, b: nat, x: Buf)
    requires Unique(s.cache) && Picks(s, key, b, x)
    ensures Unique(PutBuf(s.cache, b, x))
  {
  }

  /** The block that loses its buffer is on disk as its readers know it. */
  lemma GetContents(s: State, h: nat, key: Key, b: nat, x: Buf, t: State)
    requires Inv(s) && h !in s.handles && key.dev != 0 && key in s.disk && Picks(s, key, b, x)
    requires t == State(PutBuf(s.cache, b, x), s.locks, s.handles[h := Handle(key, b, Waiting, false)], s.disk, s.logical)
    ensures ContentsOk(t)
  {
    forall i: nat | i < |t.cache.bufs| ensures BufOk(t, i) {
      assert BufOk(s, i);
      if Settled(t, i) {
        forall g | g in s.handles && s.handles[g].b == i ensures !s.handles[g].changed { assert t.handles[g] == s.handles[g]; }
        assert Settled(s, i);
      }
    }
    forall k | k in t.disk && !Caches(t.cache, k) ensures t.disk[k] == t.logical[k] {
      if s.cache.bufs[b].key == key { CachesSame(s.cache, b, x, k); } else { Evicted(s, b, x, k); }
    }
  }

  lemma CachesSame(c: Cache, b: nat, x: Buf, k: Key)
    requires b < |c.bufs| && x.key == c.bufs[b].key && x.valid == c.bufs[b].valid
    ensures Caches(c, k) ==> Caches(PutBuf(c, b, x), k)
  {
    if i: nat :| i < |c.bufs| && c.bufs[i].key == k && c.bufs[i].valid {
      var r := PutBuf(c, b, x);
      assert r.bufs[i].key == k && r.bufs[i].valid;
    }
  }

  lemma Evicted(s: State, b: nat, x: Buf, k: Key)
    requires Inv(s) && b < |s.cache.bufs| && k in s.disk && !Caches(PutBuf(s.cache, b, x), k)
    requires Unused(s.cache.bufs[b])
    ensures s.disk[k] == s.logical[k]
  {
    CachesElse(s.cache, b, x, k);
    if Caches(s.cache, k) {
      assert BufOk(s, b);
      forall g | g in s.handles ensures s.handles[g].b != b { Unreferenced(s, b, g); }
      assert Settled(s, b);
    }
  }

  lemma CachesElse(c: Cache, b: nat, x: Buf, k: Key)
    requires b < |c.bufs|
    ensures Caches(c, k) ==> Caches(PutBuf(c, b, x), k) || (c.bufs[b].key == k && c.bufs[b].valid)
  {
    if i: nat :| i < |c.bufs| && c.bufs[i].key == k && c.bufs[i].valid {
      var r := PutBuf(c, b, x);
      if i != b { assert r.bufs[i].key == k && r.bufs[i].valid; }
    }
  }

  lemma GetKept(s: State, h: nat, key: Key)
    requires Inv(s) && h !in s.handles && key.dev != 0 && key in s.disk && InRing(s.cache) && Got(s.cache, key).Some?
    ensures Inv(DoGet(s, h, key))
  {
    GotPicks(s, key);
    var g := Got(s.cache, key).value;
    GetHandles(s, h, key, g.1, g.0.bufs[g.1], DoGet(s, h, key));
    GetUnique(s, key, g.1, g.0.bufs[g.1]);
    GetContents(s, h, key, g.1, g.0.bufs[g.1], DoGet(s, h, key));
  }

  lemma DropRing(c: Cache, b: nat)
    requires Permutation(c.ring, |c.bufs|) && b < |c.bufs| && b in c.ring && c.bufs[b].refcnt > 0
    ensures Permutation(Dropped(c, b).ring, |c.bufs|) && Dropped(c, b).bufs == c.bufs[b := Ref(c.bufs[b], -1)]
  {
    FrontPermutes(c.ring, |c.bufs|, b);
  }

  lemma DropHandles(s: State, h: nat, c: Cache, t: State)
    requires HandlesOk(s) && s.Has(h) && s.handles[h].stage.Leaving? && s.BufOf(h).refcnt > 0
    requires Permutation(c.ring, |s.cache.bufs|) && c.bufs == s.cache.bufs[s.handles[h].b := Ref(s.BufOf(h), -1)]
    requires t == State(c, s.locks, s.handles - {h}, s.disk, s.logical)
    ensures HandlesOk(t)
  {
    LocksCarry(s, t);
    forall i: nat | i < |t.cache.bufs| ensures t.cache.bufs[i].refcnt == |Refs(t.handles, i)| { RefsDrop(s.handles, h, i); }
  }

  lemma DropUnique(s: State, h: nat)
    requires Unique(s.cache) && s.Has(h) && s.handles[h].b in s.cache.ring && s.BufOf(h).refcnt > 0
    ensures Unique(DoDrop(s, h).cache)
  {
  }

  lemma DropContents(s: State, h: nat, c: Cache, t: State)
    requires Inv(s) && s.Has(h) && s.handles[h].stage.Leaving? && s.BufOf(h).refcnt > 0
    requires c.bufs == s.cache.bufs[s.handles[h].b := Ref(s.BufOf(h), -1)]
    requires t == State(c, s.locks, s.handles - {h}, s.disk, s.logical)
    ensures ContentsOk(t)
  {
    var b := s.handles[h].b;
    forall i: nat | i < |t.cache.bufs| ensures BufOk(t, i) {
      assert BufOk(s, i);
      if Settled(t, i) { SettledBefore(s, h, t, i); }
    }
    forall k | k in t.disk && !Caches(t.cache, k) ensures t.disk[k] == t.logical[k] {
      CachesSame(s.cache, b, t.cache.bufs[b], k);
      assert PutBuf(s.cache, b, t.cache.bufs[b]).bufs == t.cache.bufs;
    }
  }

  lemma SettledBefore(s: State, h: nat, t: State, i: nat)
    requires LocksOk(s) && h in s.handles && s.handles[h].stage.Leaving? && t.handles == s.handles - {h} && Settled(t, i)
    ensures Settled(s, i)
  {
    forall g | g in s.handles && s.handles[g].b == i ensures !s.handles[g].changed {
      if g != h { assert t.handles[g] == s.handles[g]; }
    }
  }

  lemma InvKept(s: State, step: Step)
    requires Inv(s) && Enabled(s, step)
    ensures Inv(Do(s, step))
  {
    match step
    case Get(h, key) => GetKept(s, h, key);
    case Acquire(h) => AcquireKept(s, h);
    case Fill(h) => FillKept(s, h);
    case Modify(h, d) => ModifyKept(s, h, d);
    case LogWrite(h) => LogWriteKept(s, h);
    case Write(h) => WriteKept(s, h);
    case Unlock(h) => UnlockKept(s, h);
    case Drop(h) =>
      DropRing(s.cache, s.handles[h].b);
      DropHandles(s, h, Dropped(s.cache, s.handles[h].b), DoDrop(s, h));
      DropUnique(s, h);
      DropContents(s, h, Dropped(s.cache, s.handles[h].b), DoDrop(s, h));
  }

  // ---- runs ----

  /** trace holds the states passed through, one step apart. */
  ghost predicate Behaviour(trace: seq<State>, steps: seq<Step>) {
    && |trace| == |steps| + 1 && Init(trace[0])
    && forall i: nat {:trigger steps[i]} :: i < |steps| ==> Enabled(trace[i], steps[i]) && trace[i + 1] == Do(trace[i], steps[i])
  }

  lemma {:induction false} InvAlways(trace: seq<State>, steps: seq<Step>, k: nat)
    requires Behaviour(trace, steps) && k <= |steps|
    ensures Inv(trace[k])
  {
    if k == 0 {
      InitInv(trace[0]);
    } else {
      InvAlways(trace, steps, k - 1);
      assert trace[k] == Do(trace[k - 1], steps[k - 1]);
      InvKept(trace[k - 1], steps[k - 1]);
    }
  }

  /** bread's promise: a locked, valid buffer holds the latest contents of its block, its lock holder is
      alone, and no other buffer has that block. */
  lemma LockedIsLatest(trace: seq<State>, steps: seq<Step>, k: nat, h: nat)
    requires Behaviour(trace, steps) && k <= |steps| && Locked(trace[k], h)
    ensures var s := trace[k]; var x := s.handles[h];
      && s.BufOf(h).key == x.key && x.key in s.logical
      && (s.BufOf(h).valid ==> s.BufOf(h).data == s.logical[x.key])
      && (forall g :: Locked(s, g) && s.handles[g].key == x.key ==> g == h)
      && (forall b: nat :: b < |s.cache.bufs| && s.cache.bufs[b].key == x.key ==> b == x.b)
  {
    InvAlways(trace, steps, k);
    var s := trace[k];
    assert BufOk(s, s.handles[h].b);
    forall g | Locked(s, g) && s.handles[g].key == s.handles[h].key ensures g == h {
      assert s.handles[g].b == s.handles[h].b;
    }
  }

  lemma StepKeepsHandle(s: State, step: Step, h: nat)
    requires Enabled(s, step) && h in s.handles && h in Do(s, step).handles
    ensures Do(s, step).handles[h].b == s.handles[h].b && Do(s, step).handles[h].key == s.handles[h].key
  {
  }

  /** A buffer that somebody waits for or holds keeps its block, whatever others do. */
  lemma NeverReassigned(trace: seq<State>, steps: seq<Step>, k: nat, h: nat)
    requires Behaviour(trace, steps) && k < |steps| && h in trace[k].handles && h in trace[k + 1].handles
    ensures trace[k + 1].handles[h].b == trace[k].handles[h].b && trace[k + 1].handles[h].key == trace[k].handles[h].key
    ensures trace[k + 1].Has(h) && trace[k + 1].BufOf(h).key == trace[k].handles[h].key
  {
    InvAlways(trace, steps, k + 1);
    StepKeepsHandle(trace[k], steps[k], h);
  }

  /** A logged block stays in its buffer, dirty, until somebody writes it to disk. */
  lemma DirtyStays(trace: seq<State>, steps: seq<Step>, k: nat, b: nat)
    requires Behaviour(trace, steps) && k < |steps| && b < |trace[k].cache.bufs| && trace[k].cache.bufs[b].dirty
    requires steps[k].Write? ==> trace[k].handles[steps[k].h].b != b
    ensures b < |trace[k + 1].cache.bufs|
    ensures var x, y := trace[k].cache.bufs[b], trace[k + 1].cache.bufs[b]; y.dirty && y.valid && y.key == x.key
  {
    InvAlways(trace, steps, k);
    InvAlways(trace, steps, k + 1);
    var s, step := trace[k], steps[k];
    assert trace[k + 1] == Do(s, step);
    if step.Get? { GotPicks(s, step.key); }
    assert BufOk(s, b) && BufOk(trace[k + 1], b);
  }

  /** What is not cached is on disk as its readers know it. */
  lemma UncachedIsOnDisk(trace: seq<State>, steps: seq<Step>, k: nat, key: Key)
    requires Behaviour(trace, steps) && k <= |steps| && key in trace[k].disk && !Caches(trace[k].cache, key)
    ensures key in trace[k].logical && trace[k].disk[key] == trace[k].logical[key]
  {
    InvAlways(trace, steps, k);
  }

  /** The list of buffers stays a permutation of all of them, and counts stay exact. */
  lemma CountsExact(trace: seq<State>, steps: seq<Step>, k: nat, b: nat)
    requires Behaviour(trace, steps) && k <= |steps| && b < |trace[k].cache.bufs|
    ensures var s := trace[k];
      Permutation(s.cache.ring, |s.cache.bufs|) && s.cache.bufs[b].refcnt == |set h | h in s.handles && s.handles[h].b == b|
  {
    InvAlways(trace, steps, k);
    assert Refs(trace[k].handles, b) == set h | h in trace[k].handles && trace[k].handles[h].b == b;
  }
}
