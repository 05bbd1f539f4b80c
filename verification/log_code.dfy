/** log.c as it runs: the in-memory log, its loops over blocks, and the disk
    writes they issue.  A call that writes the disk fixes in `plan` the writes it
    will issue and in `origin` the disk it starts from; `done` counts those issued.
    No other write is possible, so a crash at any moment of the call leaves
    After(origin, plan, k) for some k, and LogDisk says what recovery makes of it. */
module LogCode {
  import opened Common
  import opened LogDisk

  /** log_write's scan: the block is already listed, or it goes at the end. */
  function Absorbed(blocks: seq<nat>, b: nat): (r: seq<nat>)
    ensures Distinct(blocks) ==> Distinct(r)
    ensures forall x :: x in r <==> x in blocks || x == b
    ensures blocks <= r && |r| <= |blocks| + 1
  {
    if b in blocks then blocks else blocks + [b]
  }

  /** Bread sees a pinned buffer's contents, otherwise the disk. */
  function Contents(disk: Disk, pinned: map<nat, Block>, b: nat): (r: Block)
    requires b < |disk|
  {
    if b in pinned then pinned[b] else disk[b]
  }

  /** The shape of a commit's writes, stage by stage. */
  ghost predicate CommitPlan(t: Txn, ws: seq<Write>) {
    var n := |t.blocks|;
    && t.Fits()
    && |ws| == 2 * n + 2
    && (forall i {:trigger ws[i]} :: 0 <= i < n ==> ws[i] == Write(t.lay.start + 1 + i, t.cached[t.blocks[i]]))
    && ws[n] == Write(t.lay.start, t.Head())
    && (forall i {:trigger ws[i]} :: n < i <= 2 * n ==> ws[i] == Write(t.blocks[i - n - 1], t.cached[t.blocks[i - n - 1]]))
    && ws[2 * n + 1] == Write(t.lay.start, HeadWith(t.Head(), []))
  }

  lemma WritesArePlan(t: Txn)
    requires t.Fits() && t.blocks != []
    ensures CommitPlan(t, t.Writes())
  {
  }

  lemma HomesNotInLog(lay: Layout, d: Disk, blocks: seq<nat>)
    requires Loggable(lay, d, blocks)
    ensures forall b :: lay.InLog(b) ==> b !in blocks
  {
    forall b | b in blocks ensures !lay.InLog(b) {
      var i :| 0 <= i < |blocks| && blocks[i] == b;
      assert Home(lay, d, blocks[i]);
    }
  }

  class Log {
    const lay: Layout
    const block: array<nat>          // log.lh.block
    var n: nat                       // log.lh.n
    var outstanding: int
    var committing: bool
    var disk: Disk
    var pinned: map<nat, Block>      // buffers marked B_DIRTY, not yet written home
    ghost var origin: Disk           // the disk before the planned writes
    ghost var plan: seq<Write>       // the writes to issue, in order
    ghost var done: nat              // how many of them have been issued

    ghost predicate Bounded()
      reads this
    {
      block.Length == LOGSIZE && n <= LOGSIZE
    }

    /** The blocks logged so far. */
    ghost function Blocks(): (r: seq<nat>)
      requires Bounded()
      reads this, block
    {
      block[..n]
    }

    /** Exactly the logged blocks are pinned, and they can be committed. */
    ghost predicate Valid()
      reads this, block
    {
      Bounded() && Loggable(lay, disk, Blocks()) && forall b :: b in pinned <==> b in Blocks()
    }

    /** initlog: recovery included. */
    constructor (lay: Layout, disk: Disk)
      requires ValidHead(lay, disk)
      ensures this.lay == lay && this.disk == Recovered(lay, disk) && fresh(block)
      ensures n == 0 && outstanding == 0 && !committing && pinned == map[] && Valid() && this.disk[lay.start][0] == 0
      ensures origin == disk && plan == RecoveryWrites(lay, disk) && done == |plan| && OnPlan()
    {
      this.lay, this.disk, n, outstanding, committing, pinned := lay, disk, 0, 0, false, map[];
      block := new nat[LOGSIZE];
      origin, plan, done := disk, [], 0;
      new;
      RecoverFromLog();
    }

    /** The disk is where the issued part of the plan leaves it. */
    ghost predicate OnPlan()
      reads this
    {
      done <= |plan| && disk == After(origin, plan, done)
    }

    ghost method Start(ws: seq<Write>)
      modifies this`origin, this`plan, this`done
      ensures origin == disk && plan == ws && done == 0 && OnPlan()
    {
      origin, plan, done := disk, ws, 0;
    }

    /** bwrite: the next planned write; the block reaches the disk and its buffer is clean again. */
    method Bwrite(b: nat, data: Block)
      requires OnPlan() && done < |plan| && plan[done] == Write(b, data)
      modifies this`disk, this`done, this`pinned
      ensures disk == Put(old(disk), Write(b, data)) && pinned == old(pinned) - {b}
      ensures done == old(done) + 1 && OnPlan()
    {
      if b < |disk| { disk := disk[b := data]; }
      pinned := pinned - {b};
      done := done + 1;
    }

    /** write_log */
    method WriteLog()
      requires Bounded() && FitHomes(lay, disk, Blocks()) && AllCached(Blocks(), pinned)
      requires forall b :: lay.InLog(b) ==> b !in pinned
      requires OnPlan() && done == 0 && n <= |plan|
      requires forall i {:trigger plan[i]} :: 0 <= i < n ==> plan[i] == Write(lay.start + 1 + i, pinned[Blocks()[i]])
      modifies this`disk, this`done, this`pinned
      ensures OnPlan() && done == n && |disk| == |old(disk)| && pinned == old(pinned)
      ensures disk[lay.start] == old(disk)[lay.start]
      ensures forall i :: 0 <= i < n ==> disk[lay.start + 1 + i] == pinned[Blocks()[i]]
      ensures SameHome(lay, disk, old(disk))
    {
      var tail := 0;
      while tail < n
        invariant 0 <= tail <= n && |disk| == |old(disk)| && disk[lay.start] == old(disk)[lay.start]
        invariant OnPlan() && done == tail && pinned == old(pinned)
        invariant forall i :: 0 <= i < tail ==> disk[lay.start + 1 + i] == pinned[Blocks()[i]]
        invariant SameHome(lay, disk, old(disk))
      {
        var b := block[tail];
        assert b == Blocks()[tail] && Home(lay, old(disk), Blocks()[tail]);
        assert lay.InLog(lay.start + tail + 1);
        Bwrite(lay.start + tail + 1, Contents(disk, pinned, b));
        tail := tail + 1;
      }
    }

    /** write_head: the entry loop fills the header buffer word by word. */
    method WriteHead()
      requires Bounded() && FitsDisk(lay, disk) && lay.start !in pinned
      requires OnPlan() && done < |plan| && plan[done] == Write(lay.start, HeadWith(disk[lay.start], Blocks()))
      modifies this`disk, this`done, this`pinned
      ensures OnPlan() && done == old(done) + 1 && disk == Put(old(disk), plan[old(done)]) && pinned == old(pinned)
    {
      var hb: Block := Contents(disk, pinned, lay.start);
      hb := hb[0 := n];
      var i := 0;
      while i < n
        invariant 0 <= i <= n && hb[0] == n
        invariant forall j :: 1 <= j < 1 + i ==> hb[j] == block[j - 1]
        invariant forall j :: 1 + i <= j < WORDS ==> hb[j] == disk[lay.start][j]
      {
        hb := hb[1 + i := block[i]];
        i := i + 1;
      }
      ghost var want := HeadWith(disk[lay.start], Blocks());
      assert hb == want by {
        forall j | 0 <= j < WORDS ensures hb[j] == want[j] {
          if 1 <= j <= n { assert want[1 + (j - 1)] == Blocks()[j - 1]; }
        }
      }
      Bwrite(lay.start, hb);
      assert pinned == old(pinned);
    }

    /** Empty the in-memory log and write its header. */
    method ClearHead()
      requires block.Length == LOGSIZE && FitsDisk(lay, disk) && lay.start !in pinned
      requires OnPlan() && done < |plan| && plan[done] == Write(lay.start, HeadWith(disk[lay.start], []))
      modifies this`disk, this`done, this`pinned, this`n
      ensures OnPlan() && n == 0 && done == old(done) + 1 && disk == Put(old(disk), plan[old(done)]) && pinned == old(pinned)
    {
      n := 0;
      assert Blocks() == [];
      WriteHead();
    }

    /** read_head */
    method ReadHead()
      requires block.Length == LOGSIZE && FitsDisk(lay, disk) && lay.start !in pinned
      requires disk[lay.start][0] <= LOGSIZE
      modifies this`n, block
      ensures Bounded() && Blocks() == Entries(disk[lay.start])
    {
      var head := Contents(disk, pinned, lay.start);
      n := head[0];
      var i := 0;
      while i < n
        invariant 0 <= i <= n == head[0]
        invariant forall j :: 0 <= j < i ==> block[j] == head[1 + j]
      {
        block[i] := head[1 + i];
        i := i + 1;
      }
    }

    /** The next n planned writes copy the log slots home. */
    ghost predicate InstallsNext()
      requires Bounded() && FitHomes(lay, disk, Blocks()) && done + n <= |plan|
      reads this, block
    {
      forall i {:trigger plan[i]} ::
        done <= i < done + n ==> plan[i] == Write(Blocks()[i - done], disk[lay.start + 1 + i - done])
    }

    /** install_trans: copy log slot after log slot home, cleaning the buffer it lands in. */
    method InstallTrans()
      requires Bounded() && FitHomes(lay, disk, Blocks())
      requires forall b :: lay.InLog(b) ==> b !in pinned
      requires OnPlan() && done + n <= |plan| && InstallsNext()
      modifies this`disk, this`done, this`pinned
      ensures OnPlan() && done == old(done) + n && |disk| == |old(disk)|
      ensures forall b: nat :: lay.InLog(b) ==> disk[b] == old(disk)[b]
      ensures pinned == old(pinned) - set b | b in Blocks()
    {
      var tail := 0;
      while tail < n
        invariant 0 <= tail <= n && |disk| == |old(disk)|
        invariant forall b: nat :: lay.InLog(b) ==> disk[b] == old(disk)[b]
        invariant OnPlan() && done == old(done) + tail
        invariant pinned == old(pinned) - set b | b in block[..tail]
      {
        assert lay.InLog(lay.start + tail + 1);
        var lbuf := Contents(disk, pinned, lay.start + tail + 1);
        assert Home(lay, disk, Blocks()[tail]);
        Bwrite(block[tail], lbuf);
        assert block[..tail + 1] == block[..tail] + [block[tail]];
        tail := tail + 1;
      }
    }

    /** The transaction that a commit now would write. */
    ghost function Pending(): (t: Txn)
      requires Bounded()
      reads this, block
    {
      Txn(lay, disk, Blocks(), pinned)
    }

    /** write_log and the committing write_head. */
    method LogThenHead(ghost t: Txn)
      requires Bounded() && FitHomes(lay, disk, Blocks()) && AllCached(Blocks(), pinned)
      requires forall b :: lay.InLog(b) ==> b !in pinned
      requires t == Pending() && CommitPlan(t, plan) && OnPlan() && done == 0
      modifies this`disk, this`done, this`pinned
      ensures OnPlan() && done == n + 1 && |disk| == |old(disk)| && pinned == old(pinned)
      ensures disk[lay.start] == t.Head()
      ensures InstallsNext()
    {
      assert lay.InLog(lay.start);
      WriteLog();
      assert HeadWith(disk[lay.start], Blocks()) == t.Head();
      ghost var d := disk;
      WriteHead();
      forall i {:trigger plan[i]} | done <= i < done + n
        ensures plan[i] == Write(Blocks()[i - done], disk[lay.start + 1 + i - done])
      {
        ghost var j := i - done;
        assert disk[lay.start + 1 + j] == d[lay.start + 1 + j] == pinned[Blocks()[j]];
      }
    }

    /** install_trans, then clear the log: how commit() and recover_from_log() both end. */
    method InstallThenClear()
      requires Bounded() && FitHomes(lay, disk, Blocks())
      requires forall b :: lay.InLog(b) ==> b !in pinned
      requires OnPlan() && done + n + 1 == |plan| && InstallsNext()
      requires plan[done + n] == Write(lay.start, HeadWith(disk[lay.start], []))
      modifies this`disk, this`done, this`pinned, this`n
      ensures OnPlan() && done == |plan| && n == 0 && |disk| == |old(disk)|
      ensures pinned == old(pinned) - set b | b in old(Blocks())
    {
      InstallTrans();
      assert disk[lay.start] == old(disk)[lay.start] by { assert lay.InLog(lay.start); }
      ClearHead();
    }

    /** commit() of a non-empty log, following the plan. */
    method CommitSteps(ghost t: Txn)
      requires Valid() && t == Pending() && CommitPlan(t, plan) && OnPlan() && done == 0
      modifies this`disk, this`done, this`pinned, this`n
      ensures OnPlan() && done == |plan| && n == 0 && pinned == map[] && |disk| == |old(disk)|
    {
      assert forall b :: lay.InLog(b) ==> b !in pinned by { HomesNotInLog(lay, disk, t.blocks); }
      assert pinned - (set b | b in Blocks()) == map[];
      LogThenHead(t);
      InstallThenClear();
    }

    /** commit(): exactly the writes Txn.Writes lists, in that order, and an empty log afterwards. */
    method Commit()
      requires Valid()
      modifies this`disk, this`pinned, this`n, this`origin, this`plan, this`done
      ensures origin == old(disk) && plan == old(Pending()).Writes() && done == |plan| && OnPlan()
      ensures Valid() && n == 0 && pinned == map[]
    {
      ghost var t := Pending();
      Start(t.Writes());
      if n > 0 {
        WritesArePlan(t);
        CommitSteps(t);
      }
      assert Blocks() == [];
    }

    /** recover_from_log(): exactly the writes RecoveryWrites lists, ending on the recovered disk. */
    method RecoverFromLog()
      requires ValidHead(lay, disk) && block.Length == LOGSIZE && pinned == map[]
      modifies this`disk, this`pinned, this`n, this`origin, this`plan, this`done, block
      ensures origin == old(disk) && plan == RecoveryWrites(lay, old(disk)) && done == |plan| && OnPlan()
      ensures disk == Recovered(lay, old(disk))
      ensures Valid() && n == 0 && pinned == map[] && disk[lay.start][0] == 0
    {
      ghost var d := disk;
      Start(RecoveryWrites(lay, disk));
      RecoveryShape(lay, disk);
      ReadHead();
      InstallThenClear();
      assert Blocks() == [] && pinned == map[];
      RecoveredEmpty(lay, d);
    }

    /** log_write's absorption scan: the first slot that lists the block, or the first free one. */
    method FindSlot(b: nat) returns (i: nat)
      requires Bounded()
      ensures i <= n && b !in block[..i] && (i < n ==> block[i] == b)
    {
      i := 0;
      while i < n
        invariant 0 <= i <= n && b !in block[..i]
      {
        if block[i] == b { break; }
        assert block[..i + 1] == block[..i] + [block[i]];
        i := i + 1;
      }
    }

    /** log_write, for a caller that has put `data` in the buffer of block b.  The two panics, or the
        block listed once and its buffer pinned with the new contents. */
    method LogWrite(b: nat, data: Block) returns (panicked: bool)
      requires Valid() && Home(lay, disk, b)
      modifies this`n, this`pinned, block
      ensures Valid()
      ensures panicked <==> old(n) >= LOGSIZE || old(n) >= lay.size - 1 || outstanding < 1
      ensures panicked ==> Blocks() == old(Blocks()) && pinned == old(pinned)
      ensures !panicked ==> Blocks() == Absorbed(old(Blocks()), b) && pinned == old(pinned)[b := data]
    {
      if n >= LOGSIZE || n >= lay.size - 1 { return true; }
      if outstanding < 1 { return true; }
      var i := FindSlot(b);
      ghost var before := Blocks();
      block[i] := b;
      if i == n {
        n := n + 1;
        assert Blocks() == before + [b];
      } else {
        assert before[i] == b;
        assert Blocks() == before;
      }
      pinned := pinned[b := data];
      return false;
    }

    /** One pass of begin_op's loop: sleep, or be admitted. */
    method TryBeginOp() returns (sleeps: bool)
      modifies this`outstanding
      ensures sleeps <==> committing || n + (old(outstanding) + 1) * MAXOPBLOCKS > LOGSIZE
      ensures outstanding == if sleeps then old(outstanding) else old(outstanding) + 1
    {
      if committing { return true; }
      if n + (outstanding + 1) * MAXOPBLOCKS > LOGSIZE { return true; }
      outstanding := outstanding + 1;
      return false;
    }

    /** end_op's first critical section: panic, or decide who commits. */
    method LeaveOp() returns (panicked: bool, doCommit: bool)
      modifies this`outstanding, this`committing
      ensures outstanding == old(outstanding) - 1
      ensures panicked <==> old(committing)
      ensures doCommit <==> !panicked && outstanding == 0
      ensures committing <==> old(committing) || doCommit
    {
      outstanding := outstanding - 1;
      if committing { return true, false; }
      if outstanding == 0 {
        committing := true;
        return false, true;
      }
      return false, false;
    }

    /** end_op: the last operation out runs the whole commit and reopens the log.  Whatever prefix of
        its disk writes a crash lets through, recovery is all or nothing. */
    method EndOp() returns (panicked: bool, committed: bool)
      requires Valid() && disk[lay.start][0] == 0
      modifies this
      ensures outstanding == old(outstanding) - 1
      ensures panicked <==> old(committing)
      ensures committed <==> !panicked && outstanding == 0
      ensures !committed ==> unchanged(`disk) && unchanged(`committing) && unchanged(`pinned) && n == old(n)
      ensures committed ==> !committing && n == 0 && pinned == map[] && old(Pending()).InPlace(disk)
      ensures origin == old(disk) && done == |plan| && OnPlan() && CrashSafe(old(Pending()), plan)
      ensures Valid() && disk[lay.start][0] == 0
    {
      ghost var t := Pending();
      panicked, committed := LeaveOp();
      if committed {
        Commit();
        committing := false;
        CommitCrashSafe(t);
        if t.blocks == [] { assert |plan| == 0; } else { CommitFinished(t); }
      } else {
        Start([]);
        RecoveredEmpty(lay, disk);
      }
    }
  }

  /** Every prefix of the writes recovers to the blocks before the transaction or those after it. */
  ghost predicate CrashSafe(t: Txn, ws: seq<Write>) {
    forall k :: 0 <= k <= |ws| ==>
      var crashed := After(t.disk, ws, k);
      && ValidHead(t.lay, crashed)
      && var end := Recovered(t.lay, crashed);
         SameHome(t.lay, end, t.disk) || t.InPlace(end)
  }

  lemma CommitCrashSafe(t: Txn)
    requires t.Ready()
    ensures CrashSafe(t, t.Writes())
  {
    var ws := t.Writes();
    forall k | 0 <= k <= |ws|
      ensures ValidHead(t.lay, After(t.disk, ws, k))
      ensures var end := Recovered(t.lay, After(t.disk, ws, k)); SameHome(t.lay, end, t.disk) || t.InPlace(end)
    {
      CommitCrashAtomic(t, k);
    }
  }
}
