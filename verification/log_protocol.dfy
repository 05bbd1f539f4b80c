/** log.c under concurrency and crashes: any number of operations interleave
    begin_op, log_write and end_op; a commit writes the disk block by block; the
    machine may stop between any two steps, including inside recovery, and reboot.

    A step is what log.lock makes atomic: one pass of begin_op's loop, log_write's
    unlocked test, log_write's locked part, end_op's critical section, one disk
    write of the committer, and so on.

    The unlocked test lets the list of logged blocks outgrow the log area.  The
    steps of commit and recovery then do what the code does: they copy to and from
    the blocks behind the area. */
module LogProtocol {
  import opened Common
  import opened LogDisk
  import opened LogCode

  /** One log_write: who, which block, with what contents. */
  datatype Event = Event(op: nat, b: nat, data: Block)

  /** An operation between begin_op and end_op.  `spent` counts the blocks it added to the log,
      `tested` says it passed log_write's test and is about to take the lock. */
  datatype Op = Op(id: nat, spent: nat, tested: bool)

  datatype Phase =
    | Running
    | Committing(t: Txn, k: nat)         // k disk writes of t's commit done
    | Recovering(found: Disk, k: nat)    // k disk writes of found's recovery done

  /** What became of an admitted operation. */
  datatype Fate = Pending | Committed(group: nat) | Lost

  datatype State = State(
    lay: Layout,
    disk: Disk,
    // memory, gone in a crash
    blocks: seq<nat>,             // log.lh.block[..log.lh.n]
    pinned: map<nat, Block>,      // dirty buffers
    outstanding: int,
    committing: bool,
    active: seq<Op>,
    asleep: set<nat>,             // sleeping in begin_op
    phase: Phase,
    panicked: bool,
    overrun: bool,                // log.lh.block[LOGSIZE] was stored to
    // what happened so far
    first: Disk,                  // the disk the first boot recovered
    groups: seq<seq<Event>>,      // committed transactions, oldest first
    current: seq<Event>,          // the open transaction
    issued: map<nat, seq<Event>>, // everything each operation logged
    fate: map<nat, Fate>
  )

  datatype Step =
    | BeginOp(id: nat)
    | TestWrite(i: nat)
    | AppendWrite(i: nat, b: nat, data: Block)
    | EndOp(i: nat)
    | CommitWrite
    | FinishCommit
    | Crash
    | RecoverWrite
    | FinishRecovery

  predicate NoRoom(s: State) { |s.blocks| >= LOGSIZE || |s.blocks| >= s.lay.size - 1 }

  predicate MustSleep(s: State) { s.committing || |s.blocks| + (s.outstanding + 1) * MAXOPBLOCKS > LOGSIZE }

  // ---- disk writes ----

  /** What leads to one disk write: a block copied through two buffers, or the header with a list. */
  datatype Io = Copy(from: nat, to: nat) | Head(list: seq<nat>)

  /** The two breads of a copy wait for each other when they are for one block. */
  predicate Waits(io: Io) { io.Copy? && io.from == io.to }

  /** iderw panics for a block that the disk does not have. */
  predicate OffDisk(d: Disk, io: Io) { io.Copy? && (io.from >= |d| || io.to >= |d|) }

  function Total(n: nat): (r: nat) { if n == 0 then 0 else 2 * n + 2 }

  /** write_log, write_head, install_trans, write_head. */
  function CommitIo(lay: Layout, blocks: seq<nat>, k: nat): (io: Io)
    requires k < 2 * |blocks| + 2
  {
    var n := |blocks|;
    if k < n then Copy(blocks[k], lay.start + 1 + k)
    else if k == n then Head(blocks)
    else if k <= 2 * n then Copy(lay.start + 1 + (k - n - 1), blocks[k - n - 1])
    else Head([])
  }

  /** install_trans, write_head. */
  function RecoveryIo(lay: Layout, entries: seq<nat>, k: nat): (io: Io)
    requires k <= |entries|
  {
    if k < |entries| then Copy(lay.start + 1 + k, entries[k]) else Head([])
  }

  /** The write, given what the buffers hold now. */
  function Issue(lay: Layout, d: Disk, pinned: map<nat, Block>, io: Io): (w: Write)
    requires FitsDisk(lay, d) && !OffDisk(d, io) && (io.Head? ==> |io.list| <= LOGSIZE)
  {
    match io
    case Copy(from, to) => Write(to, Contents(d, pinned, from))
    case Head(list) => Write(lay.start, HeadWith(d[lay.start], list))
  }

  // ---- steps ----

  ghost predicate Enabled(s: State, step: Step) {
    && !s.overrun
    && (s.panicked ==> step.Crash?)
    && match step
       case BeginOp(id) => !s.phase.Recovering? && id !in s.asleep && id !in s.issued
       case TestWrite(i) => s.phase.Running? && i < |s.active| && !s.active[i].tested
       case AppendWrite(i, b, data) =>
         s.phase.Running? && i < |s.active| && s.active[i].tested && Home(s.lay, s.disk, b)
       case EndOp(i) => s.phase.Running? && i < |s.active| && !s.active[i].tested
       case CommitWrite =>
         && s.phase.Committing? && s.phase.k < Total(|s.blocks|) && FitsDisk(s.lay, s.disk) && |s.blocks| <= LOGSIZE
         && !Waits(CommitIo(s.lay, s.blocks, s.phase.k))
       case FinishCommit => s.phase.Committing? && s.phase.k == Total(|s.blocks|)
       case Crash => true
       case RecoverWrite =>
         && s.phase.Recovering? && Counted(s.lay, s.phase.found) && s.phase.k <= s.phase.found[s.lay.start][0]
         && FitsDisk(s.lay, s.disk) && !Waits(RecoveryIo(s.lay, Entries(s.phase.found[s.lay.start]), s.phase.k))
       case FinishRecovery =>
         s.phase.Recovering? && Counted(s.lay, s.phase.found) && s.phase.k == s.phase.found[s.lay.start][0] + 1
  }

  predicate Counted(lay: Layout, d: Disk) { FitsDisk(lay, d) && d[lay.start][0] <= LOGSIZE }

  function Issued(s: State, id: nat): (r: seq<Event>) { if id in s.issued then s.issued[id] else [] }

  /** The open transaction becomes the newest committed one. */
  function Close(s: State): (r: State) {
    s.(groups := s.groups + [s.current], current := [],
       fate := map id | id in s.fate :: if s.fate[id].Pending? then Committed(|s.groups|) else s.fate[id])
  }

  function Remove<T>(xs: seq<T>, i: nat): (r: seq<T>)
    requires i < |xs|
  {
    xs[..i] + xs[i + 1..]
  }

  /** log_write's locked part, for an operation that passed the test. */
  function Append(s: State, i: nat, b: nat, data: Block): (r: State)
    requires i < |s.active|
  {
    var op := s.active[i];
    var ev := Event(op.id, b, data);
    s.(blocks := Absorbed(s.blocks, b), pinned := s.pinned[b := data],
       active := s.active[i := op.(spent := if b in s.blocks then op.spent else op.spent + 1, tested := false)],
       current := s.current + [ev], issued := s.issued[op.id := Issued(s, op.id) + [ev]])
  }

  /** bwrite: the block reaches the disk and its buffer is clean. */
  function Perform(s: State, io: Io): (r: State)
    requires FitsDisk(s.lay, s.disk) && !OffDisk(s.disk, io) && (io.Head? ==> |io.list| <= LOGSIZE)
  {
    var w := Issue(s.lay, s.disk, s.pinned, io);
    s.(disk := Put(s.disk, w), pinned := s.pinned - {w.blockno})
  }

  ghost function Do(s: State, step: Step): (r: State)
    requires Enabled(s, step)
  {
    match step
    case BeginOp(id) =>
      if MustSleep(s) then s.(asleep := s.asleep + {id})
      else s.(outstanding := s.outstanding + 1, active := s.active + [Op(id, 0, false)],
              issued := s.issued[id := []], fate := s.fate[id := Pending])
    case TestWrite(i) =>
      if NoRoom(s) || s.outstanding < 1 then s.(panicked := true)
      else s.(active := s.active[i := s.active[i].(tested := true)])
    case AppendWrite(i, b, data) =>
      if b !in s.blocks && |s.blocks| >= LOGSIZE then s.(overrun := true) else Append(s, i, b, data)
    case EndOp(i) =>
      var left := s.(outstanding := s.outstanding - 1, active := Remove(s.active, i));
      if s.committing then left.(panicked := true)
      else if left.outstanding == 0 then
        left.(committing := true, phase := Committing(Txn(s.lay, s.disk, s.blocks, s.pinned), 0))
      else left.(asleep := {})
    case CommitWrite =>
      var t, k := s.phase.t, s.phase.k;
      var io := CommitIo(s.lay, s.blocks, k);
      if OffDisk(s.disk, io) then s.(panicked := true)
      else
        var s' := Perform(s, io).(phase := Committing(t, k + 1));
        if k == |s.blocks| then Close(s') else s'
    case FinishCommit =>
      var s' := if s.blocks == [] then Close(s) else s;
      s'.(blocks := [], pinned := map[], committing := false, phase := Running, asleep := {})
    case Crash =>
      s.(blocks := [], pinned := map[], outstanding := 0, committing := false, active := [], asleep := {},
         phase := Recovering(s.disk, 0), panicked := false, current := [],
         fate := map id | id in s.fate :: if s.fate[id].Pending? then Lost else s.fate[id])
    case RecoverWrite =>
      var found, k := s.phase.found, s.phase.k;
      var io := RecoveryIo(s.lay, Entries(found[s.lay.start]), k);
      if OffDisk(s.disk, io) then s.(panicked := true) else Perform(s, io).(phase := Recovering(found, k + 1))
    case FinishRecovery => s.(phase := Running)
  }

  /** A machine about to boot on a disk whose log header is sound. */
  ghost predicate Init(s: State) {
    && ValidHead(s.lay, s.disk)
    && s == State(s.lay, s.disk, [], map[], 0, false, [], {}, Recovering(s.disk, 0), false, false,
                  Recovered(s.lay, s.disk), [], [], map[], map[])
  }

  /** The states of a run, one step after another. */
  ghost predicate Run(states: seq<State>, steps: seq<Step>) {
    && |states| == |steps| + 1 && Init(states[0])
    && forall i {:trigger steps[i]} :: 0 <= i < |steps| ==> Enabled(states[i], steps[i]) && states[i + 1] == Do(states[i], steps[i])
  }

  // ---- what holds in every run ----

  /** Counters, list and header are in order; nobody is inside while a commit or a recovery runs. */
  ghost predicate Basic(s: State) {
    && s.outstanding == |s.active|
    && |s.disk| == |s.first| && ReadableHead(s.lay, s.disk) && Listing(s.lay, s.disk, s.blocks)
    && (s.committing <==> s.phase.Committing?)
    && match s.phase
       case Running => true
       case Committing(t, k) => s.active == [] && t.blocks == s.blocks && k <= Total(|s.blocks|)
       case Recovering(found, k) =>
         && s.active == [] && s.blocks == [] && s.pinned == map[] && s.current == []
         && ReadableHead(s.lay, found) && |found| == |s.disk| && k <= found[s.lay.start][0] + 1
  }

  /** A disk write of commit or recovery leaves a header that can be read. */
  lemma PerformBasic(s: State, io: Io)
    requires ReadableHead(s.lay, s.disk) && !OffDisk(s.disk, io)
    requires match io case Copy(_, to) => to != s.lay.start case Head(list) => Listing(s.lay, s.disk, list)
    ensures |Perform(s, io).disk| == |s.disk| && ReadableHead(s.lay, Perform(s, io).disk)
  {
    var d := Perform(s, io).disk;
    if io.Head? { assert Entries(d[s.lay.start]) == io.list; }
  }

  lemma CommitBasic(s: State)
    requires Basic(s) && Enabled(s, CommitWrite)
    ensures Basic(Do(s, CommitWrite))
  {
    var io := CommitIo(s.lay, s.blocks, s.phase.k);
    if !OffDisk(s.disk, io) {
      assert io.Copy? ==> io.to != s.lay.start by {
        var n, k := |s.blocks|, s.phase.k;
        if n < k <= 2 * n { assert Home(s.lay, s.disk, s.blocks[k - n - 1]); }
      }
      PerformBasic(s, io);
    }
  }

  lemma RecoverBasic(s: State)
    requires Basic(s) && Enabled(s, RecoverWrite)
    ensures Basic(Do(s, RecoverWrite))
  {
    var entries, k := Entries(s.phase.found[s.lay.start]), s.phase.k;
    var io := RecoveryIo(s.lay, entries, k);
    if !OffDisk(s.disk, io) {
      assert io.Copy? ==> io.to != s.lay.start by {
        if k < |entries| { assert Home(s.lay, s.phase.found, entries[k]); }
      }
      PerformBasic(s, io);
    }
  }

  lemma BasicStep(s: State, step: Step)
    requires Basic(s) && Enabled(s, step)
    ensures Basic(Do(s, step)) && Do(s, step).lay == s.lay
  {
    match step
    case CommitWrite => CommitBasic(s);
    case RecoverWrite => RecoverBasic(s);
    case EndOp(i) => assert |Remove(s.active, i)| == |s.active| - 1;
    case _ =>
  }

  lemma {:induction false} BasicAlways(states: seq<State>, steps: seq<Step>, i: nat)
    requires Run(states, steps) && i < |states|
    ensures Basic(states[i]) && states[i].lay == states[0].lay
  {
    if i > 0 {
      assert Enabled(states[i - 1], steps[i - 1]);
      BasicAlways(states, steps, i - 1);
      BasicStep(states[i - 1], steps[i - 1]);
    }
  }

  // ---- what the logged writes add up to ----

  ghost function Play(d: Disk, events: seq<Event>): (r: Disk)
    ensures |r| == |d|
  {
    if events == [] then d
    else
      var e := events[|events| - 1];
      Put(Play(d, events[..|events| - 1]), Write(e.b, e.data))
  }

  ghost function PlayGroups(d: Disk, groups: seq<seq<Event>>): (r: Disk)
    ensures |r| == |d|
  {
    if groups == [] then d else Play(PlayGroups(d, groups[..|groups| - 1]), groups[|groups| - 1])
  }

  lemma PlayMore(d: Disk, events: seq<Event>, e: Event)
    ensures Play(d, events + [e]) == Put(Play(d, events), Write(e.b, e.data))
  {
    assert (events + [e])[..|events|] == events;
  }

  lemma PlayGroupsMore(d: Disk, groups: seq<seq<Event>>, g: seq<Event>)
    ensures PlayGroups(d, groups + [g]) == Play(PlayGroups(d, groups), g)
  {
    assert (groups + [g])[..|groups|] == groups;
  }

  /** The first disk with every committed transaction applied. */
  ghost function Durable(s: State): (r: Disk)
    ensures |r| == |s.first|
  {
    PlayGroups(s.first, s.groups)
  }

  /** Reads through the pinned buffers see every write so far, committed or not. */
  ghost predicate Sees(s: State, d: Disk, pinned: map<nat, Block>)
  {
    |d| == |s.first| &&
    forall b: nat :: Home(s.lay, d, b) ==> Contents(d, pinned, b) == Play(Durable(s), s.current)[b]
  }

  // ---- crash safety ----

  ghost predicate RunningInv(s: State) {
    && FitsDisk(s.lay, s.disk) && s.disk[s.lay.start][0] == 0
    && (forall b :: b in s.pinned <==> b in s.blocks)
    && SameHome(s.lay, s.disk, Durable(s)) && Sees(s, s.disk, s.pinned)
  }

  /** After k writes of the commit of t: the disk they leave and the buffers still dirty. */
  ghost predicate OnTrack(t: Txn, k: nat, d: Disk, pinned: map<nat, Block>) {
    && t.Ready() && (forall b :: b in t.cached <==> b in t.blocks)
    && k <= |t.Writes()| && d == After(t.disk, t.Writes(), k)
    && (forall b :: b in pinned ==> b in t.cached && pinned[b] == t.cached[b]) && (k <= |t.blocks| ==> pinned == t.cached)
    && (forall i :: 0 <= i < |t.blocks| && k <= |t.blocks| + 1 + i ==> t.blocks[i] in pinned)
  }

  ghost predicate CommittingInv(s: State)
    requires s.phase.Committing?
  {
    var t, k := s.phase.t, s.phase.k;
    && t.lay == s.lay && t.blocks == s.blocks && OnTrack(t, k, s.disk, s.pinned) && Reading(s)
  }

  /** The disk the commit started from, seen through its buffers; nothing is pending after the commit point. */
  ghost predicate Reading(s: State)
    requires s.phase.Committing?
  {
    var t, k := s.phase.t, s.phase.k;
    && Sees(s, t.disk, t.cached)
    && (if k <= |t.blocks| then SameHome(s.lay, t.disk, Durable(s)) else s.current == [])
  }

  ghost predicate RecoveringInv(s: State)
    requires s.phase.Recovering?
  {
    var found, k := s.phase.found, s.phase.k;
    && ValidHead(s.lay, found)
    && k <= |RecoveryWrites(s.lay, found)| && s.disk == After(found, RecoveryWrites(s.lay, found), k)
    && SameHome(s.lay, Recovered(s.lay, found), Durable(s))
  }

  ghost predicate CrashInv(s: State) {
    && Basic(s)
    && match s.phase
       case Running => RunningInv(s)
       case Committing(_, _) => CommittingInv(s)
       case Recovering(_, _) => RecoveringInv(s)
  }

  /** What a recovery started now would leave is exactly the committed transactions. */
  ghost predicate Recoverable(s: State) {
    ValidHead(s.lay, s.disk) && SameHome(s.lay, Recovered(s.lay, s.disk), Durable(s))
  }

  lemma InvRecoverable(s: State)
    requires CrashInv(s)
    ensures Recoverable(s)
  {
    match s.phase
    case Running => RecoveredEmpty(s.lay, s.disk);
    case Committing(t, k) => CommitCrashAtomic(t, k);
    case Recovering(found, k) => RecoveryCrash(s.lay, found, k);
  }

  lemma AppendKeeps(s: State, i: nat, b: nat, data: Block)
    requires s.phase.Running? && Basic(s) && RunningInv(s) && i < |s.active| && Home(s.lay, s.disk, b)
    ensures RunningInv(Append(s, i, b, data))
  {
    var s' := Append(s, i, b, data);
    PlayMore(Durable(s), s.current, Event(s.active[i].id, b, data));
    forall x: nat | Home(s.lay, s.disk, x)
      ensures Contents(s.disk, s'.pinned, x) == Play(Durable(s'), s'.current)[x]
    {
    }
  }

  lemma CloseKeeps(s: State, d: Disk, pinned: map<nat, Block>)
    requires Sees(s, d, pinned)
    ensures Sees(Close(s), d, pinned) && Durable(Close(s)) == Play(Durable(s), s.current)
  {
    PlayGroupsMore(s.first, s.groups, s.current);
  }

  lemma NextSlot(t: Txn, e: Disk, k: nat)
    requires t.Ready() && k < |t.blocks| && |e| == |t.disk|
    ensures var io := CommitIo(t.lay, t.blocks, k); !OffDisk(e, io) && Issue(t.lay, e, t.cached, io) == t.Nth(k)
  {
    assert Home(t.lay, t.disk, t.blocks[k]);
  }

  lemma NextHome(t: Txn, e: Disk, pinned: map<nat, Block>, i: nat)
    requires t.Ready() && i < |t.blocks| && |e| == |t.disk| && t.SlotsHold(e, |t.blocks|)
    requires forall b :: b in pinned ==> b in t.blocks
    ensures var io := CommitIo(t.lay, t.blocks, |t.blocks| + 1 + i);
            !OffDisk(e, io) && Issue(t.lay, e, pinned, io) == t.Nth(|t.blocks| + 1 + i)
  {
    var slot := t.lay.start + 1 + i;
    assert slot !in pinned by {
      HomesNotInLog(t.lay, t.disk, t.blocks);
      assert t.lay.InLog(slot);
    }
    assert Home(t.lay, t.disk, t.blocks[i]);
    assert CommitIo(t.lay, t.blocks, |t.blocks| + 1 + i) == Copy(slot, t.blocks[i]);
  }

  /** In the log area, the buffers give a commit the write that the transaction says comes next. */
  lemma NextWrite(t: Txn, e: Disk, pinned: map<nat, Block>, k: nat)
    requires t.Ready() && k < 2 * |t.blocks| + 2 && |e| == |t.disk|
    requires k <= |t.blocks| ==> e[t.lay.start] == t.disk[t.lay.start]
    requires |t.blocks| < k ==> e[t.lay.start] == t.Head() && t.SlotsHold(e, |t.blocks|)
    requires (forall b :: b in pinned ==> b in t.blocks) && (k <= |t.blocks| ==> pinned == t.cached)
    ensures var io := CommitIo(t.lay, t.blocks, k);
            !OffDisk(e, io) && Issue(t.lay, e, pinned, io) == t.Nth(k)
  {
    var n := |t.blocks|;
    if k < n {
      NextSlot(t, e, k);
    } else if n < k <= 2 * n {
      NextHome(t, e, pinned, k - n - 1);
    } else {
      NextHead(t, e, pinned, k == n);
    }
  }

  lemma NextHead(t: Txn, e: Disk, pinned: map<nat, Block>, commits: bool)
    requires t.Ready() && |e| == |t.disk| && e[t.lay.start] == if commits then t.disk[t.lay.start] else t.Head()
    ensures var k := if commits then |t.blocks| else 2 * |t.blocks| + 1;
            var io := CommitIo(t.lay, t.blocks, k);
            !OffDisk(e, io) && Issue(t.lay, e, pinned, io) == t.Nth(k)
  {
  }

  lemma NextIs(s: State)
    requires s.phase.Committing? && CommittingInv(s) && s.phase.k < |s.phase.t.Writes()|
    ensures s.phase.k < Total(|s.blocks|) && FitsDisk(s.lay, s.disk)
    ensures var io := CommitIo(s.lay, s.blocks, s.phase.k);
            !OffDisk(s.disk, io) && Issue(s.lay, s.disk, s.pinned, io) == s.phase.t.Writes()[s.phase.k]
  {
    var t, k := s.phase.t, s.phase.k;
    StageReached(t, t.Writes(), k);
    NextWrite(t, s.disk, s.pinned, k);
  }

  /** Writing a log slot or the header leaves the logged blocks pinned. */
  lemma StillPinned(t: Txn, k: nat)
    requires t.Ready() && k <= |t.blocks| && forall b :: b in t.cached <==> b in t.blocks
    ensures t.cached - {t.Nth(k).blockno} == t.cached
  {
    HomesNotInLog(t.lay, t.disk, t.blocks);
    assert t.lay.InLog(t.Nth(k).blockno);
  }

  lemma CommitWriteKeeps(s: State)
    requires s.phase.Committing? && CommittingInv(s) && Enabled(s, CommitWrite)
    ensures CommittingInv(Do(s, CommitWrite))
  {
    var t, k := s.phase.t, s.phase.k;
    var s' := Do(s, CommitWrite);
    assert s' == if k == |t.blocks| then Close(Wrote(s, t.Writes()[k])) else Wrote(s, t.Writes()[k]) by {
      NextIs(s);
      DoesWrite(s);
    }
    assert OnTrack(t, k + 1, s'.disk, s'.pinned) by { OnTrackNext(t, k, s.disk, s.pinned); }
    assert Reading(s') by { ReadingNext(s, t.Writes()[k]); }
  }

  ghost function Wrote(s: State, w: Write): (s': State)
    requires s.phase.Committing?
  {
    s.(disk := Put(s.disk, w), pinned := s.pinned - {w.blockno}, phase := Committing(s.phase.t, s.phase.k + 1))
  }

  lemma DoesWrite(s: State)
    requires Enabled(s, CommitWrite) && !OffDisk(s.disk, CommitIo(s.lay, s.blocks, s.phase.k))
    ensures var s' := Wrote(s, Issue(s.lay, s.disk, s.pinned, CommitIo(s.lay, s.blocks, s.phase.k)));
            Do(s, CommitWrite) == if s.phase.k == |s.blocks| then Close(s') else s'
  {
  }

  lemma OnTrackNext(t: Txn, k: nat, d: Disk, pinned: map<nat, Block>)
    requires OnTrack(t, k, d, pinned) && k < |t.Writes()|
    ensures OnTrack(t, k + 1, Put(d, t.Writes()[k]), pinned - {t.Writes()[k].blockno})
  {
    var n, b := |t.blocks|, t.Writes()[k].blockno;
    if k <= n { StillPinned(t, k); }
    forall i | 0 <= i < n && k + 1 <= n + 1 + i ensures t.blocks[i] != b {
      assert Home(t.lay, t.disk, t.blocks[i]);
      if n < k { assert b == t.blocks[k - n - 1]; } else { assert t.lay.InLog(b); }
    }
  }

  /** All through a commit, reads see every write. */
  lemma TrackSees(s: State)
    requires s.phase.Committing? && CommittingInv(s)
    ensures Sees(s, s.disk, s.pinned)
  {
    var t, k := s.phase.t, s.phase.k;
    if t.blocks != [] { TrackContents(t, k, s.disk, s.pinned); } else { assert s.pinned == t.cached; }
    forall b: nat | Home(s.lay, s.disk, b) ensures Contents(s.disk, s.pinned, b) == Play(Durable(s), s.current)[b] {
      assert Home(s.lay, t.disk, b);
    }
  }

  lemma TrackContents(t: Txn, k: nat, d: Disk, pinned: map<nat, Block>)
    requires OnTrack(t, k, d, pinned) && t.blocks != []
    ensures forall b: nat :: Home(t.lay, t.disk, b) ==> Contents(d, pinned, b) == Contents(t.disk, t.cached, b)
  {
    var n := |t.blocks|;
    StageReached(t, t.Writes(), k);
    forall b: nat | Home(t.lay, t.disk, b) ensures Contents(d, pinned, b) == Contents(t.disk, t.cached, b) {
      if b in t.blocks && b !in pinned {
        var i :| 0 <= i < n && t.blocks[i] == b;
        assert n + 1 + i < k;
        assert d[t.blocks[i]] == t.cached[b];
      }
    }
  }

  lemma ReadingNext(s: State, w: Write)
    requires s.phase.Committing? && Reading(s)
    ensures Reading(if s.phase.k == |s.phase.t.blocks| then Close(Wrote(s, w)) else Wrote(s, w))
  {
    var t, s' := s.phase.t, Wrote(s, w);
    assert Durable(s') == Durable(s);
    assert Sees(s', t.disk, t.cached);
    if s.phase.k == |t.blocks| { CloseKeeps(s', t.disk, t.cached); }
  }

  /** A disk with the open transaction in place holds everything written so far. */
  lemma InPlaceSeen(s: State, t: Txn, e: Disk)
    requires t.lay == s.lay && t.InPlace(e) && Sees(s, t.disk, t.cached)
    requires forall b :: b in t.cached <==> b in t.blocks
    ensures SameHome(s.lay, e, Play(Durable(s), s.current))
  {
  }

  /** At the end of a commit the disk holds everything written so far and the log is empty. */
  lemma CommitEnds(s: State)
    requires s.phase.Committing? && CommittingInv(s) && s.phase.k == |s.phase.t.Writes()|
    ensures FitsDisk(s.lay, s.disk) && s.disk[s.lay.start][0] == 0 && SameHome(s.lay, s.disk, Play(Durable(s), s.current))
  {
    var t := s.phase.t;
    if t.blocks != [] { CommitFinished(t); }
    InPlaceSeen(s, t, s.disk);
  }

  lemma FinishCommitKeeps(s: State)
    requires s.phase.Committing? && CommittingInv(s) && Enabled(s, FinishCommit)
    ensures RunningInv(Do(s, FinishCommit))
  {
    CommitEnds(s);
    if s.blocks == [] { CloseKeeps(s, s.phase.t.disk, s.phase.t.cached); }
    var s' := Do(s, FinishCommit);
    assert Durable(s') == Play(Durable(s), s.current);
    NothingPinned(s');
  }

  /** With nothing pinned or pending, reads see the committed transactions. */
  lemma NothingPinned(s: State)
    requires FitsDisk(s.lay, s.disk) && s.blocks == [] && s.pinned == map[] && s.current == []
    requires s.disk[s.lay.start][0] == 0 && SameHome(s.lay, s.disk, Durable(s))
    ensures RunningInv(s)
  {
  }

  /** A commit that fits in the log area may start. */
  lemma EndOpKeeps(s: State, i: nat)
    requires CrashInv(s) && Enabled(s, EndOp(i)) && Fits(Do(s, EndOp(i)))
    ensures CrashInv(Do(s, EndOp(i)))
  {
    var s' := Do(s, EndOp(i));
    BasicStep(s, EndOp(i));
    if s'.phase.Committing? {
      assert s'.phase.t.Ready();
      assert Sees(s', s.disk, s.pinned);
    }
  }

  lemma RecoveryKeeps(s: State, step: Step)
    requires CrashInv(s) && Enabled(s, step) && step in {RecoverWrite, FinishRecovery}
    ensures CrashInv(Do(s, step))
  {
    BasicStep(s, step);
    if step == FinishRecovery {
      RecoveredEmpty(s.lay, s.phase.found);
      NothingPinned(Do(s, step));
    } else {
      RecoveryNext(s);
    }
  }

  /** A recovery from the log area writes what the header it found says. */
  lemma RecoveryNext(s: State)
    requires s.phase.Recovering? && Basic(s) && RecoveringInv(s) && s.phase.k <= s.phase.found[s.lay.start][0]
    ensures var found, k := s.phase.found, s.phase.k;
            var io := RecoveryIo(s.lay, Entries(found[s.lay.start]), k);
            !OffDisk(s.disk, io) && Issue(s.lay, s.disk, s.pinned, io) == RecoveryWrites(s.lay, found)[k]
  {
    var found, k := s.phase.found, s.phase.k;
    var entries := Entries(found[s.lay.start]);
    RecoveryShape(s.lay, found);
    HomesNotInLog(s.lay, found, entries);
    var b := if k < |entries| then s.lay.start + 1 + k else s.lay.start;
    assert s.lay.InLog(b);
    RecoveryCutShort(s.lay, found, k, b);
    if k < |entries| { assert Home(s.lay, found, entries[k]); }
  }

  /** begin_op and log_write's test touch neither disk nor log. */
  lemma MemoryKeeps(s: State, step: Step)
    requires CrashInv(s) && Enabled(s, step) && (step.BeginOp? || step.TestWrite?)
    ensures CrashInv(Do(s, step))
  {
    var s' := Do(s, step);
    BasicStep(s, step);
    assert Durable(s') == Durable(s);
  }

  lemma CrashKeeps(s: State)
    requires CrashInv(s) && Enabled(s, Crash)
    ensures CrashInv(Do(s, Crash))
  {
    InvRecoverable(s);
  }

  lemma WriteKeeps(s: State, i: nat, b: nat, data: Block)
    requires CrashInv(s) && Enabled(s, AppendWrite(i, b, data))
    ensures CrashInv(Do(s, AppendWrite(i, b, data)))
  {
    BasicStep(s, AppendWrite(i, b, data));
    AppendKeeps(s, i, b, data);
  }

  lemma CommitKeeps(s: State, step: Step)
    requires CrashInv(s) && Enabled(s, step) && step in {CommitWrite, FinishCommit}
    ensures CrashInv(Do(s, step))
  {
    BasicStep(s, step);
    if step == CommitWrite {
      NextIs(s);
      CommitWriteKeeps(s);
    } else {
      FinishCommitKeeps(s);
    }
  }

  /** The commit, if there is one, has a slot in the log area for every block. */
  predicate Fits(s: State) { s.phase.Committing? ==> |s.blocks| < s.lay.size }

  /** Every step keeps what a crash needs, but for the start of a commit that does not fit. */
  lemma CrashStep(s: State, step: Step)
    requires CrashInv(s) && Enabled(s, step) && Fits(Do(s, step))
    ensures CrashInv(Do(s, step))
  {
    match step
    case BeginOp(_) => MemoryKeeps(s, step);
    case TestWrite(_) => MemoryKeeps(s, step);
    case AppendWrite(i, b, data) => WriteKeeps(s, i, b, data);
    case EndOp(i) => EndOpKeeps(s, i);
    case CommitWrite => CommitKeeps(s, step);
    case FinishCommit => CommitKeeps(s, step);
    case Crash => CrashKeeps(s);
    case RecoverWrite => RecoveryKeeps(s, step);
    case FinishRecovery => RecoveryKeeps(s, step);
  }

  /** Up to state i, every commit fitted. */
  ghost predicate Fitting(states: seq<State>, i: nat)
    requires i < |states|
  {
    forall j :: 0 <= j <= i ==> Fits(states[j])
  }

  lemma {:induction false} CrashInvAlways(states: seq<State>, steps: seq<Step>, i: nat)
    requires Run(states, steps) && i < |states| && Fitting(states, i)
    ensures CrashInv(states[i])
  {
    if i > 0 {
      assert Enabled(states[i - 1], steps[i - 1]);
      CrashInvAlways(states, steps, i - 1);
      CrashStep(states[i - 1], steps[i - 1]);
    }
  }

  // ---- commits that do not fit ----

  /** A commit that has not written past the log area: the disk is as the committed transactions left it. */
  ghost predicate Within(s: State) {
    && Basic(s) && s.phase.Committing? && s.phase.k < s.lay.size && s.phase.k <= |s.blocks|
    && s.disk[s.lay.start][0] == 0 && SameHome(s.lay, s.disk, Durable(s))
    && forall b: nat :: s.lay.InLog(b) ==> b !in s.pinned
  }

  lemma WithinNext(s: State)
    requires Within(s) && s.phase.k + 1 < s.lay.size && s.phase.k < |s.blocks| && Enabled(s, CommitWrite)
    ensures var s' := Do(s, CommitWrite); Within(s') && s' == s.(disk := s'.disk, phase := Committing(s.phase.t, s.phase.k + 1))
  {
    CommitBasic(s);
    assert s.lay.InLog(s.lay.start + 1 + s.phase.k);
    assert s.pinned - {s.lay.start + 1 + s.phase.k} == s.pinned;
    assert Home(s.lay, s.disk, s.blocks[s.phase.k]);
  }

  /** The write for the first block without a slot goes to the block behind the log area.  Recovery from
      there gives the committed transactions exactly when it had those contents already. */
  lemma PastAreaIff(s: State)
    requires Within(s) && s.phase.k == s.lay.size - 1 < |s.blocks| && s.lay.start + s.lay.size < |s.disk| && Enabled(s, CommitWrite)
    ensures s.blocks[s.lay.size - 1] < |s.disk| == |Durable(s)|
    ensures Recoverable(Do(s, CommitWrite))
            <==> Contents(s.disk, s.pinned, s.blocks[s.lay.size - 1]) == Durable(s)[s.lay.start + s.lay.size]
  {
    var b, h := s.blocks[s.lay.size - 1], s.lay.start + s.lay.size;
    var s' := Do(s, CommitWrite);
    assert Home(s.lay, s.disk, b);
    assert s'.disk == Put(s.disk, Write(h, Contents(s.disk, s.pinned, b)));
    RecoveredEmpty(s.lay, s'.disk);
    assert Home(s.lay, s.disk, h);
  }
}
