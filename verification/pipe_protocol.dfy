/** Pipes: any number of processes reading, writing, closing and being killed, in
    any interleaving.

    A step is what a process does between two lock operations.  The pipe's own
    lock and ptable.lock are explicit; a wakeup holds ptable.lock for one step. */
module PipeProtocol {
  import opened Common

  const PIPESIZE: nat := 512

  type Buffer = d: seq<nat> | |d| == PIPESIZE witness seq(PIPESIZE, i => 0)

  datatype Call = Write(bytes: seq<nat>) | Read(n: nat) | Close(writable: bool)

  /** Where a process is in pipe.c (and in sleep, called from there). */
  datatype Pc =
    | Idle
    | Acquire(call: Call)            // wants the pipe lock
    | Test(call: Call, i: nat)       // has it, at the top of the loop; i bytes done
    | WakeFirst(call: Call, i: nat)  // pipewrite, full: wakeup before sleep
    | SleepLock(call: Call, i: nat)  // sleep: wants ptable.lock, still has the pipe lock
    | SleepDrop(call: Call, i: nat)  // sleep: has both
    | SleepMark(call: Call, i: nat)  // sleep: has ptable.lock only
    | Asleep(call: Call, i: nat)     // marked SLEEPING; returns once made RUNNABLE
    | Again(call: Call, i: nat)      // sleep: wants the pipe lock back
    | Copy(call: Call, i: nat)       // piperead, copying
    | WakeLast(call: Call, i: nat)   // the final wakeup
    | Release(call: Call, i: nat)    // about to release the pipe lock

  datatype Proc = Proc(pc: Pc, sleeping: bool, killed: bool)

  /** The buffer.  `stored` and `delivered` are all bytes ever put into it and taken out of it. */
  datatype Ring = Ring(nread: nat, nwrite: nat, data: Buffer, stored: seq<nat>, delivered: seq<nat>) {
    predicate Full() { nwrite == (nread + PIPESIZE) % 0x1_0000_0000 }

    predicate Empty() { nread == nwrite }

    function Put(b: nat): (r: Ring) {
      var slot := nwrite % 512;
      Ring(nread, (nwrite + 1) % 0x1_0000_0000, data[slot := b], stored + [b], delivered)
    }

    function Get(): (r: Ring) {
      var slot := nread % 512;
      Ring((nread + 1) % 0x1_0000_0000, nwrite, data, stored, delivered + [data[slot]])
    }
  }

  /** `rfile` and `wfile` say whether an open file still refers to that end; a read or write holds such
      a reference, so an end is closed only when no call on it is in progress. */
  datatype Ends = Ends(readopen: bool, writeopen: bool, rfile: bool, wfile: bool, freed: bool)

  /** The shared state: p->lock and ptable.lock by holder, the buffer, the two ends. */
  datatype Pipe = Pipe(plock: Option<nat>, tlock: Option<nat>, ring: Ring, ends: Ends)

  datatype State = State(pipe: Pipe, procs: map<nat, Proc>)

  datatype Step = Start(p: nat, call: Call) | Go(p: nat) | Kill(p: nat)

  predicate Reads(pc: Pc) { !pc.Idle? && pc.call.Read? }

  predicate Writes(pc: Pc) { !pc.Idle? && pc.call.Write? }

  /** Sleepers to wake: &p->nread is the channel of readers, &p->nwrite that of writers. */
  datatype Wake = Nobody | Readers | Writers

  /** What a step makes of the shared state, of the process, and whom it wakes. */
  datatype Effect = Effect(pipe: Pipe, me: Proc, wake: Wake)

  // ---- steps ----

  /** Whether p can move now: it may wait for a free lock or to be woken. */
  predicate Ready(h: Pipe, x: Proc) {
    match x.pc
    case Idle => false
    case Acquire(_) => h.plock.None?
    case Again(_, _) => h.plock.None?
    case WakeFirst(_, _) => h.tlock.None?
    case SleepLock(_, _) => h.tlock.None?
    case WakeLast(_, _) => h.tlock.None?
    case Asleep(_, _) => !x.sleeping && h.tlock.None?
    case _ => true
  }

  ghost predicate CanStart(s: State, call: Call) {
    match call
    case Read(_) => s.pipe.ends.rfile
    case Write(_) => s.pipe.ends.wfile
    case Close(writable) =>
      if writable then s.pipe.ends.wfile && forall q :: q in s.procs ==> !Writes(s.procs[q].pc)
      else s.pipe.ends.rfile && forall q :: q in s.procs ==> !Reads(s.procs[q].pc)
  }

  ghost predicate Enabled(s: State, step: Step) {
    && step.p in s.procs
    && match step
       case Start(p, call) => s.procs[p].pc.Idle? && !s.pipe.ends.freed && CanStart(s, call)
       case Go(p) => Ready(s.pipe, s.procs[p])
       case Kill(p) => s.pipe.tlock.None?
  }

  /** The channel that the final wakeup of a call is for. */
  function WakesLast(call: Call): (w: Wake) {
    if call.Write? || (call.Close? && call.writable) then Readers else Writers
  }

  /** pipewrite at the top of its loops: store a byte, give up, wait, or finish. */
  function DoWrite(h: Pipe, x: Proc, call: Call, i: nat): (e: Effect)
    requires call.Write?
  {
    if i >= |call.bytes| then Effect(h, Proc(WakeLast(call, i), x.sleeping, x.killed), Nobody)
    else if h.ring.Full() then
      if !h.ends.readopen || x.killed then Effect(Pipe(None, h.tlock, h.ring, h.ends), Proc(Idle, x.sleeping, x.killed), Nobody)
      else Effect(h, Proc(WakeFirst(call, i), x.sleeping, x.killed), Nobody)
    else
      Effect(Pipe(h.plock, h.tlock, h.ring.Put(call.bytes[i]), h.ends), Proc(Test(call, i + 1), x.sleeping, x.killed), Nobody)
  }

  /** piperead at the top of its waiting loop. */
  function DoRead(h: Pipe, x: Proc, call: Call): (e: Effect)
    requires call.Read?
  {
    if h.ring.Empty() && h.ends.writeopen then
      if x.killed then Effect(Pipe(None, h.tlock, h.ring, h.ends), Proc(Idle, x.sleeping, x.killed), Nobody)
      else Effect(h, Proc(SleepLock(call, 0), x.sleeping, x.killed), Nobody)
    else Effect(h, Proc(Copy(call, 0), x.sleeping, x.killed), Nobody)
  }

  /** piperead's copying loop. */
  function DoCopy(h: Pipe, x: Proc, call: Call, i: nat): (e: Effect)
    requires call.Read?
  {
    if i >= call.n || h.ring.Empty() then Effect(h, Proc(WakeLast(call, i), x.sleeping, x.killed), Nobody)
    else Effect(Pipe(h.plock, h.tlock, h.ring.Get(), h.ends), Proc(Copy(call, i + 1), x.sleeping, x.killed), Nobody)
  }

  function DoClose(h: Pipe, x: Proc, call: Call): (e: Effect)
    requires call.Close?
  {
    var ends := if call.writable then h.ends.(writeopen := false) else h.ends.(readopen := false);
    Effect(Pipe(h.plock, h.tlock, h.ring, ends), Proc(WakeLast(call, 0), x.sleeping, x.killed), Nobody)
  }

  function DoTest(h: Pipe, x: Proc, call: Call, i: nat): (e: Effect) {
    match call
    case Write(_) => DoWrite(h, x, call, i)
    case Read(_) => DoRead(h, x, call)
    case Close(_) => DoClose(h, x, call)
  }

  /** pipeclose frees the pipe when the other end is closed too. */
  function DoRelease(h: Pipe, x: Proc, call: Call): (e: Effect) {
    var ends := if call.Close? && !h.ends.readopen && !h.ends.writeopen then h.ends.(freed := true) else h.ends;
    Effect(Pipe(None, h.tlock, h.ring, ends), Proc(Idle, x.sleeping, x.killed), Nobody)
  }

  /** One step of process p, which is x. */
  function Move(h: Pipe, x: Proc, p: nat): (e: Effect) {
    match x.pc
    case Idle => Effect(h, x, Nobody)
    case Acquire(call) => Effect(Pipe(Some(p), h.tlock, h.ring, h.ends), Proc(Test(call, 0), x.sleeping, x.killed), Nobody)
    case Test(call, i) => DoTest(h, x, call, i)
    case WakeFirst(call, i) => Effect(h, Proc(SleepLock(call, i), x.sleeping, x.killed), Readers)
    case SleepLock(call, i) => Effect(Pipe(h.plock, Some(p), h.ring, h.ends), Proc(SleepDrop(call, i), x.sleeping, x.killed), Nobody)
    case SleepDrop(call, i) => Effect(Pipe(None, h.tlock, h.ring, h.ends), Proc(SleepMark(call, i), x.sleeping, x.killed), Nobody)
    case SleepMark(call, i) => Effect(Pipe(h.plock, None, h.ring, h.ends), Proc(Asleep(call, i), true, x.killed), Nobody)
    case Asleep(call, i) => Effect(h, Proc(Again(call, i), x.sleeping, x.killed), Nobody)
    case Again(call, i) => Effect(Pipe(Some(p), h.tlock, h.ring, h.ends), Proc(Test(call, i), x.sleeping, x.killed), Nobody)
    case Copy(call, i) => if call.Read? then DoCopy(h, x, call, i) else Effect(h, x, Nobody)
    case WakeLast(call, i) => Effect(h, Proc(Release(call, i), x.sleeping, x.killed), WakesLast(call))
    case Release(call, i) => DoRelease(h, x, call)
  }

  /** Starting a close gives up the last reference to that end. */
  function DoStart(h: Pipe, x: Proc, call: Call): (e: Effect) {
    var ends := if !call.Close? then h.ends else if call.writable then h.ends.(wfile := false) else h.ends.(rfile := false);
    Effect(Pipe(h.plock, h.tlock, h.ring, ends), Proc(Acquire(call), x.sleeping, x.killed), Nobody)
  }

  function EffectOf(h: Pipe, x: Proc, step: Step): (e: Effect) {
    match step
    case Start(p, call) => DoStart(h, x, call)
    case Go(p) => Move(h, x, p)
    case Kill(p) => Effect(h, Proc(x.pc, false, true), Nobody)
  }

  predicate Wakes(w: Wake, x: Proc) {
    x.pc.Asleep? && ((w.Readers? && x.pc.call.Read?) || (w.Writers? && x.pc.call.Write?))
  }

  /** wakeup1 on a channel. */
  function Woken(procs: map<nat, Proc>, w: Wake): (r: map<nat, Proc>)
    ensures r.Keys == procs.Keys
  {
    map p | p in procs :: if Wakes(w, procs[p]) then procs[p].(sleeping := false) else procs[p]
  }

  function Do(s: State, step: Step): (t: State)
    requires step.p in s.procs
  {
    var e := EffectOf(s.pipe, s.procs[step.p], step);
    State(e.pipe, Woken(s.procs[step.p := e.me], e.wake))
  }

  /** pipealloc: both ends open, nothing in the pipe, nobody in a pipe call. */
  ghost predicate Init(s: State) {
    && s.pipe.plock.None? && s.pipe.tlock.None? && s.pipe.ends == Ends(true, true, true, true, false)
    && s.pipe.ring.nread == s.pipe.ring.nwrite == 0 && s.pipe.ring.stored == s.pipe.ring.delivered == []
    && forall p :: p in s.procs ==> s.procs[p].pc.Idle? && !s.procs[p].sleeping
  }

  // ---- runs ----

  ghost predicate Run(s: State, steps: seq<Step>)
    decreases |steps|
  {
    steps == [] ||
    var last := |steps| - 1;
    Run(s, steps[..last]) && Enabled(Play(s, steps[..last]), steps[last])
  }

  ghost function Play(s: State, steps: seq<Step>): (t: State)
    decreases |steps|
  {
    if steps == [] then s else
    var t, step := Play(s, steps[..|steps| - 1]), steps[|steps| - 1];
    if step.p in t.procs then Do(t, step) else t
  }

  // ---- locks ----

  predicate HasPipeLock(pc: Pc) {
    pc.Test? || pc.WakeFirst? || pc.SleepLock? || pc.SleepDrop? || pc.Copy? || pc.WakeLast? || pc.Release?
  }

  predicate HasTableLock(pc: Pc) { pc.SleepDrop? || pc.SleepMark? }

  predicate Fits(x: Proc) {
    && (x.sleeping ==> x.pc.Asleep?)
    && (x.pc.WakeFirst? ==> x.pc.call.Write?)
    && (x.pc.Copy? ==> x.pc.call.Read?)
    && (x.pc.SleepLock? || x.pc.SleepDrop? || x.pc.SleepMark? || x.pc.Asleep? || x.pc.Again? ==> !x.pc.call.Close?)
  }

  /** Each lock is held by the one process whose position says so; only sleepers sleep; positions fit calls. */
  ghost predicate Locks(s: State) {
    && (forall p :: p in s.procs ==> (HasPipeLock(s.procs[p].pc) <==> s.pipe.plock == Some(p)))
    && (forall p :: p in s.procs ==> (HasTableLock(s.procs[p].pc) <==> s.pipe.tlock == Some(p)))
    && (s.pipe.plock.Some? ==> s.pipe.plock.value in s.procs) && (s.pipe.tlock.Some? ==> s.pipe.tlock.value in s.procs)
    && (forall p :: p in s.procs ==> Fits(s.procs[p]))
  }

  /** How the locks change with the position of the process that moved. */
  predicate LocksFollow(h: Pipe, a: Pc, h': Pipe, b: Pc, p: nat) {
    && (HasPipeLock(b) ==> h'.plock == Some(p) && (HasPipeLock(a) || h.plock.None?))
    && (!HasPipeLock(b) ==> h'.plock == if HasPipeLock(a) then None else h.plock)
    && (HasTableLock(b) ==> h'.tlock == Some(p) && (HasTableLock(a) || h.tlock.None?))
    && (!HasTableLock(b) ==> h'.tlock == if HasTableLock(a) then None else h.tlock)
  }

  /** What the process itself knows when it moves. */
  predicate Mine(h: Pipe, x: Proc, step: Step) {
    && Fits(x) && (HasPipeLock(x.pc) ==> h.plock == Some(step.p)) && (HasTableLock(x.pc) ==> h.tlock == Some(step.p))
    && match step
       case Start(_, _) => x.pc.Idle?
       case Go(_) => Ready(h, x)
       case Kill(_) => h.tlock.None?
  }

  lemma EffectLocks(h: Pipe, x: Proc, step: Step)
    requires Mine(h, x, step)
    ensures var e := EffectOf(h, x, step); LocksFollow(h, x.pc, e.pipe, e.me.pc, step.p) && Fits(e.me)
  {
  }

  /** One process moves, and perhaps wakes others; nothing else happens to them. */
  ghost predicate Moved(s: State, t: State, p: nat, e: Effect) {
    && p in s.procs && t.pipe == e.pipe && t.procs.Keys == s.procs.Keys
    && t.procs[p] == (if Wakes(e.wake, e.me) then e.me.(sleeping := false) else e.me)
    && forall q :: q in s.procs && q != p ==>
         t.procs[q] == if Wakes(e.wake, s.procs[q]) then s.procs[q].(sleeping := false) else s.procs[q]
  }

  lemma StepMoves(s: State, step: Step)
    requires Locks(s) && Enabled(s, step)
    ensures Mine(s.pipe, s.procs[step.p], step)
    ensures Moved(s, Do(s, step), step.p, EffectOf(s.pipe, s.procs[step.p], step))
  {
  }

  lemma MovedLocks(s: State, t: State, p: nat, e: Effect)
    requires Locks(s) && Moved(s, t, p, e) && LocksFollow(s.pipe, s.procs[p].pc, e.pipe, e.me.pc, p) && Fits(e.me)
    ensures Locks(t)
  {
    forall q | q in t.procs ensures Fits(t.procs[q]) {
      if q != p { assert Fits(s.procs[q]); }
    }
  }

  lemma LocksKept(s: State, step: Step)
    requires Locks(s) && Enabled(s, step)
    ensures Locks(Do(s, step))
  {
    StepMoves(s, step);
    EffectLocks(s.pipe, s.procs[step.p], step);
    MovedLocks(s, Do(s, step), step.p, EffectOf(s.pipe, s.procs[step.p], step));
  }

  // ---- first in, first out ----

  /** The bytes between the two counters are in the buffer, in order; the 32-bit counters may have wrapped. */
  ghost predicate Fifo(r: Ring) {
    && r.delivered <= r.stored && |r.stored| <= |r.delivered| + 512
    && r.nread == |r.delivered| % 0x1_0000_0000 && r.nwrite == |r.stored| % 0x1_0000_0000
    && forall k: nat :: |r.delivered| <= k < |r.stored| ==> r.data[k % 512] == r.stored[k]
  }

  lemma SlotApart(a: nat, b: nat)
    requires b < a < b + 512
    ensures a % 512 != b % 512
  {
  }

  lemma SlotOf(n: nat)
    ensures n % 0x1_0000_0000 % 512 == n % 512
  {
  }

  /** The tests on the wrapped counters say what they mean. */
  lemma CountersMean(r: Ring)
    requires Fifo(r)
    ensures r.Empty() <==> |r.stored| == |r.delivered|
    ensures r.Full() <==> |r.stored| == |r.delivered| + 512
  {
  }

  lemma FifoPut(r: Ring, b: nat)
    requires Fifo(r) && !r.Full()
    ensures Fifo(r.Put(b))
  {
    CountersMean(r);
    SlotOf(|r.stored|);
    CounterNext(|r.stored|);
    forall k: nat | |r.delivered| <= k < |r.stored| ensures k % 512 != |r.stored| % 512 { SlotApart(|r.stored|, k); }
  }

  lemma FifoGet(r: Ring)
    requires Fifo(r) && !r.Empty()
    ensures Fifo(r.Get())
  {
    CountersMean(r);
    var n := |r.delivered|;
    SlotOf(n);
    assert r.data[n % 512] == r.stored[n];
    assert r.Get().delivered == r.stored[..n + 1];
    CounterNext(n);
  }

  lemma CounterNext(n: nat)
    ensures (n % 0x1_0000_0000 + 1) % 0x1_0000_0000 == (n + 1) % 0x1_0000_0000
  {
  }

  /** The ring changes only by Put when not full and Get when not empty. */
  lemma RingSteps(h: Pipe, x: Proc, step: Step)
    ensures var r := EffectOf(h, x, step).pipe.ring;
      || r == h.ring
      || (!h.ring.Full() && step.Go? && x.pc.Test? && x.pc.call.Write? && x.pc.i < |x.pc.call.bytes| && r == h.ring.Put(x.pc.call.bytes[x.pc.i]))
      || (!h.ring.Empty() && step.Go? && x.pc.Copy? && r == h.ring.Get())
  {
  }

  lemma FifoKept(h: Pipe, x: Proc, step: Step)
    requires Fifo(h.ring)
    ensures Fifo(EffectOf(h, x, step).pipe.ring)
  {
    RingSteps(h, x, step);
    var r := EffectOf(h, x, step).pipe.ring;
    if r != h.ring {
      if step.Go? && x.pc.Copy? { FifoGet(h.ring); } else { FifoPut(h.ring, x.pc.call.bytes[x.pc.i]); }
    }
  }
}
