/** Scheduling, fork, exit, wait and kill on any number of CPUs, in any interleaving.

    ptable.lock is held by a CPU, possibly across a switch from the process that
    took it to the scheduler and on to the process that releases it. */
module ProcRuns {
  import opened Common
  import opened ProcTable

  /** What a CPU is executing. */
  datatype CpuPc =
    | Idle          // scheduler, without the lock
    | Loop(i: nat)  // scheduler's loop, at slot i
    | Enter         // just switched to its process, lock still held
    | Run           // process code, without the lock
    | Scan          // process in wait's loop, with the lock
    | Back          // process has changed its state and called sched

  /** c->proc, and where the scheduler's loop stands while a process runs. */
  datatype Cpu = Cpu(pc: CpuPc, proc: Option<nat>, at: nat)

  datatype State = State(lock: Option<nat>, table: Table, cpus: map<nat, Cpu>, init: nat)

  datatype Step =
    | Acquire(c: nat)               // scheduler takes the lock
    | Look(c: nat)                  // one round of its loop
    | Go(c: nat)                    // the process it switched to goes on
    | Leave(c: nat)                 // the scheduler goes on after the process came back
    | Yield(c: nat)
    | Sleep(c: nat, n: nat)         // sleep on a channel that is not a process
    | Wait(c: nat)                  // wait takes the lock
    | Kids(c: nat)                  // wait's scan, and what it decides
    | Exit(c: nat)
    | Alloc(c: nat)                 // fork: allocproc
    | Fail(c: nat)                  // fork: no memory
    | SetParent(c: nat)             // fork: np->parent = curproc, without the lock
    | Launch(c: nat)                // fork: np->state = RUNNABLE
    | Kill(c: nat, k: nat)
    | Wakeup(c: nat, chan: Chan)

  // ---- steps ----

  /** CPU c runs process code without the lock, on a process doing `act`. */
  predicate Runs(s: State, c: nat) {
    && c in s.cpus && s.cpus[c].pc.Run? && s.cpus[c].proc.Some? && s.cpus[c].proc.value < |s.table|
  }

  function Me(s: State, c: nat): (p: nat)
    requires Runs(s, c)
  {
    s.cpus[c].proc.value
  }

  predicate Has(s: State, c: nat) {
    c in s.cpus && s.cpus[c].proc.Some? && s.cpus[c].proc.value < |s.table|
  }

  ghost predicate Enabled(s: State, step: Step) {
    match step
    case Acquire(c) => c in s.cpus && s.cpus[c].pc.Idle? && s.lock.None?
    case Look(c) => c in s.cpus && s.cpus[c].pc.Loop?
    case Go(c) => Has(s, c) && s.cpus[c].pc.Enter?
    case Leave(c) => Has(s, c) && s.cpus[c].pc.Back?
    case Yield(c) => Runs(s, c) && s.lock.None?
    case Sleep(c, _) => Runs(s, c) && s.lock.None?
    case Wait(c) => Runs(s, c) && s.lock.None? && s.table[Me(s, c)].act.Plain?
    case Kids(c) => Has(s, c) && s.cpus[c].pc.Scan?
    case Exit(c) => Runs(s, c) && s.lock.None? && s.table[Me(s, c)].act.Plain? && Me(s, c) != s.init
    case Alloc(c) => Runs(s, c) && s.lock.None? && s.table[Me(s, c)].act.Plain?
    case Fail(c) => Runs(s, c) && s.table[Me(s, c)].act.Forking? && s.table[Me(s, c)].act.np < |s.table|
    case SetParent(c) => Runs(s, c) && s.table[Me(s, c)].act.Forking? && s.table[Me(s, c)].act.np < |s.table|
    case Launch(c) => Runs(s, c) && s.lock.None? && s.table[Me(s, c)].act.ForkSet? && s.table[Me(s, c)].act.np < |s.table|
    case Kill(c, k) => Runs(s, c) && s.lock.None? && k < |s.table|
    case Wakeup(c, _) => Runs(s, c) && s.lock.None?
  }

  /** The state with CPU c, the lock and the table replaced. */
  function Put(s: State, c: nat, cpu: Cpu, lock: Option<nat>, table: Table): (t: State) {
    State(lock, table, s.cpus[c := cpu], s.init)
  }

  function PcOf(cpu: Cpu, pc: CpuPc): (r: Cpu) { Cpu(pc, cpu.proc, cpu.at) }

  /** One round of the scheduler's loop. */
  function DoLook(s: State, c: nat): (t: State)
    requires c in s.cpus && s.cpus[c].pc.Loop?
  {
    var i := s.cpus[c].pc.i;
    if i >= |s.table| then Put(s, c, Cpu(Idle, None, i), None, s.table)
    else if !s.table[i].state.Runnable? then Put(s, c, Cpu(Loop(i + 1), None, i), s.lock, s.table)
    else Put(s, c, Cpu(Enter, Some(i), i), s.lock, s.table[i := With(s.table[i], Running)])
  }

  /** The process goes on where its context was saved: in wait's loop, or out of the lock. */
  function DoGo(s: State, c: nat): (t: State)
    requires Has(s, c)
  {
    var p := s.cpus[c].proc.value;
    var x := s.table[p];
    var awake := Slot(x.state, x.parent, NoChan, x.killed, x.resume, x.act);
    match x.resume
    case Fresh => Put(s, c, PcOf(s.cpus[c], Run), None, s.table)
    case Yielded => Put(s, c, PcOf(s.cpus[c], Run), None, s.table)
    case Slept => Put(s, c, PcOf(s.cpus[c], Run), None, s.table[p := awake])
    case Waiting => Put(s, c, PcOf(s.cpus[c], Scan), s.lock, s.table[p := awake])
  }

  /** The process stops running and calls sched, with the lock held. */
  function Stop(s: State, c: nat, table: Table): (t: State)
    requires Has(s, c)
  {
    Put(s, c, PcOf(s.cpus[c], Back), Some(c), table)
  }

  /** wait's scan: reap the first ZOMBIE child, give up, or sleep. */
  function DoKids(s: State, c: nat): (t: State)
    requires Has(s, c)
  {
    var p := s.cpus[c].proc.value;
    var x, k := s.table[p], ZombieAt(s.table, p, 0);
    if k < |s.table| then Put(s, c, PcOf(s.cpus[c], Run), None, s.table[k := Reaped(s.table[k])])
    else if !HasKids(s.table, p) || x.killed then Put(s, c, PcOf(s.cpus[c], Run), None, s.table)
    else Stop(s, c, s.table[p := Slot(Sleeping, x.parent, OfProc(p), x.killed, Waiting, x.act)])
  }

  /** allocproc: no slot, no change. */
  function DoAlloc(s: State, c: nat): (t: State)
    requires Runs(s, c)
  {
    var k := UnusedAt(s.table, 0);
    if k < |s.table| then Put(s, c, s.cpus[c], s.lock, Alloced(s.table, Me(s, c), k)) else s
  }

  /** kill: mark, and make a sleeper runnable. */
  function Killed(x: Slot): (r: Slot) {
    Slot(if x.state.Sleeping? then Runnable else x.state, x.parent, x.chan, true, x.resume, x.act)
  }

  function Do(s: State, step: Step): (t: State)
    requires Enabled(s, step)
  {
    var c := step.c;
    match step
    case Acquire(_) => Put(s, c, PcOf(s.cpus[c], Loop(0)), Some(c), s.table)
    case Look(_) => DoLook(s, c)
    case Go(_) => DoGo(s, c)
    case Leave(_) => Put(s, c, Cpu(Loop(s.cpus[c].at + 1), None, s.cpus[c].at), s.lock, s.table)
    case Yield(_) =>
      var x := s.table[Me(s, c)];
      Stop(s, c, s.table[Me(s, c) := Slot(Runnable, x.parent, x.chan, x.killed, Yielded, x.act)])
    case Sleep(_, n) =>
      var x := s.table[Me(s, c)];
      Stop(s, c, s.table[Me(s, c) := Slot(Sleeping, x.parent, Other(n), x.killed, Slept, x.act)])
    case Wait(_) => Put(s, c, PcOf(s.cpus[c], Scan), Some(c), s.table)
    case Kids(_) => DoKids(s, c)
    case Exit(_) => Stop(s, c, Exited(s.table, Me(s, c), s.init))
    case Alloc(_) => DoAlloc(s, c)
    case Fail(_) => Put(s, c, s.cpus[c], s.lock, ForkFailed(s.table, Me(s, c), s.table[Me(s, c)].act.np))
    case SetParent(_) => Put(s, c, s.cpus[c], s.lock, ParentSet(s.table, Me(s, c), s.table[Me(s, c)].act.np))
    case Launch(_) => Put(s, c, s.cpus[c], s.lock, ForkDone(s.table, Me(s, c), s.table[Me(s, c)].act.np))
    case Kill(_, k) => Put(s, c, s.cpus[c], s.lock, s.table[k := Killed(s.table[k])])
    case Wakeup(_, chan) => Put(s, c, s.cpus[c], s.lock, Woken(s.table, chan))
  }

  /** After userinit: init is RUNNABLE, every other slot UNUSED, every CPU in its scheduler. */
  ghost predicate Init(s: State) {
    && s.lock.None? && s.init < |s.table| && s.table[s.init].state.Runnable?
    && (forall k :: 0 <= k < |s.table| ==> s.table[k].parent.None? && s.table[k].act.Plain?)
    && (forall k :: 0 <= k < |s.table| && k != s.init ==> s.table[k].state.Unused?)
    && (forall c :: c in s.cpus ==> s.cpus[c].pc.Idle? && s.cpus[c].proc.None?)
  }

  // ---- CPUs and running processes ----

  predicate HasLock(pc: CpuPc) { pc.Loop? || pc.Enter? || pc.Scan? || pc.Back? }

  /** c->proc is null in the scheduler and names a RUNNING process otherwise, until it has changed its state. */
  predicate CpuOk(t: Table, cpu: Cpu) {
    if cpu.pc.Idle? || cpu.pc.Loop? then cpu.proc.None?
    else cpu.proc.Some? && cpu.proc.value < |t| && (t[cpu.proc.value].state.Running? <==> !cpu.pc.Back?)
  }

  ghost predicate Cpus(s: State) {
    && (forall c :: c in s.cpus ==> (HasLock(s.cpus[c].pc) <==> s.lock == Some(c)))
    && (s.lock.Some? ==> s.lock.value in s.cpus)
    && (forall c :: c in s.cpus ==> CpuOk(s.table, s.cpus[c]))
    && (forall c, d :: c in s.cpus && d in s.cpus && s.cpus[c].proc.Some? && s.cpus[c].proc == s.cpus[d].proc ==> c == d)
    && (forall p: nat :: p < |s.table| && s.table[p].state.Running? ==> exists c :: c in s.cpus && s.cpus[c].proc == Some(p))
  }

  ghost predicate Inv(s: State) { Cpus(s) && Good(s.table, s.init) }

  /** Process p, on CPU c, may start or stop running; the others run or not as before. */
  ghost predicate RunningChange(t: Table, r: Table, p: Option<nat>) {
    && |r| == |t|
    && forall k: nat :: k < |t| && Some(k) != p ==> (r[k].state.Running? <==> t[k].state.Running?)
  }

  /** CPU c changes and the table with it: the lock follows, and its process is as the CPU says. */
  lemma CpusKept(s: State, c: nat, cpu: Cpu, lock: Option<nat>, table: Table)
    requires Cpus(s) && c in s.cpus
    requires HasLock(cpu.pc) ==> lock == Some(c) && (s.lock.None? || s.lock == Some(c))
    requires !HasLock(cpu.pc) ==> lock == if HasLock(s.cpus[c].pc) then None else s.lock
    requires CpuOk(table, cpu)
    requires RunningChange(s.table, table, if cpu.proc.Some? then cpu.proc else s.cpus[c].proc)
    requires cpu.proc == s.cpus[c].proc
          || (cpu.proc.None? && s.cpus[c].pc.Back? && table == s.table)
          || (s.cpus[c].proc.None? && cpu.proc.Some? && cpu.proc.value < |s.table| && !s.table[cpu.proc.value].state.Running?
              && forall d :: d in s.cpus ==> s.cpus[d].proc != cpu.proc)
    ensures Cpus(Put(s, c, cpu, lock, table))
  {
    var t := Put(s, c, cpu, lock, table);
    forall d | d in t.cpus && d != c ensures CpuOk(t.table, t.cpus[d]) { assert CpuOk(s.table, s.cpus[d]); }
    forall p: nat | p < |t.table| && t.table[p].state.Running? ensures exists d :: d in t.cpus && t.cpus[d].proc == Some(p) {
      StillOnACpu(s, c, cpu, table, p);
    }
  }

  /** A process that runs afterwards is the one CPU c names, or was running and is where it was. */
  lemma StillOnACpu(s: State, c: nat, cpu: Cpu, table: Table, p: nat)
    requires Cpus(s) && c in s.cpus && CpuOk(table, cpu) && p < |table| && table[p].state.Running?
    requires RunningChange(s.table, table, if cpu.proc.Some? then cpu.proc else s.cpus[c].proc)
    requires cpu.proc == s.cpus[c].proc || cpu.proc.Some? || (s.cpus[c].pc.Back? && table == s.table)
    requires cpu.proc.Some? && s.cpus[c].proc.Some? ==> cpu.proc == s.cpus[c].proc
    ensures exists d :: d in s.cpus && s.cpus[c := cpu][d].proc == Some(p)
  {
    assert CpuOk(s.table, s.cpus[c]);
    if cpu.proc == Some(p) {
      assert s.cpus[c := cpu][c].proc == Some(p);
    } else {
      var d :| d in s.cpus && s.cpus[d].proc == Some(p);
      assert s.cpus[c := cpu][d].proc == Some(p);
    }
  }

  // ---- every step keeps both ----

  lemma LookKept(s: State, c: nat)
    requires Inv(s) && Enabled(s, Look(c))
    ensures Inv(Do(s, Look(c)))
  {
    var i := s.cpus[c].pc.i;
    assert CpuOk(s.table, s.cpus[c]);
    if i >= |s.table| {
      CpusKept(s, c, Cpu(Idle, None, i), None, s.table);
    } else if !s.table[i].state.Runnable? {
      CpusKept(s, c, Cpu(Loop(i + 1), None, i), s.lock, s.table);
    } else {
      var r := s.table[i := With(s.table[i], Running)];
      forall d | d in s.cpus ensures s.cpus[d].proc != Some(i) {
        assert CpuOk(s.table, s.cpus[d]) && (HasLock(s.cpus[d].pc) <==> s.lock == Some(d));
      }
      CpusKept(s, c, Cpu(Enter, Some(i), i), s.lock, r);
      OwnGood(s.table, i, r[i], s.init);
    }
  }

  lemma GoKept(s: State, c: nat)
    requires Inv(s) && Enabled(s, Go(c))
    ensures Inv(Do(s, Go(c)))
  {
    assert CpuOk(s.table, s.cpus[c]);
    var p := s.cpus[c].proc.value;
    var x := s.table[p];
    var r := s.table[p := Slot(x.state, x.parent, NoChan, x.killed, x.resume, x.act)];
    OwnGood(s.table, p, r[p], s.init);
    match x.resume
    case Fresh => CpusKept(s, c, PcOf(s.cpus[c], Run), None, s.table);
    case Yielded => CpusKept(s, c, PcOf(s.cpus[c], Run), None, s.table);
    case Slept => CpusKept(s, c, PcOf(s.cpus[c], Run), None, r);
    case Waiting => CpusKept(s, c, PcOf(s.cpus[c], Scan), s.lock, r);
  }

  /** The process on CPU c stops running. */
  lemma StopKept(s: State, c: nat, table: Table)
    requires Inv(s) && Has(s, c) && (s.cpus[c].pc.Run? || s.cpus[c].pc.Scan?) && (s.lock.None? || s.lock == Some(c))
    requires RunningChange(s.table, table, s.cpus[c].proc) && !table[s.cpus[c].proc.value].state.Running? && Good(table, s.init)
    ensures Inv(Stop(s, c, table))
  {
    CpusKept(s, c, PcOf(s.cpus[c], Back), Some(c), table);
  }

  /** The table changes while CPU c stays where it is, or leaves the lock; the same processes run. */
  lemma StayKept(s: State, c: nat, pc: CpuPc, lock: Option<nat>, table: Table)
    requires Inv(s) && Has(s, c) && RunningChange(s.table, table, None) && Good(table, s.init)
    requires (s.cpus[c].pc.Run? && pc.Run? && lock == s.lock) || (s.cpus[c].pc.Scan? && pc.Run? && lock.None?)
          || (s.cpus[c].pc.Run? && pc.Scan? && s.lock.None? && lock == Some(c))
    ensures Inv(Put(s, c, PcOf(s.cpus[c], pc), lock, table))
  {
    assert CpuOk(s.table, s.cpus[c]);
    CpusKept(s, c, PcOf(s.cpus[c], pc), lock, table);
  }

  lemma KidsKept(s: State, c: nat)
    requires Inv(s) && Enabled(s, Kids(c))
    ensures Inv(Do(s, Kids(c)))
  {
    assert CpuOk(s.table, s.cpus[c]);
    var p := s.cpus[c].proc.value;
    var x, k := s.table[p], ZombieAt(s.table, p, 0);
    if k < |s.table| {
      ReapGood(s.table, k, s.init);
      StayKept(s, c, Run, None, s.table[k := Reaped(s.table[k])]);
    } else if !HasKids(s.table, p) || x.killed {
      StayKept(s, c, Run, None, s.table);
    } else {
      var y := Slot(Sleeping, x.parent, OfProc(p), x.killed, Waiting, x.act);
      WaitSleepGood(s.table, p, y, s.init);
      StopKept(s, c, s.table[p := y]);
    }
  }

  lemma RunsMe(s: State, c: nat)
    requires Inv(s) && Runs(s, c)
    ensures s.table[Me(s, c)].state.Running?
  {
    assert CpuOk(s.table, s.cpus[c]);
  }

  /** Steps of a process that end in sched. */
  lemma StoppingKept(s: State, step: Step)
    requires Inv(s) && Enabled(s, step) && (step.Yield? || step.Sleep? || step.Exit?)
    ensures Inv(Do(s, step))
  {
    RunsMe(s, step.c);
    var p := Me(s, step.c);
    var x := s.table[p];
    match step {
      case Yield(c) =>
        var y := Slot(Runnable, x.parent, x.chan, x.killed, Yielded, x.act);
        OwnGood(s.table, p, y, s.init);
        StopKept(s, c, s.table[p := y]);
      case Sleep(c, n) =>
        var y := Slot(Sleeping, x.parent, Other(n), x.killed, Slept, x.act);
        OwnGood(s.table, p, y, s.init);
        StopKept(s, c, s.table[p := y]);
      case Exit(c) =>
        ExitFamily(s.table, p, s.init);
        ExitWaits(s.table, p, s.init);
        StopKept(s, c, Exited(s.table, p, s.init));
    }
  }

  /** Steps of a process that goes on running. */
  lemma StayingKept(s: State, step: Step)
    requires Inv(s) && Enabled(s, step)
    requires step.Alloc? || step.Fail? || step.SetParent? || step.Launch? || step.Kill? || step.Wakeup? || step.Wait?
    ensures Inv(Do(s, step))
  {
    RunsMe(s, step.c);
    var p, t := Me(s, step.c), s.table;
    match step {
      case Wait(c) => StayKept(s, c, Scan, Some(c), t);
      case Alloc(c) =>
        var k := UnusedAt(t, 0);
        if k < |t| {
          AllocGood(t, p, k, s.init);
          StayKept(s, c, Run, s.lock, Alloced(t, p, k));
        }
      case Fail(c) => ForkStays(s, c, ForkFailed(t, p, t[p].act.np));
      case SetParent(c) => ForkStays(s, c, ParentSet(t, p, t[p].act.np));
      case Launch(c) => ForkStays(s, c, ForkDone(t, p, t[p].act.np));
      case Kill(c, k) =>
        OwnGood(t, k, Killed(t[k]), s.init);
        StayKept(s, c, Run, s.lock, t[k := Killed(t[k])]);
      case Wakeup(c, chan) =>
        WokenGood(t, chan, s.init);
        StayKept(s, c, Run, s.lock, Woken(t, chan));
    }
  }

  lemma ForkStays(s: State, c: nat, r: Table)
    requires Inv(s) && Runs(s, c)
    requires var t, q := s.table, Me(s, c);
      || (t[q].act.Forking? && t[q].act.np < |t| && (r == ForkFailed(t, q, t[q].act.np) || r == ParentSet(t, q, t[q].act.np)))
      || (t[q].act.ForkSet? && t[q].act.np < |t| && r == ForkDone(t, q, t[q].act.np))
    ensures Inv(Put(s, c, s.cpus[c], s.lock, r))
  {
    var t, q := s.table, Me(s, c);
    assert ActOk(t, q);
    ForkGood(t, q, t[q].act.np, r, s.init);
    assert PcOf(s.cpus[c], Run) == s.cpus[c];
    StayKept(s, c, Run, s.lock, r);
  }

  lemma InvKept(s: State, step: Step)
    requires Inv(s) && Enabled(s, step)
    ensures Inv(Do(s, step))
  {
    match step
    case Acquire(c) =>
      assert CpuOk(s.table, s.cpus[c]);
      CpusKept(s, c, PcOf(s.cpus[c], Loop(0)), Some(c), s.table);
    case Look(c) => LookKept(s, c);
    case Go(c) => GoKept(s, c);
    case Leave(c) =>
      assert CpuOk(s.table, s.cpus[c]);
      CpusKept(s, c, Cpu(Loop(s.cpus[c].at + 1), None, s.cpus[c].at), s.lock, s.table);
    case Kids(c) => KidsKept(s, c);
    case Yield(_) => StoppingKept(s, step);
    case Sleep(_, _) => StoppingKept(s, step);
    case Exit(_) => StoppingKept(s, step);
    case _ => StayingKept(s, step);
  }

  // ---- runs ----

  /** trace holds the states passed through, one step apart. */
  ghost predicate Behaviour(trace: seq<State>, steps: seq<Step>) {
    && |trace| == |steps| + 1 && Init(trace[0])
    && forall i: nat {:trigger steps[i]} :: i < |steps| ==> Enabled(trace[i], steps[i]) && trace[i + 1] == Do(trace[i], steps[i])
  }

  lemma InitInv(s: State)
    requires Init(s)
    ensures Inv(s)
  {
    forall k: nat | k < |s.table| ensures ParentOk(s.table, s.init, k) && ActOk(s.table, k) {}
  }

  lemma {:induction false} InvAlways(trace: seq<State>, steps: seq<Step>, k: nat)
    requires Behaviour(trace, steps) && k <= |steps|
    ensures Inv(trace[k])
  {
    if k == 0 {
      InitInv(trace[0]);
    } else {
      InvAlways(trace, steps, k - 1);
      assert trace[k] == Do(trace[k - 1], steps[k - 1]);
      InvKept(trace[k - 1], steps[k - 1]);
    }
  }

  /** Whenever ptable.lock is free, a process is RUNNING exactly when one CPU's proc field names it. */
  lemma RunningMeansOneCpu(trace: seq<State>, steps: seq<Step>, k: nat, p: nat)
    requires Behaviour(trace, steps) && k <= |steps| && trace[k].lock.None? && p < |trace[k].table|
    ensures var s := trace[k];
      && (s.table[p].state.Running? <==> exists c :: c in s.cpus && s.cpus[c].proc == Some(p))
      && (forall c, d :: c in s.cpus && d in s.cpus && s.cpus[c].proc == Some(p) == s.cpus[d].proc ==> c == d)
  {
    InvAlways(trace, steps, k);
    var s := trace[k];
    forall c | c in s.cpus && s.cpus[c].proc == Some(p) ensures s.table[p].state.Running? {
      assert CpuOk(s.table, s.cpus[c]) && !HasLock(s.cpus[c].pc);
    }
  }

  /** Every created process but init has a parent, which is SLEEPING, RUNNABLE or RUNNING. */
  lemma ParentsLive(trace: seq<State>, steps: seq<Step>, k: nat, p: nat)
    requires Behaviour(trace, steps) && k <= |steps| && p < |trace[k].table| && Created(trace[k].table[p]) && p != trace[k].init
    ensures var t := trace[k].table; t[p].parent.Some? && t[p].parent.value < |t| && Alive(t[t[p].parent.value])
  {
    InvAlways(trace, steps, k);
    assert ParentOk(trace[k].table, trace[k].init, p);
  }

  /** Nobody sleeps in wait while it has a ZOMBIE child. */
  lemma NoMissedExit(trace: seq<State>, steps: seq<Step>, k: nat, p: nat, child: nat)
    requires Behaviour(trace, steps) && k <= |steps| && p < |trace[k].table| && child < |trace[k].table| && InWait(trace[k].table[p])
    ensures !(trace[k].table[child].parent == Some(p) && trace[k].table[child].state.Zombie?)
  {
    InvAlways(trace, steps, k);
    assert !(Child(trace[k].table, child, p) && trace[k].table[child].state.Zombie?);
  }

  // ---- killed processes ----

  ghost predicate NoKilledWaiter(t: Table) { forall p :: 0 <= p < |t| && InWait(t[p]) ==> !t[p].killed }

  lemma KilledKept(s: State, step: Step)
    requires Enabled(s, step) && NoKilledWaiter(s.table)
    ensures NoKilledWaiter(Do(s, step).table)
  {
  }

  /** wait tests `killed` and goes to sleep under one hold of ptable.lock, and kill wakes sleepers: nobody is
      asleep in wait while killed. */
  lemma {:induction false} KilledLeavesWait(trace: seq<State>, steps: seq<Step>, k: nat)
    requires Behaviour(trace, steps) && k <= |steps|
    ensures NoKilledWaiter(trace[k].table)
  {
    if k > 0 {
      KilledLeavesWait(trace, steps, k - 1);
      assert trace[k] == Do(trace[k - 1], steps[k - 1]);
      KilledKept(trace[k - 1], steps[k - 1]);
    }
  }

  /** sched is called with the lock held by this CPU and the state no longer RUNNING: it does not panic. */
  lemma SchedIsCalledRight(trace: seq<State>, steps: seq<Step>, k: nat, c: nat)
    requires Behaviour(trace, steps) && k <= |steps| && c in trace[k].cpus && trace[k].cpus[c].pc.Back?
    ensures var s := trace[k];
      s.lock == Some(c) && s.cpus[c].proc.Some? && s.cpus[c].proc.value < |s.table| && !s.table[s.cpus[c].proc.value].state.Running?
  {
    InvAlways(trace, steps, k);
    assert CpuOk(trace[k].table, trace[k].cpus[c]);
  }
}
