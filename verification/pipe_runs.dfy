/** The pipe theorems, over whole runs of any number of processes. */
module PipeRuns {
  import opened Common
  import opened PipeProtocol
  import opened PipeWakeups

  lemma InitInv(s: State)
    requires Init(s)
    ensures Inv(s) && Closers(s)
  {
  }

  /** What holds in every run, killed writers or not. */
  ghost predicate Basics(s: State) { Locks(s) && Fifo(s.pipe.ring) && AllDecided(s) && Files(s) && Closers(s) }

  lemma {:induction false} BasicsAlways(s: State, steps: seq<Step>)
    requires Init(s) && Run(s, steps)
    ensures Basics(Play(s, steps))
    decreases |steps|
  {
    if steps == [] {
      InitInv(s);
    } else {
      var last := |steps| - 1;
      BasicsAlways(s, steps[..last]);
      var t, step := Play(s, steps[..last]), steps[last];
      LocksKept(t, step);
      FifoKept(t.pipe, t.procs[step.p], step);
      DecidedKept(t, step);
      FilesKept(t, step);
      ClosersKept(t, step);
    }
  }

  /** Bytes come out in the order they went in, and at most PIPESIZE are in flight, in every run. */
  lemma FirstInFirstOut(s: State, steps: seq<Step>)
    requires Init(s) && Run(s, steps)
    ensures var r := Play(s, steps).pipe.ring; r.delivered <= r.stored && |r.stored| - |r.delivered| <= PIPESIZE
  {
    BasicsAlways(s, steps);
  }

  /** From the test of its condition until it is marked SLEEPING, a process holds the pipe lock or
      ptable.lock; and while it still has the pipe lock the condition stays true. */
  lemma HeldUntilMarked(s: State, steps: seq<Step>, p: nat)
    requires Init(s) && Run(s, steps) && p in Play(s, steps).procs
    ensures var t := Play(s, steps); var pc := t.procs[p].pc;
      && (pc.SleepLock? || pc.SleepDrop? ==> t.pipe.plock == Some(p) && if pc.call.Read? then ReadWaits(t.pipe) else WriteWaits(t.pipe))
      && (pc.SleepDrop? || pc.SleepMark? ==> t.pipe.tlock == Some(p))
  {
    BasicsAlways(s, steps);
    assert Fits(Play(s, steps).procs[p]);
  }

  /** When the pipe is freed nobody is in a call on it, and nobody gets into one again. */
  lemma FreedAlone(s: State, steps: seq<Step>, p: nat)
    requires Init(s) && Run(s, steps) && Play(s, steps).pipe.ends.freed && p in Play(s, steps).procs
    ensures Play(s, steps).procs[p].pc.Idle?
  {
    BasicsAlways(s, steps);
    var t := Play(s, steps);
    assert !t.pipe.ends.rfile && !t.pipe.ends.wfile;
    CallKinds(t.procs[p].pc);
  }

  lemma CallKinds(pc: Pc)
    ensures pc.Idle? || Reads(pc) || Writes(pc) || Closes(pc, true) || Closes(pc, false)
  {
  }

  /** Step k of the run is a killed writer leaving a full pipe with a reader asleep. */
  ghost predicate SilentAt(s: State, steps: seq<Step>, k: nat)
    requires k < |steps|
  {
    SilentReturn(Play(s, steps[..k]), steps[k])
  }

  ghost predicate NeverSilent(s: State, steps: seq<Step>) { forall k: nat :: k < |steps| ==> !SilentAt(s, steps, k) }

  /** No wakeup is lost at any point of the run. */
  ghost predicate NeverLost(s: State, steps: seq<Step>) {
    forall k: nat :: k <= |steps| ==> NoLostWakeup(Play(s, steps[..k]))
  }

  lemma {:induction false} RunPrefix(s: State, steps: seq<Step>, k: nat)
    requires Run(s, steps) && k <= |steps|
    ensures Run(s, steps[..k])
    decreases |steps|
  {
    if k == |steps| {
      assert steps[..k] == steps;
    } else {
      var rest := steps[..|steps| - 1];
      RunPrefix(s, rest, k);
      assert rest[..k] == steps[..k];
    }
  }

  lemma {:induction false} InvAlways(s: State, steps: seq<Step>, k: nat)
    requires Init(s) && Run(s, steps) && NeverSilent(s, steps) && k <= |steps|
    ensures Inv(Play(s, steps[..k]))
  {
    if k == 0 {
      InitInv(s);
    } else {
      InvAlways(s, steps, k - 1);
      RunPrefix(s, steps, k);
      var pre := steps[..k];
      assert pre[..k - 1] == steps[..k - 1] && pre[k - 1] == steps[k - 1];
      assert !SilentAt(s, steps, k - 1);
      InvKept(Play(s, steps[..k - 1]), steps[k - 1]);
    }
  }

  lemma InvMeans(s: State)
    requires Inv(s)
    ensures NoLostWakeup(s)
  {
    if s.pipe.plock.None? {
      forall p | p in s.procs ensures !OwesReaders(s.procs[p].pc) && !OwesWriters(s.procs[p].pc) {
        assert !HasPipeLock(s.procs[p].pc) && Fits(s.procs[p]);
      }
    }
  }

  /** The silent return loses a wakeup on the spot. */
  lemma SilentLoses(s: State, step: Step)
    requires Locks(s) && Fifo(s.pipe.ring) && Enabled(s, step) && SilentReturn(s, step)
    ensures !NoLostWakeup(Do(s, step))
  {
    StepMoves(s, step);
    CountersMean(s.pipe.ring);
    var t := Do(s, step);
    var q :| q in s.procs && SleepyReader(s.procs[q]);
    assert q != step.p && t.procs[q] == s.procs[q];
  }

  /** Whenever the pipe lock is free, sleeping readers find it empty with the write end open and sleeping
      writers find it full with the read end open, throughout a run, if and only if no killed writer
      returns from a full pipe while a reader sleeps. */
  lemma NoLostWakeupIff(s: State, steps: seq<Step>)
    requires Init(s) && Run(s, steps)
    ensures NeverLost(s, steps) <==> NeverSilent(s, steps)
  {
    if NeverSilent(s, steps) {
      forall k: nat | k <= |steps| ensures NoLostWakeup(Play(s, steps[..k])) {
        InvAlways(s, steps, k);
        InvMeans(Play(s, steps[..k]));
      }
    } else {
      var k: nat :| k < |steps| && SilentAt(s, steps, k);
      SilentStepLoses(s, steps, k);
    }
  }

  lemma SilentStepLoses(s: State, steps: seq<Step>, k: nat)
    requires Init(s) && Run(s, steps) && k < |steps| && SilentAt(s, steps, k)
    ensures !NoLostWakeup(Play(s, steps[..k + 1]))
  {
    RunPrefix(s, steps, k);
    BasicsAlways(s, steps[..k]);
    RunPrefix(s, steps, k + 1);
    var pre := steps[..k + 1];
    assert pre[..k] == steps[..k] && pre[k] == steps[k];
    SilentLoses(Play(s, steps[..k]), steps[k]);
  }

  /** In such a run, readers and writers never sleep at the same time. */
  lemma NotBothAsleep(s: State, steps: seq<Step>, p: nat, q: nat)
    requires Init(s) && Run(s, steps) && NeverSilent(s, steps)
    requires var t := Play(s, steps); t.pipe.plock.None? && p in t.procs && q in t.procs && SleepyReader(t.procs[p])
    ensures !SleepyWriter(Play(s, steps).procs[q])
  {
    assert steps[..|steps|] == steps;
    InvAlways(s, steps, |steps|);
    InvMeans(Play(s, steps));
    CountersMean(Play(s, steps).pipe.ring);
  }

  // ---- a run that loses a wakeup ----

  lemma Extend(s: State, steps: seq<Step>, step: Step)
    requires Run(s, steps) && Enabled(Play(s, steps), step)
    ensures Run(s, steps + [step]) && Play(s, steps + [step]) == Do(Play(s, steps), step)
  {
    var more := steps + [step];
    assert more[..|more| - 1] == steps;
  }

  function Nobody(): (x: Proc) { Proc(Idle, false, false) }

  function Fresh(): (s: State) {
    State(Pipe(None, None, Ring(0, 0, seq(512, i => 0), [], []), Ends(true, true, true, true, false)),
          map[1 := Nobody(), 2 := Nobody()])
  }

  /** Reader 1 is asleep and killed writer 2 has stored k bytes of its 513. */
  predicate Storing(t: State, call: Call, k: nat) {
    && t.procs.Keys == {1, 2} && t.procs[1] == Proc(Asleep(Read(1), 0), true, false)
    && t.procs[2] == Proc(Test(call, k), false, true)
    && t.pipe.plock == Some(2) && t.pipe.tlock.None? && t.pipe.ring.nread == 0 && t.pipe.ring.nwrite == k
  }

  /** Reader 1 has made i steps on its way to sleep. */
  predicate Dozing(t: State, i: nat) {
    && t.procs.Keys == {1, 2} && t.procs[2] == Nobody() && t.pipe.ring == Fresh().pipe.ring && t.pipe.ends == Fresh().pipe.ends
    && t.pipe.plock == (if 1 <= i <= 3 then Some(1) else None) && t.pipe.tlock == (if 3 <= i <= 4 then Some(1) else None)
    && !t.procs[1].killed && t.procs[1].sleeping == (i == 5)
    && var call := Read(1);
       t.procs[1].pc == if i == 0 then Acquire(call) else if i == 1 then Test(call, 0) else if i == 2 then SleepLock(call, 0)
                        else if i == 3 then SleepDrop(call, 0) else if i == 4 then SleepMark(call, 0) else Asleep(call, 0)
  }

  lemma Dozes(t: State, i: nat)
    requires Dozing(t, i) && i < 5
    ensures Enabled(t, Go(1)) && Dozing(Do(t, Go(1)), i + 1)
  {
  }

  lemma ReaderGoesToSleep() returns (steps: seq<Step>)
    ensures Run(Fresh(), steps) && Dozing(Play(Fresh(), steps), 5)
  {
    Extend(Fresh(), [], Start(1, Read(1)));
    steps := [] + [Start(1, Read(1))];
    var i := 0;
    while i < 5
      invariant 0 <= i <= 5 && Run(Fresh(), steps) && Dozing(Play(Fresh(), steps), i)
    {
      Dozes(Play(Fresh(), steps), i);
      Extend(Fresh(), steps, Go(1));
      steps := steps + [Go(1)];
      i := i + 1;
    }
  }

  lemma WriterStarts(call: Call) returns (steps: seq<Step>)
    requires call.Write? && |call.bytes| == 513
    ensures Run(Fresh(), steps) && Storing(Play(Fresh(), steps), call, 0)
  {
    steps := ReaderGoesToSleep();
    Extend(Fresh(), steps, Kill(2));
    steps := steps + [Kill(2)];
    Extend(Fresh(), steps, Start(2, call));
    steps := steps + [Start(2, call)];
    Extend(Fresh(), steps, Go(2));
    steps := steps + [Go(2)];
  }

  lemma WriterStores(t: State, call: Call, k: nat)
    requires call.Write? && |call.bytes| == 513 && Storing(t, call, k) && k < 512
    ensures Enabled(t, Go(2)) && Storing(Do(t, Go(2)), call, k + 1)
  {
  }

  lemma WriterFills(call: Call) returns (steps: seq<Step>)
    requires call.Write? && |call.bytes| == 513
    ensures Run(Fresh(), steps) && Storing(Play(Fresh(), steps), call, 512)
  {
    steps := WriterStarts(call);
    var k := 0;
    while k < 512
      invariant 0 <= k <= 512 && Run(Fresh(), steps) && Storing(Play(Fresh(), steps), call, k)
    {
      WriterStores(Play(Fresh(), steps), call, k);
      Extend(Fresh(), steps, Go(2));
      steps := steps + [Go(2)];
      k := k + 1;
    }
  }

  /** The condition is needed: there is a run in which a wakeup is lost. */
  lemma WakeupCanBeLost() returns (s: State, steps: seq<Step>)
    ensures Init(s) && Run(s, steps) && !NeverLost(s, steps)
  {
    s := Fresh();
    var pre := WriterFills(Write(seq(513, i => 0)));
    Extend(s, pre, Go(2));
    steps := pre + [Go(2)];
    assert steps[..|pre|] == pre && steps[|pre|] == Go(2);
    assert SleepyReader(Play(s, pre).procs[1]);
    assert SilentAt(s, steps, |pre|);
    NoLostWakeupIff(s, steps);
  }
}
