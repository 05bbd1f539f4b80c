/** No lost wakeups, and first in first out, over every run of the pipe protocol. */
module PipeWakeups {
  import opened Common
  import opened PipeProtocol

  /** p has tested its condition and given up the pipe lock to sleep, and nobody has woken it. */
  predicate Committed(x: Proc) { x.pc.SleepMark? || (x.pc.Asleep? && x.sleeping) }

  predicate SleepyReader(x: Proc) { Committed(x) && x.pc.call.Read? }

  predicate SleepyWriter(x: Proc) { Committed(x) && x.pc.call.Write? }

  /** A reader should sleep; a writer should sleep. */
  predicate ReadWaits(h: Pipe) { h.ring.Empty() && h.ends.writeopen }

  predicate WriteWaits(h: Pipe) { h.ring.Full() && h.ends.readopen }

  ghost predicate ReadersQuiet(s: State) { forall q :: q in s.procs && SleepyReader(s.procs[q]) ==> ReadWaits(s.pipe) }

  ghost predicate WritersQuiet(s: State) { forall q :: q in s.procs && SleepyWriter(s.procs[q]) ==> WriteWaits(s.pipe) }

  /** Whenever the pipe lock is free, whoever sleeps (or is about to) has a reason to. */
  ghost predicate NoLostWakeup(s: State) { s.pipe.plock.None? ==> ReadersQuiet(s) && WritersQuiet(s) }

  predicate StoringStill(pc: Pc) { pc.Test? && pc.call.Write? && pc.i < |pc.call.bytes| }

  /** pipewrite returns -1 from a full pipe because it was killed, with a reader asleep. */
  ghost predicate SilentReturn(s: State, step: Step) {
    && step.Go? && step.p in s.procs && s.pipe.ring.Full() && s.procs[step.p].killed
    && StoringStill(s.procs[step.p].pc)
    && exists q :: q in s.procs && SleepyReader(s.procs[q])
  }

  // ---- the invariant ----

  /** The lock holder may have made work for readers (writers) and has their wakeup still to come. */
  predicate OwesReaders(pc: Pc) {
    || (pc.Test? && pc.call.Write?) || pc.WakeFirst?
    || (pc.WakeLast? && WakesLast(pc.call) == Readers)
  }

  predicate OwesWriters(pc: Pc) { pc.Copy? || (pc.WakeLast? && WakesLast(pc.call) == Writers) }

  ghost predicate ReadersSafe(s: State) { ReadersQuiet(s) || exists p :: p in s.procs && OwesReaders(s.procs[p].pc) }

  ghost predicate WritersSafe(s: State) { WritersQuiet(s) || exists p :: p in s.procs && OwesWriters(s.procs[p].pc) }

  /** Between the test and giving up the pipe lock, the condition stays true. */
  predicate Decided(h: Pipe, pc: Pc) {
    && (pc.WakeFirst? ==> WriteWaits(h))
    && (pc.SleepLock? || pc.SleepDrop? ==> (pc.call.Read? ==> ReadWaits(h)) && (pc.call.Write? ==> WriteWaits(h)))
  }

  ghost predicate AllDecided(s: State) { forall p :: p in s.procs ==> Decided(s.pipe, s.procs[p].pc) }

  /** A closed end has no file, and without a file nobody is in a call on that end. */
  ghost predicate Files(s: State) {
    && (!s.pipe.ends.readopen ==> !s.pipe.ends.rfile) && (!s.pipe.ends.writeopen ==> !s.pipe.ends.wfile)
    && (!s.pipe.ends.rfile ==> forall p :: p in s.procs ==> !Reads(s.procs[p].pc))
    && (!s.pipe.ends.wfile ==> forall p :: p in s.procs ==> !Writes(s.procs[p].pc))
    && (s.pipe.ends.freed ==> !s.pipe.ends.readopen && !s.pipe.ends.writeopen)
    && (forall p :: p in s.procs && !s.procs[p].pc.Idle? && s.procs[p].pc.call.Close? ==>
          if s.procs[p].pc.call.writable then !s.pipe.ends.wfile else !s.pipe.ends.rfile)
  }

  ghost predicate Inv(s: State) {
    Locks(s) && Fifo(s.pipe.ring) && AllDecided(s) && Files(s) && ReadersSafe(s) && WritersSafe(s)
  }

  // ---- what one step does, seen from the process that moves ----

  /** Only the holder of the pipe lock changes what sleepers wait for, except to start a close. */
  lemma OnlyHolder(h: Pipe, x: Proc, step: Step)
    requires Mine(h, x, step) && !HasPipeLock(x.pc)
    ensures var e := EffectOf(h, x, step);
      e.pipe.ring == h.ring && e.pipe.ends.readopen == h.ends.readopen && e.pipe.ends.writeopen == h.ends.writeopen
      && e.wake == Nobody
  {
  }

  lemma DecidedMine(h: Pipe, x: Proc, step: Step)
    requires Mine(h, x, step) && Decided(h, x.pc)
    ensures var e := EffectOf(h, x, step); Decided(e.pipe, e.me.pc)
  {
  }

  /** A step that owes readers nothing leaves their condition true, or makes a debt. */
  lemma ReadersEffect(h: Pipe, x: Proc, step: Step)
    requires Mine(h, x, step) && Decided(h, x.pc) && !OwesReaders(x.pc)
    ensures var e := EffectOf(h, x, step);
      && (OwesReaders(e.me.pc) || (ReadWaits(h) ==> ReadWaits(e.pipe)))
      && (SleepyReader(e.me) ==> SleepyReader(x) || ReadWaits(h))
  {
  }

  /** A debt to readers stays, is paid while nobody is about to be marked, or is the silent return. */
  lemma ReadersPaid(h: Pipe, x: Proc, step: Step)
    requires Mine(h, x, step) && OwesReaders(x.pc)
    ensures var e := EffectOf(h, x, step);
      || OwesReaders(e.me.pc)
      || (e.wake == Readers && h.tlock.None? && !SleepyReader(e.me))
      || (step.Go? && StoringStill(x.pc) && h.ring.Full() && (!h.ends.readopen || x.killed) && e.me.pc.Idle?)
  {
  }

  lemma WritersEffect(h: Pipe, x: Proc, step: Step)
    requires Mine(h, x, step) && Decided(h, x.pc) && !OwesWriters(x.pc) && Fifo(h.ring)
    ensures var e := EffectOf(h, x, step);
      && (OwesWriters(e.me.pc) || (WriteWaits(h) ==> WriteWaits(e.pipe)))
      && (SleepyWriter(e.me) ==> SleepyWriter(x) || WriteWaits(h))
  {
  }

  lemma WritersPaid(h: Pipe, x: Proc, step: Step)
    requires Mine(h, x, step) && OwesWriters(x.pc)
    ensures var e := EffectOf(h, x, step);
      OwesWriters(e.me.pc) || (e.wake == Writers && h.tlock.None? && !SleepyWriter(e.me))
  {
  }

  // ---- every step keeps the invariant ----

  /** A process that stays put is sleepy afterwards only if it was before and was not woken. */
  lemma OthersSleepy(s: State, t: State, p: nat, e: Effect, q: nat)
    requires Moved(s, t, p, e) && q in s.procs && q != p
    ensures SleepyReader(t.procs[q]) ==> SleepyReader(s.procs[q])
    ensures SleepyWriter(t.procs[q]) ==> SleepyWriter(s.procs[q])
    ensures e.wake == Readers && SleepyReader(t.procs[q]) ==> s.procs[q].pc.SleepMark?
    ensures e.wake == Writers && SleepyWriter(t.procs[q]) ==> s.procs[q].pc.SleepMark?
    ensures t.procs[q].pc == s.procs[q].pc
  {
  }

  lemma DecidedKept(s: State, step: Step)
    requires Locks(s) && Enabled(s, step) && AllDecided(s)
    ensures AllDecided(Do(s, step))
  {
    StepMoves(s, step);
    var p, t := step.p, Do(s, step);
    var e := EffectOf(s.pipe, s.procs[p], step);
    DecidedMine(s.pipe, s.procs[p], step);
    if !HasPipeLock(s.procs[p].pc) { OnlyHolder(s.pipe, s.procs[p], step); }
    forall q | q in t.procs ensures Decided(t.pipe, t.procs[q].pc) {
      if q != p {
        assert Decided(s.pipe, s.procs[q].pc);
        if HasPipeLock(s.procs[q].pc) { assert s.pipe.plock == Some(q); }
      }
    }
  }

  lemma FilesMine(h: Pipe, x: Proc, step: Step)
    requires Mine(h, x, step)
    ensures var e := EffectOf(h, x, step);
      && (step.Go? ==> e.pipe.ends.rfile == h.ends.rfile && e.pipe.ends.wfile == h.ends.wfile)
      && (step.Kill? ==> e.pipe.ends == h.ends)
      && (step.Go? || step.Kill? ==> e.me.pc.Idle? || (!x.pc.Idle? && e.me.pc.call == x.pc.call))
      && (h.ends.readopen && !e.pipe.ends.readopen ==> !x.pc.Idle? && x.pc.call == Close(false))
      && (h.ends.writeopen && !e.pipe.ends.writeopen ==> !x.pc.Idle? && x.pc.call == Close(true))
      && (!h.ends.readopen ==> !e.pipe.ends.readopen) && (!h.ends.writeopen ==> !e.pipe.ends.writeopen)
      && (e.pipe.ends.freed ==> h.ends.freed || (!h.ends.readopen && !h.ends.writeopen))
  {
  }

  lemma FilesKept(s: State, step: Step)
    requires Locks(s) && Enabled(s, step) && Files(s)
    ensures Files(Do(s, step))
  {
    StepMoves(s, step);
    var p, t := step.p, Do(s, step);
    var e := EffectOf(s.pipe, s.procs[p], step);
    FilesMine(s.pipe, s.procs[p], step);
    forall q | q in t.procs && q != p ensures t.procs[q].pc == s.procs[q].pc { OthersSleepy(s, t, p, e, q); }
  }

  lemma ReadersKept(s: State, step: Step)
    requires Inv(s) && Enabled(s, step) && !SilentReturn(s, step)
    ensures ReadersSafe(Do(s, step))
  {
    StepMoves(s, step);
    var p, t := step.p, Do(s, step);
    var x, e := s.procs[p], EffectOf(s.pipe, s.procs[p], step);
    if OwesReaders(e.me.pc) {
      assert OwesReaders(t.procs[p].pc);
    } else if q :| q in s.procs && q != p && OwesReaders(s.procs[q].pc) {
      OthersSleepy(s, t, p, e, q);
      assert OwesReaders(t.procs[q].pc);
    } else if OwesReaders(x.pc) {
      ReadersPaid(s.pipe, x, step);
      ReadersDone(s, t, p, e, step);
    } else {
      ReadersEffect(s.pipe, x, step);
      assert ReadersQuiet(s);
      forall q | q in t.procs && SleepyReader(t.procs[q]) ensures ReadWaits(t.pipe) {
        if q != p { OthersSleepy(s, t, p, e, q); }
      }
    }
  }

  /** A debt that ends without the silent return leaves no sleepy reader. */
  lemma ReadersDone(s: State, t: State, p: nat, e: Effect, step: Step)
    requires Inv(s) && Moved(s, t, p, e) && p == step.p && !SilentReturn(s, step) && OwesReaders(s.procs[p].pc)
    requires
      || (e.wake == Readers && s.pipe.tlock.None? && !SleepyReader(e.me))
      || (step.Go? && StoringStill(s.procs[p].pc) && s.pipe.ring.Full()
          && (!s.pipe.ends.readopen || s.procs[p].killed) && e.me.pc.Idle?)
    ensures forall q :: q in t.procs ==> !SleepyReader(t.procs[q])
  {
    if e.wake == Readers && s.pipe.tlock.None? {
      WokenAll(s, t, p, e);
    } else {
      forall q | q in s.procs && q != p ensures !SleepyReader(s.procs[q]) && !SleepyReader(t.procs[q]) {
        OthersSleepy(s, t, p, e, q);
        ReaderReads(s.procs[q]);
      }
    }
  }

  lemma ReaderReads(x: Proc)
    ensures SleepyReader(x) ==> Reads(x.pc)
  {
  }

  /** A wakeup while ptable.lock is free catches everyone on the channel. */
  lemma WokenAll(s: State, t: State, p: nat, e: Effect)
    requires Locks(s) && Moved(s, t, p, e) && s.pipe.tlock.None?
    ensures e.wake == Readers && !SleepyReader(e.me) ==> forall q :: q in t.procs ==> !SleepyReader(t.procs[q])
    ensures e.wake == Writers && !SleepyWriter(e.me) ==> forall q :: q in t.procs ==> !SleepyWriter(t.procs[q])
  {
    forall q | q in s.procs && q != p ensures !s.procs[q].pc.SleepMark? {
      assert HasTableLock(s.procs[q].pc) <==> s.pipe.tlock == Some(q);
    }
  }

  lemma WritersKept(s: State, step: Step)
    requires Inv(s) && Enabled(s, step)
    ensures WritersSafe(Do(s, step))
  {
    StepMoves(s, step);
    var p, t := step.p, Do(s, step);
    var x, e := s.procs[p], EffectOf(s.pipe, s.procs[p], step);
    if OwesWriters(e.me.pc) {
      assert OwesWriters(t.procs[p].pc);
    } else if q :| q in s.procs && q != p && OwesWriters(s.procs[q].pc) {
      OthersSleepy(s, t, p, e, q);
      assert OwesWriters(t.procs[q].pc);
    } else if OwesWriters(x.pc) {
      WritersPaid(s.pipe, x, step);
      WokenAll(s, t, p, e);
    } else {
      WritersEffect(s.pipe, x, step);
      assert WritersQuiet(s);
      forall q | q in t.procs && SleepyWriter(t.procs[q]) ensures WriteWaits(t.pipe) {
        if q != p { OthersSleepy(s, t, p, e, q); }
      }
    }
  }

  lemma InvKept(s: State, step: Step)
    requires Inv(s) && Enabled(s, step) && !SilentReturn(s, step)
    ensures Inv(Do(s, step))
  {
    LocksKept(s, step);
    FifoKept(s.pipe, s.procs[step.p], step);
    DecidedKept(s, step);
    FilesKept(s, step);
    ReadersKept(s, step);
    WritersKept(s, step);
  }

  // ---- closing ----

  predicate Closes(pc: Pc, writable: bool) { !pc.Idle? && pc.call == Close(writable) }

  /** An end has at most one closer, who clears its flag once; nobody is in a call on a freed pipe. */
  ghost predicate Closers(s: State) {
    && (forall p, q, w: bool :: p in s.procs && q in s.procs && Closes(s.procs[p].pc, w) && Closes(s.procs[q].pc, w) ==> p == q)
    && (forall p :: p in s.procs && (s.procs[p].pc.Acquire? || s.procs[p].pc.Test?) && s.procs[p].pc.call.Close? ==>
          if s.procs[p].pc.call.writable then s.pipe.ends.writeopen else s.pipe.ends.readopen)
    && (forall p, w: bool :: p in s.procs && Closes(s.procs[p].pc, w) ==> !s.pipe.ends.freed)
  }

  lemma CloserMine(h: Pipe, x: Proc, step: Step)
    requires Mine(h, x, step)
    ensures var e := EffectOf(h, x, step);
      && (forall w: bool :: Closes(e.me.pc, w) ==> Closes(x.pc, w) || step == Start(step.p, Close(w)))
      && ((e.me.pc.Acquire? || e.me.pc.Test?) && e.me.pc.call.Close? ==>
            (x.pc.Acquire? && x.pc.call == e.me.pc.call) || step.Start?  || (x.pc == e.me.pc))
      && (e.pipe.ends.readopen != h.ends.readopen ==> x.pc.Test? && x.pc.call == Close(false))
      && (e.pipe.ends.writeopen != h.ends.writeopen ==> x.pc.Test? && x.pc.call == Close(true))
      && (e.pipe.ends.freed != h.ends.freed ==>
            !h.ends.readopen && !h.ends.writeopen && HasPipeLock(x.pc) && x.pc.call.Close? && e.me.pc.Idle?)
  {
  }

  lemma ClosersKept(s: State, step: Step)
    requires Locks(s) && Files(s) && Closers(s) && Enabled(s, step)
    ensures Closers(Do(s, step))
  {
    StepMoves(s, step);
    var p, t := step.p, Do(s, step);
    var x, e := s.procs[p], EffectOf(s.pipe, s.procs[p], step);
    CloserMine(s.pipe, x, step);
    forall q | q in t.procs && q != p ensures t.procs[q].pc == s.procs[q].pc { OthersSleepy(s, t, p, e, q); }
    assert t.procs[p].pc == e.me.pc;
    ClosersOnce(s, t, step);
    ClosersFree(s, t, step, e);
  }

  lemma ClosersOnce(s: State, t: State, step: Step)
    requires Files(s) && Closers(s) && Enabled(s, step) && t.procs.Keys == s.procs.Keys
    requires forall q :: q in t.procs && q != step.p ==> t.procs[q].pc == s.procs[q].pc
    requires forall w: bool :: Closes(t.procs[step.p].pc, w) ==> Closes(s.procs[step.p].pc, w) || step == Start(step.p, Close(w))
    ensures forall p, q, w: bool ::
      p in t.procs && q in t.procs && Closes(t.procs[p].pc, w) && Closes(t.procs[q].pc, w) ==> p == q
  {
    forall w: bool, q | q in s.procs && step == Start(step.p, Close(w)) ensures !Closes(s.procs[q].pc, w) {
    }
  }

  lemma ClosersFree(s: State, t: State, step: Step, e: Effect)
    requires Locks(s) && Closers(s) && Enabled(s, step) && Moved(s, t, step.p, e) && e.pipe == t.pipe
    requires forall q :: q in t.procs && q != step.p ==> t.procs[q].pc == s.procs[q].pc
    requires e.pipe.ends.freed != s.pipe.ends.freed ==>
      !s.pipe.ends.readopen && !s.pipe.ends.writeopen && HasPipeLock(s.procs[step.p].pc) && e.me.pc.Idle?
    requires step.Start? || e.me.pc.Idle? || (forall w: bool :: Closes(e.me.pc, w) ==> Closes(s.procs[step.p].pc, w))
    ensures forall p, w: bool :: p in t.procs && Closes(t.procs[p].pc, w) ==> !t.pipe.ends.freed
  {
    forall q | q in s.procs && q != step.p && s.pipe.plock == Some(step.p)
      ensures !HasPipeLock(s.procs[q].pc)
    {
    }
  }
}
