/** Kill and the pipe's sleepers.  pipewrite and piperead test `killed` before they
    call sleep, and kill wakes only a process already marked SLEEPING.  A kill in
    between is seen by neither: the process goes to sleep killed. */
module PipeKills {
  import opened Common
  import opened PipeProtocol
  import opened PipeRuns

  /** Past the test of `killed`, not yet holding ptable.lock. */
  predicate Between(pc: Pc) { pc.WakeFirst? || pc.SleepLock? }

  /** Past the test and not yet marked SLEEPING. */
  predicate Bound(pc: Pc) { Between(pc) || pc.SleepDrop? || pc.SleepMark? }

  /** Killed, and asleep or bound to sleep all the same. */
  predicate Missed(x: Proc) { x.killed && (x.sleeping || Bound(x.pc)) }

  /** Own steps left until the process is marked. */
  function Ahead(pc: Pc): (n: nat) {
    match pc
    case WakeFirst(_, _) => 4
    case SleepLock(_, _) => 3
    case SleepDrop(_, _) => 2
    case SleepMark(_, _) => 1
    case _ => 0
  }

  /** A process gets there only by a kill in between. */
  lemma MissedStep(s: State, step: Step, p: nat)
    requires Locks(s) && Enabled(s, step) && p in s.procs && Missed(Do(s, step).procs[p])
    ensures Missed(s.procs[p]) || (step == Kill(p) && Between(s.procs[p].pc))
  {
    var x := s.procs[p];
    assert Fits(x);
    if step == Kill(p) { assert !HasTableLock(x.pc); }
  }

  /** Once there, its own steps take it to sleep, and other steps leave it alone while it is on its way. */
  lemma MissedGoesOn(s: State, step: Step, p: nat)
    requires Enabled(s, step) && p in s.procs && Missed(s.procs[p]) && Bound(s.procs[p].pc)
    ensures var x, y := s.procs[p], Do(s, step).procs[p];
      Missed(y) && Ahead(y.pc) == (if step == Go(p) then Ahead(x.pc) - 1 else Ahead(x.pc)) && (Ahead(y.pc) == 0 ==> y.sleeping)
  {
  }

  /** Asleep, it stays so until a wakeup on its channel or another kill. */
  lemma MissedSleepsOn(s: State, step: Step, p: nat)
    requires Locks(s) && Enabled(s, step) && p in s.procs && Missed(s.procs[p]) && s.procs[p].sleeping
    ensures Missed(Do(s, step).procs[p]) && Do(s, step).procs[p].sleeping <==>
              step != Kill(p) && !Wakes(EffectOf(s.pipe, s.procs[step.p], step).wake, s.procs[p])
  {
    assert Fits(s.procs[p]);
  }

  ghost predicate MissedAt(s: State, steps: seq<Step>, k: nat, p: nat)
    requires k <= |steps|
  {
    var t := Play(s, steps[..k]); p in t.procs && Missed(t.procs[p])
  }

  /** Step k kills p between its test and its sleep. */
  ghost predicate KillsBetween(s: State, steps: seq<Step>, k: nat, p: nat)
    requires k < |steps|
  {
    var t := Play(s, steps[..k]); steps[k] == Kill(p) && p in t.procs && Between(t.procs[p].pc)
  }

  lemma PrefixStep(s: State, steps: seq<Step>, k: nat)
    requires Run(s, steps) && k < |steps|
    ensures Run(s, steps[..k]) && Enabled(Play(s, steps[..k]), steps[k])
    ensures Play(s, steps[..k + 1]) == Do(Play(s, steps[..k]), steps[k])
  {
    RunPrefix(s, steps, k);
    RunPrefix(s, steps, k + 1);
    var more := steps[..k + 1];
    assert more[..k] == steps[..k] && more[k] == steps[k];
  }

  lemma {:induction false} MissedHasKill(s: State, steps: seq<Step>, k: nat, p: nat)
    requires Init(s) && Run(s, steps) && k <= |steps| && MissedAt(s, steps, k, p)
    ensures exists j: nat :: j < |steps| && KillsBetween(s, steps, j, p)
  {
    if k > 0 {
      PrefixStep(s, steps, k - 1);
      BasicsAlways(s, steps[..k - 1]);
      MissedStep(Play(s, steps[..k - 1]), steps[k - 1], p);
      if MissedAt(s, steps, k - 1, p) {
        MissedHasKill(s, steps, k - 1, p);
      } else {
        assert KillsBetween(s, steps, k - 1, p);
      }
    }
  }

  lemma KillMisses(s: State, steps: seq<Step>, k: nat, p: nat)
    requires Run(s, steps) && k < |steps| && KillsBetween(s, steps, k, p)
    ensures MissedAt(s, steps, k + 1, p)
  {
    PrefixStep(s, steps, k);
  }

  /** A process is, somewhere in a run, killed and asleep or bound to sleep if and only if a kill in the run
      comes between its test and its taking ptable.lock. */
  lemma KillMissedIff(s: State, steps: seq<Step>, p: nat)
    requires Init(s) && Run(s, steps)
    ensures (exists k: nat :: k <= |steps| && MissedAt(s, steps, k, p))
            <==> exists k: nat :: k < |steps| && KillsBetween(s, steps, k, p)
  {
    if k: nat :| k <= |steps| && MissedAt(s, steps, k, p) { MissedHasKill(s, steps, k, p); }
    if k: nat :| k < |steps| && KillsBetween(s, steps, k, p) { KillMisses(s, steps, k, p); }
  }

  /** A reader of an empty pipe past its test. */
  lemma ReaderDecides(s: State, p: nat) returns (steps: seq<Step>)
    requires Init(s) && p in s.procs && !s.procs[p].killed
    ensures Run(s, steps) && p in Play(s, steps).procs && Play(s, steps).procs[p] == Proc(SleepLock(Read(1), 0), false, false)
    ensures Play(s, steps).pipe.tlock.None?
  {
    steps := [];
    Extend(s, steps, Start(p, Read(1)));
    steps := steps + [Start(p, Read(1))];
    Extend(s, steps, Go(p));
    steps := steps + [Go(p)];
    Extend(s, steps, Go(p));
    steps := steps + [Go(p)];
  }

  /** Killed there, it ends up asleep and killed. */
  lemma KilledReaderSleeps(s: State, p: nat) returns (steps: seq<Step>)
    requires Init(s) && p in s.procs && !s.procs[p].killed
    ensures Run(s, steps) && p in Play(s, steps).procs
    ensures var x := Play(s, steps).procs[p]; x.sleeping && x.killed
  {
    steps := ReaderDecides(s, p);
    Extend(s, steps, Kill(p));
    steps := steps + [Kill(p)];
    steps := MissedTakes(s, steps, p);
    steps := MissedTakes(s, steps, p);
    steps := MissedTakes(s, steps, p);
  }

  lemma MissedTakes(s: State, steps: seq<Step>, p: nat) returns (steps': seq<Step>)
    requires Run(s, steps) && p in Play(s, steps).procs
    requires var t := Play(s, steps);
      Missed(t.procs[p]) && 0 < Ahead(t.procs[p].pc) < 4 && (t.procs[p].pc.SleepLock? ==> t.pipe.tlock.None?)
    ensures Run(s, steps') && p in Play(s, steps').procs
    ensures var x, y := Play(s, steps).procs[p], Play(s, steps').procs[p];
      Missed(y) && Ahead(y.pc) == Ahead(x.pc) - 1 && (Ahead(y.pc) == 0 ==> y.sleeping)
  {
    Extend(s, steps, Go(p));
    steps' := steps + [Go(p)];
    MissedGoesOn(Play(s, steps), Go(p), p);
  }
}
