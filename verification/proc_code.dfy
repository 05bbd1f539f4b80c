/** The loops over the process table that run with ptable.lock held. */
module ProcCode {
  import opened Common
  import opened ProcTable

  /** Some child of p among the first i slots is a ZOMBIE. */
  predicate ZombieBefore(t: Table, p: nat, i: nat)
    requires i <= |t|
  {
    exists k: nat :: k < i && Child(t, k, p) && t[k].state.Zombie?
  }

  /** A slot when exit's loop has adopted the children below i. */
  function Midway(x: Slot, k: nat, p: nat, parent: Option<nat>, init: nat, i: nat, orphan: bool): (r: Slot) {
    var y := AfterExit(x, p, parent, init, orphan);
    if k < i then y else Slot(y.state, x.parent, y.chan, y.killed, y.resume, y.act)
  }

  class Ptable {
    const proc: array<Slot>

    ghost function T(): (t: Table)
      reads this, proc
    {
      proc[..]
    }

    /** wakeup1: exactly the sleepers on chan become RUNNABLE. */
    method Wakeup1(chan: Chan)
      modifies proc
      ensures T() == Woken(old(T()), chan)
    {
      var i := 0;
      while i < proc.Length
        invariant 0 <= i <= proc.Length
        invariant forall k :: 0 <= k < proc.Length ==> proc[k] == if k < i then Wake(old(proc[k]), chan) else old(proc[k])
      {
        if proc[i].state.Sleeping? && proc[i].chan == chan {
          proc[i] := With(proc[i], Runnable);
        }
        i := i + 1;
      }
    }

    /** allocproc's scan. */
    method FindUnused() returns (k: nat)
      ensures k == UnusedAt(T(), 0)
    {
      k := 0;
      while k < proc.Length && !proc[k].state.Unused?
        invariant k <= proc.Length && UnusedAt(T(), 0) == UnusedAt(T(), k)
      {
        k := k + 1;
      }
    }

    /** wait's scan: the first ZOMBIE child, if any, and whether there are children at all. */
    method ScanKids(p: nat) returns (k: nat, havekids: bool)
      ensures k == ZombieAt(T(), p, 0)
      ensures k == proc.Length ==> havekids == HasKids(T(), p)
    {
      k, havekids := 0, false;
      while k < proc.Length
        invariant k <= proc.Length && ZombieAt(T(), p, 0) == ZombieAt(T(), p, k)
        invariant havekids <==> exists j: nat :: j < k && Child(T(), j, p)
      {
        if proc[k].parent == Some(p) {
          assert Child(T(), k, p);
          havekids := true;
          if proc[k].state.Zombie? { return; }
        }
        k := k + 1;
      }
    }

    /** exit, from wakeup1(curproc->parent) to curproc->state = ZOMBIE. */
    method ExitSection(p: nat, init: nat)
      requires p < proc.Length && p != init && proc[p].parent.Some?
      modifies proc
      ensures T() == Exited(old(T()), p, init)
    {
      ghost var t := T();
      Wakeup1(OfProc(proc[p].parent.value));
      var i := 0;
      while i < proc.Length
        invariant 0 <= i <= proc.Length
        invariant forall k: nat :: k < proc.Length ==>
          proc[k] == Midway(t[k], k, p, t[p].parent, init, i, ZombieBefore(t, p, i))
      {
        Adopt(i, p, init, t);
        i := i + 1;
      }
      proc[p] := With(proc[p], Zombie);
      assert ZombieBefore(t, p, |t|) == HasZombieKid(t, p);
    }

    /** One round of exit's loop. */
    method Adopt(i: nat, p: nat, init: nat, ghost t: Table)
      requires i < proc.Length == |t| && p < |t|
      requires forall k: nat :: k < proc.Length ==> proc[k] == Midway(t[k], k, p, t[p].parent, init, i, ZombieBefore(t, p, i))
      modifies proc
      ensures forall k: nat :: k < proc.Length ==> proc[k] == Midway(t[k], k, p, t[p].parent, init, i + 1, ZombieBefore(t, p, i + 1))
    {
      ghost var dead := Child(t, i, p) && t[i].state.Zombie?;
      assert ZombieBefore(t, p, i + 1) <==> ZombieBefore(t, p, i) || dead by {
        if dead { assert i < i + 1 && Child(t, i, p); }
        if k: nat :| k < i && Child(t, k, p) && t[k].state.Zombie? { assert k < i + 1; }
      }
      if proc[i].parent == Some(p) {
        var x := proc[i];
        proc[i] := Slot(x.state, Some(init), x.chan, x.killed, x.resume, x.act);
        if proc[i].state.Zombie? {
          Wakeup1(OfProc(init));
        }
      }
    }
  }
}
