/** The process table as a value: what each section under ptable.lock makes of it. */
module ProcTable {
  import opened Common

  datatype PState = Unused | Embryo | Sleeping | Runnable | Running | Zombie

  /** Sleep channels: the address of a process (used by wait), or any other address. */
  datatype Chan = NoChan | OfProc(k: nat) | Other(n: nat)

  /** Where the saved context of a process continues: forkret, yield, sleep, or sleep called from wait. */
  datatype Resume = Fresh | Yielded | Slept | Waiting

  /** What a process is in the middle of: nothing, fork before or after it has set the child's parent. */
  datatype Act = Plain | Forking(np: nat) | ForkSet(np: nat)

  datatype Slot = Slot(state: PState, parent: Option<nat>, chan: Chan, killed: bool, resume: Resume, act: Act)

  type Table = seq<Slot>

  predicate Alive(x: Slot) { x.state.Sleeping? || x.state.Runnable? || x.state.Running? }

  /** Past EMBRYO and not UNUSED. */
  predicate Created(x: Slot) { Alive(x) || x.state.Zombie? }

  function With(x: Slot, state: PState): (r: Slot) { Slot(state, x.parent, x.chan, x.killed, x.resume, x.act) }

  // ---- the sections ----

  /** wakeup1 */
  function Wake(x: Slot, chan: Chan): (r: Slot) {
    if x.state.Sleeping? && x.chan == chan then With(x, Runnable) else x
  }

  function Woken(t: Table, chan: Chan): (r: Table)
    ensures |r| == |t| && forall k :: 0 <= k < |t| ==> r[k] == Wake(t[k], chan)
  {
    seq(|t|, k requires 0 <= k < |t| => Wake(t[k], chan))
  }

  /** allocproc's choice: the first UNUSED slot from i on, or |t|. */
  function UnusedAt(t: Table, i: nat): (k: nat)
    requires i <= |t|
    ensures i <= k <= |t| && (k < |t| ==> t[k].state.Unused?) && forall j :: i <= j < k ==> !t[j].state.Unused?
    decreases |t| - i
  {
    if i == |t| || t[i].state.Unused? then i else UnusedAt(t, i + 1)
  }

  function Child(t: Table, k: nat, p: nat): (r: bool)
    requires k < |t|
  {
    t[k].parent == Some(p)
  }

  /** wait's find: the first ZOMBIE child of p from i on, or |t|. */
  function ZombieAt(t: Table, p: nat, i: nat): (k: nat)
    requires i <= |t|
    ensures i <= k <= |t| && (k < |t| ==> Child(t, k, p) && t[k].state.Zombie?)
    ensures forall j: nat :: i <= j < k ==> !(Child(t, j, p) && t[j].state.Zombie?)
    decreases |t| - i
  {
    if i == |t| || (Child(t, i, p) && t[i].state.Zombie?) then i else ZombieAt(t, p, i + 1)
  }

  predicate HasKids(t: Table, p: nat) { exists k: nat :: k < |t| && Child(t, k, p) }

  predicate HasZombieKid(t: Table, p: nat) { exists k: nat :: k < |t| && Child(t, k, p) && t[k].state.Zombie? }

  /** wait's clean-up of a child. */
  function Reaped(x: Slot): (r: Slot) { Slot(Unused, None, x.chan, false, x.resume, Plain) }

  /** exit's effect on another process x: woken if it is the parent in wait, adopted by init if a child. */
  function AfterExit(x: Slot, p: nat, parent: Option<nat>, init: nat, orphan: bool): (r: Slot) {
    var woken := x.state.Sleeping? && ((parent.Some? && x.chan == OfProc(parent.value)) || (orphan && x.chan == OfProc(init)));
    Slot(if woken then Runnable else x.state, if x.parent == Some(p) then Some(init) else x.parent, x.chan, x.killed, x.resume, x.act)
  }

  /** exit: `orphan` says that a dead child was handed to init. */
  function Exited(t: Table, p: nat, init: nat): (r: Table)
    requires p < |t|
    ensures |r| == |t|
    ensures forall k :: 0 <= k < |t| && k != p ==> r[k] == AfterExit(t[k], p, t[p].parent, init, HasZombieKid(t, p))
    ensures r[p] == With(AfterExit(t[p], p, t[p].parent, init, HasZombieKid(t, p)), Zombie)
  {
    var orphan := HasZombieKid(t, p);
    seq(|t|, k requires 0 <= k < |t| => AfterExit(t[k], p, t[p].parent, init, orphan))
    [p := With(AfterExit(t[p], p, t[p].parent, init, orphan), Zombie)]
  }

  // ---- families ----

  /** A created process other than init has a living parent other than itself; an unused slot has none. */
  predicate ParentOk(t: Table, init: nat, k: nat)
    requires k < |t|
  {
    && (t[k].state.Unused? ==> t[k].parent.None?)
    && (t[k].parent.Some? ==> t[k].parent.value < |t| && t[k].parent.value != k && Alive(t[t[k].parent.value]))
    && (Created(t[k]) && k != init ==> t[k].parent.Some?)
  }

  /** fork's child-to-be is an EMBRYO, with the parent set or not as fork has got to it. */
  predicate ActOk(t: Table, q: nat)
    requires q < |t|
  {
    match t[q].act
    case Plain => true
    case Forking(np) => Alive(t[q]) && np < |t| && t[np].state.Embryo? && t[np].parent.None?
    case ForkSet(np) => Alive(t[q]) && np < |t| && t[np].state.Embryo? && t[np].parent == Some(q)
  }

  predicate Makes(t: Table, q: nat, np: nat)
    requires q < |t|
  {
    t[q].act == Forking(np) || t[q].act == ForkSet(np)
  }

  /** Every EMBRYO is being made by exactly one process. */
  ghost predicate Embryos(t: Table) {
    && (forall q, r, np: nat :: 0 <= q < |t| && 0 <= r < |t| && Makes(t, q, np) && Makes(t, r, np) ==> q == r)
    && (forall np: nat :: np < |t| && t[np].state.Embryo? ==> exists q: nat :: q < |t| && Makes(t, q, np))
  }

  ghost predicate Family(t: Table, init: nat) {
    && init < |t| && Alive(t[init]) && t[init].parent.None?
    && (forall k: nat :: k < |t| ==> ParentOk(t, init, k))
    && (forall q: nat :: q < |t| ==> ActOk(t, q))
    && Embryos(t)
  }

  /** Asleep in wait. */
  predicate InWait(x: Slot) { x.state.Sleeping? && x.resume.Waiting? }

  /** Whoever sleeps in wait sleeps on its own address and has no ZOMBIE child. */
  ghost predicate WaitsOk(t: Table) {
    forall p: nat, k: nat :: p < |t| && k < |t| && InWait(t[p]) ==>
      t[p].chan == OfProc(p) && !(Child(t, k, p) && t[k].state.Zombie?)
  }

  ghost predicate Good(t: Table, init: nat) { Family(t, init) && WaitsOk(t) }

  // ---- each section keeps families ----

  /** Living processes change state among themselves; nothing else changes. */
  ghost predicate Reshuffled(t: Table, r: Table) {
    && |r| == |t|
    && forall k :: 0 <= k < |t| ==>
         && r[k].parent == t[k].parent && r[k].act == t[k].act
         && (r[k].state == t[k].state || (Alive(r[k]) && Alive(t[k])))
  }

  lemma ReshuffledFamily(t: Table, r: Table, init: nat)
    requires Family(t, init) && Reshuffled(t, r)
    ensures Family(r, init)
  {
    forall k: nat | k < |r| ensures ParentOk(r, init, k) { assert ParentOk(t, init, k); }
    forall q: nat | q < |r| ensures ActOk(r, q) { assert ActOk(t, q); }
    forall q, np: nat | 0 <= q < |r| ensures Makes(r, q, np) <==> Makes(t, q, np) {}
    forall np: nat | np < |r| && r[np].state.Embryo? ensures exists q: nat :: q < |r| && Makes(r, q, np) {
      var q: nat :| q < |t| && Makes(t, q, np);
      assert Makes(r, q, np);
    }
  }

  /** Nobody starts to wait, and nobody dies. */
  ghost predicate NoNewWaits(t: Table, r: Table) {
    && |r| == |t|
    && forall k :: 0 <= k < |t| ==>
         && (InWait(r[k]) ==> InWait(t[k]) && r[k].chan == t[k].chan)
         && (r[k].state.Zombie? ==> t[k].state.Zombie? && r[k].parent == t[k].parent)
  }

  lemma NoNewWaitsOk(t: Table, r: Table)
    requires WaitsOk(t) && NoNewWaits(t, r)
    ensures WaitsOk(r)
  {
    forall p: nat, k: nat | p < |r| && k < |r| && InWait(r[p])
      ensures r[p].chan == OfProc(p) && !(Child(r, k, p) && r[k].state.Zombie?)
    {
      assert InWait(t[p]) && !(Child(t, k, p) && t[k].state.Zombie?);
    }
  }

  lemma ReshuffledGood(t: Table, r: Table, init: nat)
    requires Good(t, init) && Reshuffled(t, r) && NoNewWaits(t, r)
    ensures Good(r, init)
  {
    ReshuffledFamily(t, r, init);
    NoNewWaitsOk(t, r);
  }

  lemma WokenGood(t: Table, chan: Chan, init: nat)
    requires Good(t, init)
    ensures Good(Woken(t, chan), init)
  {
    ReshuffledGood(t, Woken(t, chan), init);
  }

  /** One living process gives way, falls asleep elsewhere than in wait, runs, or is marked killed. */
  lemma OwnGood(t: Table, p: nat, x: Slot, init: nat)
    requires Good(t, init) && p < |t|
    requires x.parent == t[p].parent && x.act == t[p].act && (x.state == t[p].state || (Alive(x) && Alive(t[p])))
    requires InWait(x) ==> InWait(t[p]) && x.chan == t[p].chan
    ensures Good(t[p := x], init)
  {
    ReshuffledGood(t, t[p := x], init);
  }

  /** Falling asleep in wait, after the scan has found no ZOMBIE child. */
  lemma WaitSleepGood(t: Table, p: nat, x: Slot, init: nat)
    requires Good(t, init) && p < |t| && Alive(t[p]) && !HasZombieKid(t, p)
    requires x == Slot(Sleeping, t[p].parent, OfProc(p), t[p].killed, Waiting, t[p].act)
    ensures Good(t[p := x], init)
  {
    var r := t[p := x];
    ReshuffledFamily(t, r, init);
    forall q: nat, k: nat | q < |r| && k < |r| && InWait(r[q])
      ensures r[q].chan == OfProc(q) && !(Child(r, k, q) && r[k].state.Zombie?)
    {
      assert !(Child(t, k, q) && t[k].state.Zombie?);
    }
  }

  /** wait's clean-up frees the slot of a child that has no children itself. */
  lemma ReapGood(t: Table, k: nat, init: nat)
    requires Good(t, init) && k < |t| && t[k].state.Zombie?
    ensures Good(t[k := Reaped(t[k])], init)
  {
    var r := t[k := Reaped(t[k])];
    assert ActOk(t, k);
    forall j: nat | j < |r| ensures ParentOk(r, init, j) { assert ParentOk(t, init, j); }
    forall q: nat | q < |r| ensures ActOk(r, q) { assert ActOk(t, q); }
    forall q, np: nat | 0 <= q < |r| ensures Makes(r, q, np) <==> Makes(t, q, np) {}
    forall np: nat | np < |r| && r[np].state.Embryo? ensures exists q: nat :: q < |r| && Makes(r, q, np) {
      var q: nat :| q < |t| && Makes(t, q, np);
      assert Makes(r, q, np);
    }
    NoNewWaitsOk(t, r);
  }

  lemma ExitFamily(t: Table, p: nat, init: nat)
    requires Family(t, init) && p < |t| && Alive(t[p]) && p != init && t[p].act.Plain?
    ensures Family(Exited(t, p, init), init)
  {
    var r := Exited(t, p, init);
    assert ParentOk(t, init, p);
    forall k: nat | k < |r| ensures ParentOk(r, init, k) { assert ParentOk(t, init, k) && ParentOk(t, init, init); }
    forall q: nat | q < |r| ensures ActOk(r, q) { assert ActOk(t, q); }
    forall q, np: nat | 0 <= q < |r| ensures Makes(r, q, np) <==> Makes(t, q, np) {}
    forall np: nat | np < |r| && r[np].state.Embryo? ensures exists q: nat :: q < |r| && Makes(r, q, np) {
      var q: nat :| q < |t| && Makes(t, q, np);
      assert Makes(r, q, np);
    }
  }

  /** No child of the dead, or of init by adoption, is missed by a sleeping parent. */
  lemma ExitWaits(t: Table, p: nat, init: nat)
    requires Good(t, init) && p < |t| && Alive(t[p]) && p != init
    ensures WaitsOk(Exited(t, p, init))
  {
    var r := Exited(t, p, init);
    forall q: nat, k: nat | q < |r| && k < |r| && InWait(r[q])
      ensures r[q].chan == OfProc(q) && !(Child(r, k, q) && r[k].state.Zombie?)
    {
      assert ParentOk(t, init, p);
      assert InWait(t[q]) && t[q].chan == OfProc(q) && !(Child(t, k, q) && t[k].state.Zombie?);
      if k != p && Child(t, k, p) && t[k].state.Zombie? { assert HasZombieKid(t, p); }
    }
  }

  // ---- fork ----

  lemma AllocGood(t: Table, q: nat, k: nat, init: nat)
    requires Good(t, init) && q < |t| && Alive(t[q]) && t[q].act.Plain? && k < |t| && t[k].state.Unused?
    ensures Good(Alloced(t, q, k), init)
  {
    var r := Alloced(t, q, k);
    assert ParentOk(t, init, k) && ActOk(t, k);
    forall j: nat | j < |r| ensures ParentOk(r, init, j) { assert ParentOk(t, init, j); }
    forall j: nat | j < |r| ensures ActOk(r, j) { assert ActOk(t, j); }
    forall j, np: nat | 0 <= j < |r| ensures Makes(r, j, np) <==> (Makes(t, j, np) || (j == q && np == k)) {}
    forall j: nat | j < |t| ensures !Makes(t, j, k) { assert ActOk(t, j); }
    forall np: nat | np < |r| && r[np].state.Embryo? ensures exists j: nat :: j < |r| && Makes(r, j, np) {
      if np == k {
        assert Makes(r, q, k);
      } else {
        var j: nat :| j < |t| && Makes(t, j, np);
        assert Makes(r, j, np);
      }
    }
    NoNewWaitsOk(t, r);
  }

  function Doing(x: Slot, act: Act): (r: Slot) { Slot(x.state, x.parent, x.chan, x.killed, x.resume, act) }

  /** allocproc called by q: slot k is EMBRYO, its context set up to start at forkret. */
  function Alloced(t: Table, q: nat, k: nat): (r: Table)
    requires q < |t| && k < |t|
    ensures |r| == |t|
  {
    t[k := Slot(Embryo, t[k].parent, t[k].chan, t[k].killed, Fresh, Plain)][q := Doing(t[q], Forking(k))]
  }

  /** fork fails: the EMBRYO is UNUSED again. */
  function ForkFailed(t: Table, q: nat, np: nat): (r: Table)
    requires q < |t| && np < |t|
    ensures |r| == |t|
  {
    t[np := With(t[np], Unused)][q := Doing(t[q], Plain)]
  }

  /** np->parent = curproc */
  function ParentSet(t: Table, q: nat, np: nat): (r: Table)
    requires q < |t| && np < |t|
    ensures |r| == |t|
  {
    t[np := Slot(t[np].state, Some(q), t[np].chan, t[np].killed, t[np].resume, t[np].act)][q := Doing(t[q], ForkSet(np))]
  }

  /** np->state = RUNNABLE */
  function ForkDone(t: Table, q: nat, np: nat): (r: Table)
    requires q < |t| && np < |t|
    ensures |r| == |t|
  {
    t[np := With(t[np], Runnable)][q := Doing(t[q], Plain)]
  }

  /** fork's three ways to change the table keep families; np is q's own EMBRYO. */
  lemma ForkGood(t: Table, q: nat, np: nat, r: Table, init: nat)
    requires Good(t, init) && q < |t|
    requires (t[q].act == Forking(np) && np < |t| && (r == ForkFailed(t, q, np) || r == ParentSet(t, q, np)))
          || (t[q].act == ForkSet(np) && np < |t| && r == ForkDone(t, q, np))
    ensures Good(r, init)
  {
    assert ActOk(t, q) && ParentOk(t, init, np) && ActOk(t, np);
    forall j: nat | j < |r| ensures ParentOk(r, init, j) { assert ParentOk(t, init, j); }
    forall j: nat | j < |r| ensures ActOk(r, j) {
      assert ActOk(t, j);
      if j != q { assert !Makes(t, j, np) by { assert Makes(t, q, np); } }
    }
    ForkEmbryos(t, q, np, r);
    NoNewWaitsOk(t, r);
  }

  lemma ForkEmbryos(t: Table, q: nat, np: nat, r: Table)
    requires Embryos(t) && q < |t| && np < |t| && np != q && Makes(t, q, np) && t[np].act.Plain?
    requires r == ForkFailed(t, q, np) || r == ParentSet(t, q, np) || r == ForkDone(t, q, np)
    requires t[np].state.Embryo?
    ensures Embryos(r)
  {
    forall j, m: nat | 0 <= j < |r| && Makes(r, j, m) ensures Makes(t, j, m) {}
    forall m: nat | m < |r| && r[m].state.Embryo? ensures exists j: nat :: j < |r| && Makes(r, j, m) {
      var j: nat :| j < |t| && Makes(t, j, m);
      assert Makes(r, j, m);
    }
  }
}
