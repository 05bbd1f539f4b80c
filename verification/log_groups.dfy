/** What the logging protocol promises over whole runs: recovery restores whole
    groups of operations, each operation is in exactly one group or in none, the
    space reservation is never overrun, and nobody is left asleep in begin_op. */
module LogGroups {
  import opened Common
  import opened LogDisk
  import opened LogCode
  import opened LogProtocol

  /** Crash safety of group commit: whatever the interleaving and wherever the machine stops, a
      completed recovery of the disk gives the first disk with the committed transactions applied in
      order, each of them whole, as long as every commit had a slot for each of its blocks. */
  lemma RecoveryGivesWholeGroups(states: seq<State>, steps: seq<Step>, i: nat)
    requires Run(states, steps) && i < |states| && Fitting(states, i)
    ensures Recoverable(states[i])
  {
    CrashInvAlways(states, steps, i);
    InvRecoverable(states[i]);
  }

  /** In such runs, from boot to crash, commits included, reads see every write logged so far. */
  lemma ReadsSeeEverything(states: seq<State>, steps: seq<Step>, i: nat)
    requires Run(states, steps) && i < |states| && Fitting(states, i) && !states[i].phase.Recovering?
    ensures Sees(states[i], states[i].disk, states[i].pinned)
  {
    CrashInvAlways(states, steps, i);
    if states[i].phase.Committing? { TrackSees(states[i]); }
  }

  // ---- every operation in exactly one group, or in none ----

  /** The part of a transaction that one operation logged. */
  ghost function EventsOf(events: seq<Event>, id: nat): (r: seq<Event>) {
    if events == [] then []
    else
      var e, rest := events[|events| - 1], EventsOf(events[..|events| - 1], id);
      if e.op == id then rest + [e] else rest
  }

  lemma EventsOfMore(events: seq<Event>, e: Event, id: nat)
    ensures EventsOf(events + [e], id) == if e.op == id then EventsOf(events, id) + [e] else EventsOf(events, id)
  {
    assert (events + [e])[..|events|] == events;
  }

  ghost predicate Is(s: State, id: nat, f: Fate) { id in s.fate && s.fate[id] == f }

  /** The open transaction holds all writes of the pending operations and nothing else. */
  ghost predicate CurrentHolds(s: State) {
    forall id :: EventsOf(s.current, id) == if Is(s, id, Pending) then Issued(s, id) else []
  }

  /** Each group holds all writes of the operations committed in it and nothing else. */
  ghost predicate GroupHolds(s: State, g: nat)
    requires g < |s.groups|
  {
    forall id :: EventsOf(s.groups[g], id) == if Is(s, id, Committed(g)) then Issued(s, id) else []
  }

  ghost predicate Settled(s: State) { forall id :: id in s.fate ==> !s.fate[id].Pending? }

  /** Groups and fates agree. */
  ghost predicate Accounted(s: State) {
    && s.fate.Keys == s.issued.Keys
    && CurrentHolds(s)
    && (forall g :: 0 <= g < |s.groups| ==> GroupHolds(s, g))
    && (forall id :: id in s.fate && s.fate[id].Committed? ==> s.fate[id].group < |s.groups|)
  }

  ghost predicate FateInv(s: State) {
    && Accounted(s)
    && (forall i :: 0 <= i < |s.active| ==> Is(s, s.active[i].id, Pending))
    && (s.phase.Recovering? ==> Settled(s))
    && (s.phase.Committing? && s.phase.k > |s.blocks| ==> Settled(s))
    && (s.phase.Running? && s.active == [] ==> Settled(s))
  }

  /** Steps that move neither groups nor fates. */
  lemma SameAccounts(s: State, s': State)
    requires Accounted(s)
    requires s'.fate == s.fate && s'.issued == s.issued && s'.groups == s.groups && s'.current == s.current
    ensures Accounted(s')
  {
    forall g | 0 <= g < |s'.groups| ensures GroupHolds(s', g) { assert GroupHolds(s, g); }
  }

  lemma AppendAccounts(s: State, i: nat, b: nat, data: Block)
    requires Accounted(s) && i < |s.active| && Is(s, s.active[i].id, Pending)
    ensures Accounted(Append(s, i, b, data))
  {
    var s' := Append(s, i, b, data);
    var me := s.active[i].id;
    forall id ensures EventsOf(s'.current, id) == if Is(s', id, Pending) then Issued(s', id) else [] {
      EventsOfMore(s.current, Event(me, b, data), id);
    }
    forall g | 0 <= g < |s'.groups| ensures GroupHolds(s', g) { assert GroupHolds(s, g); }
  }

  lemma AppendFate(s: State, i: nat, b: nat, data: Block)
    requires FateInv(s) && s.phase.Running? && i < |s.active|
    ensures FateInv(Append(s, i, b, data))
  {
    var s' := Append(s, i, b, data);
    AppendAccounts(s, i, b, data);
    forall j | 0 <= j < |s'.active| ensures Is(s', s'.active[j].id, Pending) { assert s'.active[j].id == s.active[j].id; }
  }

  lemma CloseAccounts(s: State)
    requires Accounted(s)
    ensures Accounted(Close(s)) && Settled(Close(s))
  {
    var c := Close(s);
    forall g | 0 <= g < |c.groups| ensures GroupHolds(c, g) {
      if g < |s.groups| { assert GroupHolds(s, g); }
      forall id ensures EventsOf(c.groups[g], id) == if Is(c, id, Committed(g)) then Issued(c, id) else [] {
      }
    }
  }

  lemma BeginFate(s: State, id: nat)
    requires FateInv(s) && Enabled(s, BeginOp(id)) && !MustSleep(s) && s.phase.Running?
    ensures FateInv(Do(s, BeginOp(id)))
  {
    var s' := Do(s, BeginOp(id));
    forall g | 0 <= g < |s'.groups| ensures GroupHolds(s', g) { assert GroupHolds(s, g); }
  }

  lemma CrashFate(s: State)
    requires FateInv(s) && Enabled(s, Crash)
    ensures FateInv(Do(s, Crash))
  {
    var s' := Do(s, Crash);
    forall g | 0 <= g < |s'.groups| ensures GroupHolds(s', g) { assert GroupHolds(s, g); }
  }

  lemma EndFate(s: State, i: nat)
    requires FateInv(s) && Basic(s) && Enabled(s, EndOp(i))
    ensures FateInv(Do(s, EndOp(i)))
  {
    var s' := Do(s, EndOp(i));
    SameAccounts(s, s');
    forall j | 0 <= j < |s'.active| ensures Is(s', s'.active[j].id, Pending) {
      assert s'.active[j] == s.active[if j < i then j else j + 1];
    }
  }

  lemma CommitWriteFate(s: State)
    requires FateInv(s) && s.active == [] && Enabled(s, CommitWrite)
    ensures FateInv(Do(s, CommitWrite))
  {
    var s' := Do(s, CommitWrite);
    var moved := s.(disk := s'.disk, pinned := s'.pinned, panicked := s'.panicked, phase := s'.phase);
    SameAccounts(s, moved);
    if s.phase.k == |s.blocks| {
      CloseAccounts(moved);
    }
  }

  lemma FinishCommitFate(s: State)
    requires FateInv(s) && s.active == [] && Enabled(s, FinishCommit)
    ensures FateInv(Do(s, FinishCommit))
  {
    var closed := if s.blocks == [] then Close(s) else s;
    if s.blocks == [] { CloseAccounts(s); }
    SameAccounts(closed, Do(s, FinishCommit));
  }

  lemma FateStep(s: State, step: Step)
    requires FateInv(s) && Basic(s) && Enabled(s, step)
    ensures FateInv(Do(s, step))
  {
    var s' := Do(s, step);
    match step
    case BeginOp(id) => if MustSleep(s) { SameAccounts(s, s'); } else { BeginFate(s, id); }
    case TestWrite(i) => SameAccounts(s, s');
    case AppendWrite(i, b, data) => if s'.overrun { SameAccounts(s, s'); } else { AppendFate(s, i, b, data); }
    case EndOp(i) => EndFate(s, i);
    case CommitWrite => CommitWriteFate(s);
    case FinishCommit => FinishCommitFate(s);
    case Crash => CrashFate(s);
    case RecoverWrite => SameAccounts(s, s');
    case FinishRecovery => SameAccounts(s, s');
  }

  lemma {:induction false} FateInvAlways(states: seq<State>, steps: seq<Step>, i: nat)
    requires Run(states, steps) && i < |states|
    ensures FateInv(states[i])
  {
    if i > 0 {
      assert Enabled(states[i - 1], steps[i - 1]);
      FateInvAlways(states, steps, i - 1);
      BasicAlways(states, steps, i - 1);
      FateStep(states[i - 1], steps[i - 1]);
    }
  }

  lemma StepGrows(s: State, step: Step)
    requires Enabled(s, step) && s.fate.Keys == s.issued.Keys
    ensures s.groups <= Do(s, step).groups && Do(s, step).first == s.first
    ensures forall id, g :: Is(s, id, Committed(g)) ==> Is(Do(s, step), id, Committed(g))
  {
    if step.CommitWrite? { CommitGrows(s); }
  }

  lemma CommitGrows(s: State)
    requires Enabled(s, CommitWrite)
    ensures s.groups <= Do(s, CommitWrite).groups && Do(s, CommitWrite).first == s.first
    ensures forall id, g :: Is(s, id, Committed(g)) ==> Is(Do(s, CommitWrite), id, Committed(g))
  {
  }

  /** Durability: later states only append groups, and a committed operation stays committed. */
  lemma {:induction false} CommittedStays(states: seq<State>, steps: seq<Step>, i: nat, j: nat)
    requires Run(states, steps) && i <= j < |states|
    ensures states[i].groups <= states[j].groups && states[j].first == states[i].first
    ensures forall id, g :: Is(states[i], id, Committed(g)) ==> Is(states[j], id, Committed(g))
  {
    if i < j {
      assert Enabled(states[j - 1], steps[j - 1]);
      CommittedStays(states, steps, i, j - 1);
      assert Accounted(states[j - 1]) by { FateInvAlways(states, steps, j - 1); }
      StepGrows(states[j - 1], steps[j - 1]);
    }
  }

  /** All or nothing for every operation: its writes are all in one committed group, or all in the
      open transaction, or (after a crash) in no group at all; never split over two. */
  lemma EveryOperationInOneGroup(states: seq<State>, steps: seq<Step>, i: nat, id: nat)
    requires Run(states, steps) && i < |states| && id in states[i].issued
    ensures var s := states[i];
            && id in s.fate
            && match s.fate[id]
               case Committed(g) =>
                 && g < |s.groups| && EventsOf(s.groups[g], id) == s.issued[id] && EventsOf(s.current, id) == []
                 && forall h :: 0 <= h < |s.groups| && h != g ==> EventsOf(s.groups[h], id) == []
               case Pending =>
                 && EventsOf(s.current, id) == s.issued[id]
                 && forall h :: 0 <= h < |s.groups| ==> EventsOf(s.groups[h], id) == []
               case Lost =>
                 && EventsOf(s.current, id) == []
                 && forall h :: 0 <= h < |s.groups| ==> EventsOf(s.groups[h], id) == []
  {
    var s := states[i];
    FateInvAlways(states, steps, i);
    forall h | 0 <= h < |s.groups|
      ensures EventsOf(s.groups[h], id) == if Is(s, id, Committed(h)) then Issued(s, id) else []
    {
      assert GroupHolds(s, h);
    }
  }

  /** Once the log is open with nobody inside, every operation that was not lost in a crash is on disk. */
  lemma IdleMeansCommitted(states: seq<State>, steps: seq<Step>, i: nat, id: nat)
    requires Run(states, steps) && i < |states| && id in states[i].issued
    requires states[i].phase.Running? && states[i].active == []
    ensures id in states[i].fate && (states[i].fate[id].Committed? || states[i].fate[id].Lost?)
  {
    FateInvAlways(states, steps, i);
  }

  // ---- space reservation and sleeping ----

  /** An operation appends a new block to the log only while it has budget left.  Writing a block that
      is listed already is always within budget. */
  ghost predicate Disciplined(s: State, step: Step) {
    Enabled(s, step) && step.AppendWrite? && step.b !in s.blocks ==> s.active[step.i].spent < MAXOPBLOCKS
  }

  ghost predicate DisciplinedRun(states: seq<State>, steps: seq<Step>) {
    Run(states, steps) && forall i {:trigger steps[i]} :: 0 <= i < |steps| ==> Disciplined(states[i], steps[i])
  }

  /** Budget not yet spent by the first k active operations. */
  ghost function Unspent(active: seq<Op>, k: nat): (r: int)
    requires k <= |active|
  {
    if k == 0 then 0 else Unspent(active, k - 1) + MAXOPBLOCKS - active[k - 1].spent
  }

  ghost predicate Budgets(active: seq<Op>) { forall i :: 0 <= i < |active| ==> active[i].spent <= MAXOPBLOCKS }

  lemma {:induction false} UnspentBounds(active: seq<Op>, k: nat)
    requires k <= |active| && Budgets(active)
    ensures 0 <= Unspent(active, k) <= k * MAXOPBLOCKS
  {
    if k > 0 { UnspentBounds(active, k - 1); }
  }

  lemma {:induction false} UnspentAtLeast(active: seq<Op>, k: nat, i: nat)
    requires i < k <= |active| && Budgets(active)
    ensures Unspent(active, k) >= MAXOPBLOCKS - active[i].spent
  {
    UnspentBounds(active, k - 1);
    if i < k - 1 { UnspentAtLeast(active, k - 1, i); }
  }

  lemma {:induction false} UnspentSet(active: seq<Op>, i: nat, op: Op, k: nat)
    requires i < |active| && k <= |active|
    ensures Unspent(active[i := op], k) == Unspent(active, k) - if i < k then op.spent - active[i].spent else 0
  {
    if k > 0 { UnspentSet(active, i, op, k - 1); }
  }

  lemma {:induction false} UnspentPrefix(a: seq<Op>, b: seq<Op>, k: nat)
    requires k <= |a| && k <= |b| && forall i :: 0 <= i < k ==> a[i] == b[i]
    ensures Unspent(a, k) == Unspent(b, k)
  {
    if k > 0 { UnspentPrefix(a, b, k - 1); }
  }

  lemma {:induction false} UnspentRemove(active: seq<Op>, i: nat, k: nat)
    requires i < k <= |active|
    ensures Unspent(Remove(active, i), k - 1) == Unspent(active, k) - (MAXOPBLOCKS - active[i].spent)
  {
    if k == i + 1 {
      UnspentPrefix(Remove(active, i), active, i);
    } else {
      UnspentRemove(active, i, k - 1);
      assert Remove(active, i)[k - 2] == active[k - 1];
    }
  }

  /** Blocks logged plus budgets outstanding fit in the log; an idle log is empty; sleepers have cause. */
  ghost predicate ReserveInv(s: State) {
    && Budgets(s.active)
    && |s.blocks| + Unspent(s.active, |s.active|) <= LOGSIZE
    && (s.phase.Running? && s.active == [] ==> s.blocks == [])
    && (s.asleep != {} ==> MustSleep(s))
  }

  /** With budget left there is a free slot. */
  lemma BudgetMeansRoom(s: State, i: nat)
    requires ReserveInv(s) && i < |s.active| && s.active[i].spent < MAXOPBLOCKS
    ensures |s.blocks| < LOGSIZE && (LOGSIZE < s.lay.size ==> !NoRoom(s))
  {
    UnspentAtLeast(s.active, |s.active|, i);
  }

  lemma BeginReserve(s: State, id: nat)
    requires ReserveInv(s) && Basic(s) && Enabled(s, BeginOp(id))
    ensures ReserveInv(Do(s, BeginOp(id)))
  {
    if !MustSleep(s) {
      var s' := Do(s, BeginOp(id));
      UnspentBounds(s.active, |s.active|);
      UnspentPrefix(s'.active, s.active, |s.active|);
    }
  }

  lemma WriteReserve(s: State, step: Step)
    requires ReserveInv(s) && Basic(s) && Enabled(s, step) && Disciplined(s, step)
    requires step.TestWrite? || step.AppendWrite?
    ensures ReserveInv(Do(s, step)) && !Do(s, step).overrun
  {
    var i, s' := step.i, Do(s, step);
    if step.AppendWrite? && step.b !in s.blocks { BudgetMeansRoom(s, i); }
    UnspentSet(s.active, i, s'.active[i], |s.active|);
  }

  lemma EndReserve(s: State, i: nat)
    requires ReserveInv(s) && Basic(s) && Enabled(s, EndOp(i))
    ensures ReserveInv(Do(s, EndOp(i)))
  {
    UnspentRemove(s.active, i, |s.active|);
    assert Budgets(Remove(s.active, i)) by {
      assert forall j :: 0 <= j < |s.active| - 1 ==>
        Remove(s.active, i)[j] == s.active[if j < i then j else j + 1];
    }
  }

  lemma ReserveStep(s: State, step: Step)
    requires ReserveInv(s) && Basic(s) && Enabled(s, step) && Disciplined(s, step)
    ensures var s' := Do(s, step); ReserveInv(s') && !s'.overrun
  {
    match step
    case BeginOp(id) => BeginReserve(s, id);
    case TestWrite(i) => WriteReserve(s, step);
    case AppendWrite(i, b, data) => WriteReserve(s, step);
    case EndOp(i) => EndReserve(s, i);
    case _ =>
  }

  /** In every state, for every size of the log area. */
  lemma {:induction false} ReserveAlways(states: seq<State>, steps: seq<Step>, i: nat)
    requires DisciplinedRun(states, steps) && i < |states|
    ensures ReserveInv(states[i]) && !states[i].overrun && Basic(states[i])
  {
    BasicAlways(states, steps, i);
    if i > 0 {
      assert Enabled(states[i - 1], steps[i - 1]) && Disciplined(states[i - 1], steps[i - 1]);
      ReserveAlways(states, steps, i - 1);
      ReserveStep(states[i - 1], steps[i - 1]);
    }
  }

  /** Reservation: operations that append at most MAXOPBLOCKS new blocks never store past log.lh, and
      find a slot for a new block if the log area is larger than LOGSIZE, in every interleaving and across
      crashes. */
  lemma ReservationHolds(states: seq<State>, steps: seq<Step>, i: nat)
    requires DisciplinedRun(states, steps) && i < |states|
    ensures var s := states[i];
            && !s.overrun && Distinct(s.blocks)
            && s.outstanding == |s.active| && (s.committing ==> s.active == [])
            && |s.blocks| + Unspent(s.active, |s.active|) <= LOGSIZE
            && forall j :: 0 <= j < |s.active| && s.active[j].spent < MAXOPBLOCKS ==>
                 |s.blocks| < LOGSIZE && (LOGSIZE < s.lay.size ==> !NoRoom(s))
  {
    ReserveAlways(states, steps, i);
    var s := states[i];
    forall j | 0 <= j < |s.active| && s.active[j].spent < MAXOPBLOCKS
      ensures |s.blocks| < LOGSIZE && (LOGSIZE < s.lay.size ==> !NoRoom(s))
    {
      BudgetMeansRoom(s, j);
    }
  }

  /** Nobody sleeps in begin_op without cause, and nobody at all once the log is idle. */
  lemma NobodyLeftAsleep(states: seq<State>, steps: seq<Step>, i: nat)
    requires DisciplinedRun(states, steps) && i < |states|
    ensures states[i].asleep != {} ==> MustSleep(states[i]) && (states[i].committing || states[i].active != [])
    ensures states[i].phase.Running? && states[i].active == [] ==> states[i].asleep == {}
  {
    ReserveAlways(states, steps, i);
  }

  // ---- panics of log_write and end_op ----

  /** In such runs, with a log area larger than LOGSIZE, the only panic is log_write's, exactly when it finds
      LOGSIZE blocks logged: new block or not, since it tests before it looks for the block. */
  lemma PanicIff(states: seq<State>, steps: seq<Step>, i: nat)
    requires DisciplinedRun(states, steps) && i < |steps| && LOGSIZE < states[0].lay.size && !states[i].panicked
    ensures states[i + 1].panicked <==> steps[i].TestWrite? && |states[i].blocks| == LOGSIZE
  {
    assert Enabled(states[i], steps[i]);
    BasicAlways(states, steps, i);
    AllFit(states, steps, i);
    CrashInvAlways(states, steps, i);
    if states[i].phase.Committing? && steps[i] == CommitWrite { NextIs(states[i]); }
    if states[i].phase.Recovering? && steps[i] == RecoverWrite { RecoveryNext(states[i]); }
  }

  /** A log area larger than LOGSIZE has a slot for every block of every commit. */
  lemma AllFit(states: seq<State>, steps: seq<Step>, i: nat)
    requires Run(states, steps) && i < |states| && LOGSIZE < states[0].lay.size
    ensures Fitting(states, i)
  {
    forall j | 0 <= j <= i ensures Fits(states[j]) { BasicAlways(states, steps, j); }
  }

  /** The blocks an operation has passed to log_write. */
  ghost function Touched(s: State, id: nat): (r: set<nat>) { set e | e in Issued(s, id) :: e.b }

  /** An operation calls log_write only while it has logged fewer than MAXOPBLOCKS different blocks: a
      condition on the operation alone. */
  ghost predicate Frugal(s: State, step: Step) {
    Enabled(s, step) && step.TestWrite? ==> |Touched(s, s.active[step.i].id)| < MAXOPBLOCKS
  }

  ghost predicate FrugalRun(states: seq<State>, steps: seq<Step>) {
    Run(states, steps) && forall i {:trigger steps[i]} :: 0 <= i < |steps| ==> Frugal(states[i], steps[i])
  }

  /** What an active operation spent is at most the different blocks it logged, and those are listed. */
  ghost predicate Thrifty(s: State, op: Op) {
    && op.spent <= |Touched(s, op.id)| && (op.tested ==> |Touched(s, op.id)| < MAXOPBLOCKS)
    && forall b :: b in Touched(s, op.id) ==> b in s.blocks
  }

  ghost predicate SpendInv(s: State) {
    && (forall i :: 0 <= i < |s.active| ==> s.active[i].id in s.issued && Thrifty(s, s.active[i]))
    && (forall i, j :: 0 <= i < j < |s.active| ==> s.active[i].id != s.active[j].id)
  }

  lemma TouchedMore(s: State, i: nat, b: nat, data: Block, id: nat)
    requires i < |s.active|
    ensures Touched(Append(s, i, b, data), id) == Touched(s, id) + if id == s.active[i].id then {b} else {}
  {
    var s' := Append(s, i, b, data);
    var ev := Event(s.active[i].id, b, data);
    if id == s.active[i].id {
      assert Issued(s', id) == Issued(s, id) + [ev];
      assert ev in Issued(s', id);
      forall e | e in Issued(s, id) ensures e in Issued(s', id) { }
    } else {
      assert Issued(s', id) == Issued(s, id);
    }
  }

  lemma AppendSpends(s: State, i: nat, b: nat, data: Block)
    requires SpendInv(s) && i < |s.active| && s.active[i].tested
    ensures SpendInv(Append(s, i, b, data))
  {
    var s' := Append(s, i, b, data);
    forall j | 0 <= j < |s'.active| ensures s'.active[j].id in s'.issued && Thrifty(s', s'.active[j]) {
      assert Thrifty(s, s.active[j]);
      TouchedMore(s, i, b, data, s.active[j].id);
    }
  }

  lemma SameSpends(s: State, s': State)
    requires SpendInv(s) && s'.issued == s.issued && s'.blocks == s.blocks
    requires forall j :: 0 <= j < |s'.active| ==> s'.active[j] in s.active
    requires forall i, j :: 0 <= i < j < |s'.active| ==> s'.active[i].id != s'.active[j].id
    ensures SpendInv(s')
  {
    forall j | 0 <= j < |s'.active| ensures s'.active[j].id in s'.issued && Thrifty(s', s'.active[j]) {
      assert s'.active[j] in s.active;
      var k :| 0 <= k < |s.active| && s.active[k] == s'.active[j];
      assert Thrifty(s, s.active[k]);
      assert Touched(s', s'.active[j].id) == Touched(s, s.active[k].id);
    }
  }

  lemma BeginSpends(s: State, id: nat)
    requires SpendInv(s) && Enabled(s, BeginOp(id)) && !MustSleep(s)
    ensures SpendInv(Do(s, BeginOp(id)))
  {
    var s' := Do(s, BeginOp(id));
    forall j | 0 <= j < |s'.active| ensures s'.active[j].id in s'.issued && Thrifty(s', s'.active[j]) {
      if j < |s.active| {
        assert Thrifty(s, s.active[j]);
        assert Touched(s', s'.active[j].id) == Touched(s, s.active[j].id);
      } else {
        assert Touched(s', id) == {};
      }
    }
  }

  lemma TestSpends(s: State, i: nat)
    requires SpendInv(s) && Enabled(s, TestWrite(i)) && Frugal(s, TestWrite(i))
    ensures SpendInv(Do(s, TestWrite(i)))
  {
    var s' := Do(s, TestWrite(i));
    forall j | 0 <= j < |s'.active| ensures s'.active[j].id in s'.issued && Thrifty(s', s'.active[j]) {
      assert Thrifty(s, s.active[j]);
      assert Touched(s', s'.active[j].id) == Touched(s, s.active[j].id);
    }
  }

  lemma EndSpends(s: State, i: nat)
    requires SpendInv(s) && Enabled(s, EndOp(i))
    ensures SpendInv(Do(s, EndOp(i)))
  {
    var s' := Do(s, EndOp(i));
    assert forall j :: 0 <= j < |s'.active| ==> s'.active[j] == s.active[if j < i then j else j + 1];
    SameSpends(s, s');
  }

  lemma SpendStep(s: State, step: Step)
    requires SpendInv(s) && Basic(s) && Enabled(s, step) && Frugal(s, step)
    ensures SpendInv(Do(s, step))
  {
    var s' := Do(s, step);
    match step
    case BeginOp(id) => if MustSleep(s) { SameSpends(s, s'); } else { BeginSpends(s, id); }
    case TestWrite(i) => TestSpends(s, i);
    case AppendWrite(i, b, data) =>
      assert Thrifty(s, s.active[i]);
      if s'.overrun { SameSpends(s, s'); } else { AppendSpends(s, i, b, data); }
    case EndOp(i) => EndSpends(s, i);
    case CommitWrite =>
    case FinishCommit =>
    case Crash =>
    case RecoverWrite =>
    case FinishRecovery =>
  }

  lemma {:induction false} SpendAlways(states: seq<State>, steps: seq<Step>, i: nat)
    requires FrugalRun(states, steps) && i < |states|
    ensures SpendInv(states[i])
  {
    if i > 0 {
      var s, step := states[i - 1], steps[i - 1];
      assert Enabled(s, step) && Frugal(s, step) && states[i] == Do(s, step);
      assert SpendInv(s) by { SpendAlways(states, steps, i - 1); }
      assert Basic(s) by { BasicAlways(states, steps, i - 1); }
      SpendStep(s, step);
    }
  }

  /** Frugal operations are within budget. */
  lemma FrugalIsDisciplined(states: seq<State>, steps: seq<Step>, i: nat)
    requires FrugalRun(states, steps) && i < |steps|
    ensures Disciplined(states[i], steps[i])
  {
    assert Enabled(states[i], steps[i]);
    SpendAlways(states, steps, i);
    if steps[i].AppendWrite? { assert Thrifty(states[i], states[i].active[steps[i].i]); }
  }

  /** A frugal log_write finds a free slot. */
  lemma FrugalRoom(s: State, step: Step)
    requires SpendInv(s) && ReserveInv(s) && Enabled(s, step) && Frugal(s, step) && step.TestWrite?
    ensures |s.blocks| < LOGSIZE
  {
    assert Thrifty(s, s.active[step.i]);
    BudgetMeansRoom(s, step.i);
  }

  lemma FrugalRunDisciplined(states: seq<State>, steps: seq<Step>)
    requires FrugalRun(states, steps)
    ensures DisciplinedRun(states, steps)
  {
    forall i {:trigger steps[i]} | 0 <= i < |steps| ensures Disciplined(states[i], steps[i]) { FrugalIsDisciplined(states, steps, i); }
  }

  /** Frugal operations never panic when the log area is large enough. */
  lemma {:induction false} FrugalNeverPanics(states: seq<State>, steps: seq<Step>, i: nat)
    requires FrugalRun(states, steps) && i < |states| && LOGSIZE < states[0].lay.size
    ensures !states[i].panicked
  {
    if i > 0 {
      FrugalNeverPanics(states, steps, i - 1);
      FrugalRunDisciplined(states, steps);
      PanicIff(states, steps, i - 1);
      if steps[i - 1].TestWrite? { FrugalRoomAt(states, steps, i - 1); }
    }
  }

  lemma FrugalRoomAt(states: seq<State>, steps: seq<Step>, i: nat)
    requires FrugalRun(states, steps) && DisciplinedRun(states, steps) && i < |steps| && steps[i].TestWrite?
    ensures |states[i].blocks| < LOGSIZE
  {
    SpendAlways(states, steps, i);
    ReserveAlways(states, steps, i);
    FrugalRoom(states[i], steps[i]);
  }
}
