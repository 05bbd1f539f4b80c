/** What log.size does to the promises of log.c.  log_write tests without the lock
    and appends with it, so the list can reach log.size + 1, two blocks more than
    the log area has slots for.  The exact conditions on log.size, for runs in which
    every operation logs fewer than MAXOPBLOCKS different blocks before each
    log_write: recovery gives whole groups, and no log_write panics.  mkfs.c builds
    images with log.size == LOGSIZE, where both fail. */
module LogCapacity {
  import opened Common
  import opened LogDisk
  import opened LogCode
  import opened LogProtocol
  import opened LogGroups

  // ---- how long the list gets ----

  /** The most blocks that log.lh lists in any run. */
  function Most(size: nat): (m: nat) { if size < 2 then 0 else Min(LOGSIZE, size + 1) }

  function Flag(active: seq<Op>, i: nat): (r: nat) { if i < |active| && active[i].tested then 1 else 0 }

  /** Operations between log_write's test and its locked part. */
  function Tested(active: seq<Op>): (r: nat) { Flag(active, 0) + Flag(active, 1) + Flag(active, 2) }

  /** At most three operations are inside; once the test fails, the list grows only by those past it. */
  ghost predicate ListInv(s: State) {
    && |s.active| <= 3
    && (s.lay.size < 2 ==> s.blocks == [] && Tested(s.active) == 0)
    && (|s.blocks| > s.lay.size - 2 ==> |s.blocks| + Tested(s.active) <= s.lay.size + 1)
  }

  lemma ListEnd(active: seq<Op>, i: nat)
    requires i < |active| <= 3 && !active[i].tested
    ensures Tested(Remove(active, i)) == Tested(active)
  {
    var left := Remove(active, i);
    assert forall j :: 0 <= j < |left| ==> left[j] == active[if j < i then j else j + 1];
    assert i == 0 || i == 1 || i == 2;
  }

  lemma ListFlag(active: seq<Op>, i: nat, op: Op)
    requires i < |active| <= 3
    ensures Tested(active[i := op]) == Tested(active) - (if active[i].tested then 1 else 0) + if op.tested then 1 else 0
    ensures Tested(active[i := op]) <= |active|
  {
    assert i == 0 || i == 1 || i == 2;
  }

  lemma ListAppend(s: State, i: nat, b: nat, data: Block)
    requires ListInv(s) && i < |s.active| && s.active[i].tested
    ensures ListInv(Append(s, i, b, data))
  {
    ListFlag(s.active, i, Append(s, i, b, data).active[i]);
    ListFlag(s.active, i, s.active[i]);
  }

  lemma ListStep(s: State, step: Step)
    requires ListInv(s) && Basic(s) && Enabled(s, step)
    ensures ListInv(Do(s, step))
  {
    match step
    case BeginOp(id) => ListBegin(s, id);
    case TestWrite(i) => ListFlag(s.active, i, s.active[i].(tested := true));
    case AppendWrite(i, b, data) => ListAppend(s, i, b, data);
    case EndOp(i) => ListEnd(s.active, i);
    case _ => ListDisk(s, step);
  }

  lemma ListBegin(s: State, id: nat)
    requires ListInv(s) && Basic(s) && Enabled(s, BeginOp(id))
    ensures ListInv(Do(s, BeginOp(id)))
  {
  }

  lemma ListDisk(s: State, step: Step)
    requires ListInv(s) && Basic(s) && Enabled(s, step)
    requires step in {CommitWrite, FinishCommit, Crash, RecoverWrite, FinishRecovery}
    ensures ListInv(Do(s, step))
  {
  }

  lemma {:induction false} ListAlways(states: seq<State>, steps: seq<Step>, i: nat)
    requires Run(states, steps) && i < |states|
    ensures ListInv(states[i])
  {
    if i > 0 {
      assert Enabled(states[i - 1], steps[i - 1]);
      ListAlways(states, steps, i - 1);
      BasicAlways(states, steps, i - 1);
      ListStep(states[i - 1], steps[i - 1]);
    }
  }

  /** The bound, in every state of every run. */
  lemma MostAlways(states: seq<State>, steps: seq<Step>, i: nat)
    requires Run(states, steps) && i < |states|
    ensures |states[i].blocks| <= Most(states[0].lay.size)
  {
    ListAlways(states, steps, i);
    BasicAlways(states, steps, i);
  }

  // ---- building runs ----

  ghost function Last(states: seq<State>): (s: State)
    requires states != []
  {
    states[|states| - 1]
  }

  /** Any enabled step, taken within budget, extends a run. */
  lemma Extend(states: seq<State>, steps: seq<Step>, step: Step) returns (states': seq<State>, steps': seq<Step>)
    requires FrugalRun(states, steps) && Enabled(Last(states), step) && Frugal(Last(states), step)
    ensures FrugalRun(states', steps') && states'[0] == states[0] && Last(states') == Do(Last(states), step)
  {
    states', steps' := states + [Do(Last(states), step)], steps + [step];
    forall i | 0 <= i < |steps'|
      ensures Enabled(states'[i], steps'[i]) && Frugal(states'[i], steps'[i])
      ensures states'[i + 1] == Do(states'[i], steps'[i])
    {
      if i < |steps| { assert states'[i] == states[i] && steps'[i] == steps[i]; }
    }
  }

  /** One more recovery write, when the header found is sound. */
  lemma RecoverOne(states: seq<State>, steps: seq<Step>) returns (states': seq<State>, steps': seq<Step>)
    requires FrugalRun(states, steps) && CrashInv(Last(states)) && !Last(states).panicked && !Last(states).overrun
    requires var s := Last(states); s.phase.Recovering? && s.phase.k <= s.phase.found[s.lay.start][0]
    ensures FrugalRun(states', steps') && states'[0] == states[0] && CrashInv(Last(states'))
    ensures var s, s' := Last(states), Last(states'); s' == s.(disk := s'.disk, phase := Recovering(s.phase.found, s.phase.k + 1))
  {
    var s := Last(states);
    var entries, k := Entries(s.phase.found[s.lay.start]), s.phase.k;
    if k < |entries| {
      assert Home(s.lay, s.phase.found, entries[k]) && s.lay.InLog(s.lay.start + 1 + k);
    }
    RecoveryNext(s);
    states', steps' := Extend(states, steps, RecoverWrite);
    RecoveryKeeps(s, RecoverWrite);
  }

  /** The machine boots: every recovery write, then the log is open and empty. */
  lemma Boot(s0: State) returns (states: seq<State>, steps: seq<Step>)
    requires Init(s0)
    ensures FrugalRun(states, steps) && states[0] == s0 && CrashInv(Last(states))
    ensures Last(states) == s0.(disk := Last(states).disk, phase := Running)
  {
    states, steps := [s0], [];
    CrashInvAlways(states, steps, 0);
    var n := s0.disk[s0.lay.start][0] + 1;
    var k := 0;
    while k < n
      invariant 0 <= k <= n && FrugalRun(states, steps) && states[0] == s0 && CrashInv(Last(states))
      invariant Last(states) == s0.(disk := Last(states).disk, phase := Recovering(s0.disk, k))
    {
      states, steps := RecoverOne(states, steps);
      k := k + 1;
    }
    RecoveryKeeps(Last(states), FinishRecovery);
    states, steps := Extend(states, steps, FinishRecovery);
  }

  /** How many of the first j log entries the i-th of three operations has made, taking turns. */
  function Share(j: nat, i: nat): (r: nat)
    requires i < 3
  {
    (j + 2 - i) / 3
  }

  /** Whether operation i is one of the t whose turn is next. */
  predicate Due(j: nat, t: nat, i: nat) { (i + 3 - j % 3) % 3 < t }

  lemma DueTest(j: nat, t: nat, k: nat)
    requires t < 3 && k < 3
    ensures Due(j, t + 1, k) <==> Due(j, t, k) || k == (j + t) % 3
  {
  }

  lemma DueAppend(j: nat, t: nat, k: nat)
    requires t < 3 && k < 3
    ensures Due(j + 1, t, k) <==> Due(j, t + 1, k) && k != j % 3
    ensures Share(j + 1, k) == Share(j, k) + if k == j % 3 then 1 else 0
  {
  }

  ghost predicate Turns(s: State, j: nat, t: nat) {
    && s.outstanding == 3 == |s.active|
    && forall i: nat :: i < 3 ==>
         s.active[i].id == i && (s.active[i].tested <==> Due(j, t, i)) && |Touched(s, i)| <= Share(j, i)
  }

  /** The list is the first j home blocks behind the log area, all with the same data. */
  ghost predicate Listed(s: State, j: nat, data: Block) {
    && |s.blocks| == j && s.lay.start + s.lay.size + j <= |s.disk|
    && forall i :: 0 <= i < j ==>
         s.blocks[i] == s.lay.start + s.lay.size + i && s.blocks[i] in s.pinned && s.pinned[s.blocks[i]] == data
  }

  /** Three operations have logged j blocks between them; the t whose turn is next have passed the test. */
  ghost predicate Loaded(s: State, s0: State, j: nat, t: nat, data: Block) {
    && CrashInv(s) && s.phase.Running? && !s.panicked && !s.overrun
    && s.lay == s0.lay && |s.disk| == |s0.disk| && s.first == s0.first && s.groups == []
    && Turns(s, j, t) && Listed(s, j, data)
  }

  lemma Admit(s0: State, data: Block) returns (states: seq<State>, steps: seq<Step>)
    requires Init(s0)
    ensures FrugalRun(states, steps) && states[0] == s0 && Loaded(Last(states), s0, 0, 0, data)
  {
    states, steps := Boot(s0);
    states, steps := AdmitOne(states, steps, 0);
    states, steps := AdmitOne(states, steps, 1);
    states, steps := AdmitOne(states, steps, 2);
    forall i: nat | i < 3 ensures Touched(Last(states), i) == {} { }
  }

  lemma AdmitOne(states: seq<State>, steps: seq<Step>, id: nat) returns (states': seq<State>, steps': seq<Step>)
    requires FrugalRun(states, steps) && CrashInv(Last(states)) && id < 3
    requires var s := Last(states);
      && s.phase.Running? && !s.panicked && !s.overrun && s.blocks == [] && s.asleep == {} && |s.active| == id && id !in s.issued
    ensures FrugalRun(states', steps') && states'[0] == states[0] && CrashInv(Last(states'))
    ensures var s := Last(states);
      Last(states') == s.(outstanding := id + 1, active := s.active + [Op(id, 0, false)],
                          issued := s.issued[id := []], fate := s.fate[id := Pending])
  {
    MemoryKeeps(Last(states), BeginOp(id));
    states', steps' := Extend(states, steps, BeginOp(id));
  }

  /** The next operation in turn passes the test. */
  lemma TestNext(states: seq<State>, steps: seq<Step>, s0: State, j: nat, t: nat, data: Block)
      returns (states': seq<State>, steps': seq<Step>)
    requires FrugalRun(states, steps) && Loaded(Last(states), s0, j, t, data)
    requires t < 3 && j + t < LOGSIZE && j < s0.lay.size - 1
    ensures FrugalRun(states', steps') && states'[0] == states[0] && Loaded(Last(states'), s0, j, t + 1, data)
  {
    var i, s := (j + t) % 3, Last(states);
    NextInTurn(s, j, t);
    MemoryKeeps(s, TestWrite(i));
    states', steps' := Extend(states, steps, TestWrite(i));
    assert Last(states') == s.(active := s.active[i := s.active[i].(tested := true)]);
    TestTurns(s, j, t);
  }

  lemma NextInTurn(s: State, j: nat, t: nat)
    requires Turns(s, j, t) && t < 3 && j + t < LOGSIZE
    ensures var op := s.active[(j + t) % 3]; !op.tested && |Touched(s, op.id)| < MAXOPBLOCKS
  {
    assert !Due(j, t, (j + t) % 3) && Share(j, (j + t) % 3) < MAXOPBLOCKS;
  }

  lemma TestTurns(s: State, j: nat, t: nat)
    requires Turns(s, j, t) && t < 3
    ensures var i := (j + t) % 3; Turns(s.(active := s.active[i := s.active[i].(tested := true)]), j, t + 1)
  {
    var i := (j + t) % 3;
    var s' := s.(active := s.active[i := s.active[i].(tested := true)]);
    forall k: nat | k < 3
      ensures s'.active[k].id == k && (s'.active[k].tested <==> Due(j, t + 1, k)) && |Touched(s', k)| <= Share(j, k)
    {
      assert Touched(s', k) == Touched(s, k);
      DueTest(j, t, k);
    }
  }

  /** The first of those past the test logs a fresh block. */
  lemma AppendNext(states: seq<State>, steps: seq<Step>, s0: State, j: nat, t: nat, data: Block)
      returns (states': seq<State>, steps': seq<Step>)
    requires FrugalRun(states, steps) && Loaded(Last(states), s0, j, t + 1, data)
    requires t < 3 && j < LOGSIZE && s0.lay.start + s0.lay.size + j < |s0.disk|
    ensures FrugalRun(states', steps') && states'[0] == states[0] && Loaded(Last(states'), s0, j + 1, t, data)
  {
    var i, b, s := j % 3, s0.lay.start + s0.lay.size + j, Last(states);
    assert Due(j, t + 1, i);
    assert b !in s.blocks;
    WriteKeeps(s, i, b, data);
    states', steps' := Extend(states, steps, AppendWrite(i, b, data));
    assert Last(states') == Append(s, i, b, data);
    AppendTurns(s, j, t, b, data);
  }

  lemma AppendTurns(s: State, j: nat, t: nat, b: nat, data: Block)
    requires t < 3 && Turns(s, j, t + 1)
    ensures Turns(Append(s, j % 3, b, data), j + 1, t)
  {
    var i, s' := j % 3, Append(s, j % 3, b, data);
    forall k: nat | k < 3
      ensures s'.active[k].id == k && (s'.active[k].tested <==> Due(j + 1, t, k)) && |Touched(s', k)| <= Share(j + 1, k)
    {
      TouchedMore(s, i, b, data, k);
      DueAppend(j, t, k);
    }
  }

  /** Three operations log m blocks between them, for every m up to the bound. */
  lemma Fill(s0: State, m: nat, data: Block) returns (states: seq<State>, steps: seq<Step>)
    requires Init(s0) && m <= Most(s0.lay.size) && s0.lay.start + s0.lay.size + m <= |s0.disk|
    ensures FrugalRun(states, steps) && states[0] == s0 && Loaded(Last(states), s0, m, 0, data)
  {
    states, steps := Admit(s0, data);
    var j := 0;
    while j < m && j < s0.lay.size - 2
      invariant 0 <= j <= m && (j == 0 || j <= s0.lay.size - 2)
      invariant FrugalRun(states, steps) && states[0] == s0 && Loaded(Last(states), s0, j, 0, data)
    {
      states, steps := TestNext(states, steps, s0, j, 0, data);
      states, steps := AppendNext(states, steps, s0, j, 0, data);
      j := j + 1;
    }
    states, steps := FillPast(states, steps, s0, j, m, data);
  }

  /** The last of them pass the test together. */
  lemma FillPast(states: seq<State>, steps: seq<Step>, s0: State, j0: nat, m: nat, data: Block)
      returns (states': seq<State>, steps': seq<Step>)
    requires FrugalRun(states, steps) && Loaded(Last(states), s0, j0, 0, data)
    requires j0 <= m <= LOGSIZE && m - j0 <= 3 && (j0 < m ==> j0 < s0.lay.size - 1) && s0.lay.start + s0.lay.size + m <= |s0.disk|
    ensures FrugalRun(states', steps') && states'[0] == states[0] && Loaded(Last(states'), s0, m, 0, data)
  {
    states', steps' := states, steps;
    var j, t := j0, 0;
    while j + t < m
      invariant 0 <= t <= 3 && j + t <= m
      invariant FrugalRun(states', steps') && states'[0] == states[0] && Loaded(Last(states'), s0, j, t, data)
    {
      states', steps' := TestNext(states', steps', s0, j, t, data);
      t := t + 1;
    }
    while t > 0
      invariant 0 <= t <= 3 && j + t == m
      invariant FrugalRun(states', steps') && states'[0] == states[0] && Loaded(Last(states'), s0, j, t, data)
    {
      states', steps' := AppendNext(states', steps', s0, j, t - 1, data);
      j, t := j + 1, t - 1;
    }
  }

  /** And end: the commit of these blocks is about to start. */
  lemma FillAndEnd(s0: State, m: nat, data: Block) returns (states: seq<State>, steps: seq<Step>)
    requires Init(s0) && m <= Most(s0.lay.size) && s0.lay.start + s0.lay.size + m <= |s0.disk|
    ensures FrugalRun(states, steps) && states[0] == s0
    ensures var s := Last(states);
            && s.phase.Committing? && s.phase.k == 0 && Within(s) && !s.panicked && !s.overrun
            && s.lay == s0.lay && |s.disk| == |s0.disk| && s.first == s0.first && s.groups == [] && Listed(s, m, data)
  {
    states, steps := Fill(s0, m, data);
    var full := Last(states);
    forall i: nat | i < 3 ensures !full.active[i].tested { assert !Due(m, 0, i); }
    states, steps := Extend(states, steps, EndOp(0));
    states, steps := Extend(states, steps, EndOp(0));
    states, steps := Extend(states, steps, EndOp(0));
    var s := Last(states);
    assert s == full.(outstanding := 0, active := [], asleep := {}, committing := true, phase := s.phase) && s.phase.k == 0;
    BasicAlways(states, steps, |states| - 1);
    HomesNotLogged(full);
  }

  lemma HomesNotLogged(s: State)
    requires Basic(s) && forall b :: b in s.pinned <==> b in s.blocks
    ensures forall b: nat :: s.lay.InLog(b) ==> b !in s.pinned
  {
    forall b | b in s.pinned ensures !s.lay.InLog(b) {
      var i :| 0 <= i < |s.blocks| && s.blocks[i] == b;
      assert Home(s.lay, s.disk, s.blocks[i]);
    }
  }

  // ---- recovery ----

  /** From any first state, three operations within budget log as many blocks as the log area has, header
      included.  The last log block of their commit lands behind the area.  A crash right after it, and a
      complete recovery: no operation has committed, yet the block behind the area has changed. */
  lemma OutgrownLoses(s0: State) returns (states: seq<State>, steps: seq<Step>)
    requires Init(s0) && 2 <= s0.lay.size <= LOGSIZE && s0.lay.start + 2 * s0.lay.size <= |s0.disk|
    ensures FrugalRun(states, steps) && states[0] == s0
    ensures var s := Last(states); var h := s.lay.start + s.lay.size;
            && s.phase.Running? && s.active == [] && s.groups == [] && s.current == [] && s.pinned == map[]
            && Home(s.lay, s.disk, h) && |s.first| == |s.disk| && s.disk[h] != s.first[h]
    ensures !Recoverable(Last(states)) && !Sees(Last(states), Last(states).disk, Last(states).pinned)
  {
    var size, h := s0.lay.size, s0.lay.start + s0.lay.size;
    var data: Block := s0.first[h][0 := s0.first[h][0] + 1];
    states, steps := FillAndEnd(s0, size, data);
    states, steps := WriteSlots(states, steps, s0, data);
    states, steps := WritePast(states, steps, data);
    states, steps := CrashAndRecover(states, steps);
    LostIs(Last(states), h);
  }

  /** A changed block that no committed or open transaction accounts for. */
  lemma LostIs(s: State, h: nat)
    requires s.groups == [] && s.current == [] && s.pinned == map[] && |s.first| == |s.disk|
    requires ValidHead(s.lay, s.disk) && s.disk[s.lay.start][0] == 0 && Home(s.lay, s.disk, h) && s.disk[h] != s.first[h]
    ensures !Recoverable(s) && !Sees(s, s.disk, s.pinned)
  {
    RecoveredEmpty(s.lay, s.disk);
  }

  /** write_log up to the end of the log area. */
  lemma WriteSlots(states: seq<State>, steps: seq<Step>, s0: State, data: Block) returns (states': seq<State>, steps': seq<Step>)
    requires FrugalRun(states, steps) && 2 <= s0.lay.size <= LOGSIZE
    requires var s := Last(states);
      && s.phase.Committing? && s.phase.k == 0 && Within(s) && !s.panicked && !s.overrun
      && s.lay == s0.lay && Listed(s, s0.lay.size, data)
    ensures FrugalRun(states', steps') && states'[0] == states[0]
    ensures var s, s' := Last(states), Last(states');
            s' == s.(disk := s'.disk, phase := Committing(s.phase.t, s0.lay.size - 1)) && Within(s')
  {
    states', steps' := states, steps;
    var s := Last(states);
    var k := 0;
    while k < s0.lay.size - 1
      invariant 0 <= k <= s0.lay.size - 1 && FrugalRun(states', steps') && states'[0] == states[0] && Within(Last(states'))
      invariant Last(states') == s.(disk := Last(states').disk, phase := Committing(s.phase.t, k))
    {
      var now := Last(states');
      assert now.blocks[k] == s.lay.start + s.lay.size + k;
      WithinNext(now);
      states', steps' := Extend(states', steps', CommitWrite);
      k := k + 1;
    }
  }

  /** The write behind it. */
  lemma WritePast(states: seq<State>, steps: seq<Step>, data: Block) returns (states': seq<State>, steps': seq<Step>)
    requires FrugalRun(states, steps)
    requires var s := Last(states);
      && Within(s) && s.phase.k == s.lay.size - 1 && 2 <= s.lay.size && !s.panicked && !s.overrun && Listed(s, s.lay.size, data)
    ensures FrugalRun(states', steps') && states'[0] == states[0]
    ensures var s, s' := Last(states), Last(states'); var h := s.lay.start + s.lay.size;
            && s'.disk == Put(s.disk, Write(h, data)) && ValidHead(s.lay, s'.disk) && s'.disk[s.lay.start][0] == 0
            && !s'.overrun && s'.lay == s.lay && s'.first == s.first && s'.groups == s.groups
  {
    var s := Last(states);
    assert s.blocks[s.lay.size - 1] == s.lay.start + s.lay.size + (s.lay.size - 1);
    states', steps' := Extend(states, steps, CommitWrite);
  }

  lemma CrashAndRecover(states: seq<State>, steps: seq<Step>) returns (states': seq<State>, steps': seq<Step>)
    requires FrugalRun(states, steps)
    requires var s := Last(states); !s.overrun && ValidHead(s.lay, s.disk) && s.disk[s.lay.start][0] == 0
    ensures FrugalRun(states', steps') && states'[0] == states[0]
    ensures var s, s' := Last(states), Last(states');
            && s'.phase.Running? && s'.active == [] && s'.current == [] && s'.pinned == map[] && s'.lay == s.lay
            && s'.groups == s.groups && s'.first == s.first && |s'.disk| == |s.disk| && ValidHead(s'.lay, s'.disk)
            && s'.disk[s.lay.start][0] == 0 && SameHome(s.lay, s'.disk, s.disk)
  {
    states', steps' := Extend(states, steps, Crash);
    states', steps' := Extend(states', steps', RecoverWrite);
    states', steps' := Extend(states', steps', FinishRecovery);
  }

  // ---- in any run ----

  /** A commit starts on the disk that the committed transactions left, whether or not it fits. */
  lemma CommitStarts(states: seq<State>, steps: seq<Step>, i: nat)
    requires Run(states, steps) && 0 < i < |states| && Fitting(states, i - 1)
    requires steps[i - 1].EndOp? && states[i].phase.Committing?
    ensures Within(states[i]) && states[i].phase.k == 0
  {
    assert Enabled(states[i - 1], steps[i - 1]);
    CrashInvAlways(states, steps, i - 1);
    BasicAlways(states, steps, i);
    HomesNotLogged(states[i - 1]);
    assert Durable(states[i]) == Durable(states[i - 1]);
  }

  /** Its first k writes, all in the log area. */
  lemma {:induction false} CommitWrites(states: seq<State>, steps: seq<Step>, i: nat, k: nat)
    requires Run(states, steps) && i + k < |states| && Within(states[i]) && states[i].phase.k == 0
    requires k < states[i].lay.size <= |states[i].blocks| && forall j :: i <= j < i + k ==> steps[j] == CommitWrite
    ensures var s, s' := states[i], states[i + k]; Within(s') && s' == s.(disk := s'.disk, phase := Committing(s.phase.t, k))
  {
    if k > 0 {
      CommitWrites(states, steps, i, k - 1);
      assert steps[i + k - 1] == CommitWrite && Enabled(states[i + k - 1], steps[i + k - 1]);
      WithinNext(states[i + k - 1]);
    }
  }

  lemma SameContents(s: State, t: State, k: nat)
    requires Within(s) && Within(t) && t == s.(disk := t.disk, phase := t.phase) && k < |s.blocks|
    ensures s.blocks[k] < |s.disk| == |t.disk| && Durable(t) == Durable(s)
    ensures Contents(t.disk, t.pinned, s.blocks[k]) == Contents(s.disk, s.pinned, s.blocks[k])
  {
    assert Home(s.lay, s.disk, s.blocks[k]) && Home(s.lay, t.disk, s.blocks[k]);
    assert Durable(t) == Durable(s);
  }

  /** The first block without a slot is logged with what the block behind the log area holds. */
  ghost predicate Coincides(s: State) {
    && 0 < s.lay.size <= |s.blocks| && s.blocks[s.lay.size - 1] < |s.disk|
    && s.lay.start + s.lay.size < |s.disk| == |Durable(s)|
    && Contents(s.disk, s.pinned, s.blocks[s.lay.size - 1]) == Durable(s)[s.lay.start + s.lay.size]
  }

  lemma UnfitAt(s: State, t: State, k: nat)
    requires Within(s) && Within(t) && t == s.(disk := t.disk, phase := t.phase) && t.phase.k == k == s.lay.size - 1 < |s.blocks|
    requires Enabled(t, CommitWrite) && s.lay.start + s.lay.size < |s.disk|
    ensures Recoverable(Do(t, CommitWrite)) <==> Coincides(s)
  {
    PastAreaIff(t);
    SameContents(s, t, k);
  }

  /** In every run, once a commit that does not fit has written as many blocks as the log area has, header
      included, recovery gives the committed transactions if and only if the last of them happens to be what
      the block behind the area holds already. */
  lemma UnfitCommitIff(states: seq<State>, steps: seq<Step>, i: nat)
    requires Run(states, steps) && 0 < i < |states| && Fitting(states, i - 1)
    requires steps[i - 1].EndOp? && states[i].phase.Committing? && !Fits(states[i])
    requires i + states[i].lay.size < |states| && forall j :: i <= j < i + states[i].lay.size ==> steps[j] == CommitWrite
    requires states[i].lay.start + states[i].lay.size < |states[i].disk|
    ensures Recoverable(states[i + states[i].lay.size]) <==> Coincides(states[i])
  {
    var s, k := states[i], states[i].lay.size - 1;
    CommitStarts(states, steps, i);
    CommitWrites(states, steps, i, k);
    var t := states[i + k];
    assert steps[i + k] == CommitWrite && Enabled(t, steps[i + k]) && states[i + k + 1] == Do(t, CommitWrite);
    UnfitAt(s, t, k);
  }

  /** Crash safety and log.size.  Every run of operations within budget stays recoverable, and reads see every
      write in it, if and only if the log area is larger than LOGSIZE or has no slot at all. */
  lemma RecoverableIff(s0: State)
    requires Init(s0) && s0.lay.start + 2 * s0.lay.size <= |s0.disk|
    ensures (forall states, steps | FrugalRun(states, steps) && states[0] == s0 :: Recoverable(Last(states)))
            <==> LOGSIZE < s0.lay.size || s0.lay.size < 2
    ensures (forall states, steps | FrugalRun(states, steps) && states[0] == s0 && !Last(states).phase.Recovering? ::
              Sees(Last(states), Last(states).disk, Last(states).pinned))
            <==> LOGSIZE < s0.lay.size || s0.lay.size < 2
  {
    if LOGSIZE < s0.lay.size || s0.lay.size < 2 {
      forall states, steps | FrugalRun(states, steps) && states[0] == s0
        ensures Recoverable(Last(states))
        ensures !Last(states).phase.Recovering? ==> Sees(Last(states), Last(states).disk, Last(states).pinned)
      {
        FitsIf(states, steps, |states| - 1);
        RecoveryGivesWholeGroups(states, steps, |states| - 1);
        if !Last(states).phase.Recovering? { ReadsSeeEverything(states, steps, |states| - 1); }
      }
    } else {
      var states, steps := OutgrownLoses(s0);
    }
  }

  /** A machine about to boot on a zeroed disk. */
  lemma ZeroedBoots(lay: Layout, n: nat) returns (s0: State)
    requires 0 < lay.size && lay.start + lay.size <= n
    ensures Init(s0) && s0.lay == lay && |s0.disk| == n
  {
    var zero: Block := seq(WORDS, i => 0);
    var d: Disk := seq(n, i => zero);
    assert Entries(d[lay.start]) == [];
    s0 := State(lay, d, [], map[], 0, false, [], {}, Recovering(d, 0), false, false, Recovered(lay, d), [], [], map[], map[]);
  }

  /** mkfs.c's layout, on a zeroed disk: 1000 blocks, the log area from block 2 on, LOGSIZE blocks long.  Not
      every run on it stays recoverable. */
  lemma MkfsDiskLoses() returns (states: seq<State>, steps: seq<Step>)
    ensures FrugalRun(states, steps) && states[0].lay == Layout(2, LOGSIZE) && |states[0].disk| == 1000
    ensures !Recoverable(Last(states))
  {
    var s0 := ZeroedBoots(Layout(2, LOGSIZE), 1000);
    states, steps := OutgrownLoses(s0);
  }

  lemma FitsIf(states: seq<State>, steps: seq<Step>, i: nat)
    requires Run(states, steps) && i < |states| && (LOGSIZE < states[0].lay.size || states[0].lay.size < 2)
    ensures Fitting(states, i)
  {
    BasicAlways(states, steps, 0);
    forall j | 0 <= j <= i ensures Fits(states[j]) {
      MostAlways(states, steps, j);
      BasicAlways(states, steps, j);
    }
  }

  // ---- panics ----

  /** A log no larger than LOGSIZE lets three operations, each within its budget, reach the panic. */
  lemma SmallLogPanics(s0: State) returns (states: seq<State>, steps: seq<Step>)
    requires Init(s0) && s0.lay.size <= LOGSIZE && s0.lay.start + 2 * s0.lay.size <= |s0.disk|
    ensures FrugalRun(states, steps) && states[0] == s0 && Last(states).panicked
  {
    var m := s0.lay.size - 1;
    states, steps := Fill(s0, m, s0.disk[s0.lay.start]);
    assert !Due(m, 0, m % 3) && Share(m, m % 3) < MAXOPBLOCKS;
    assert |Touched(Last(states), Last(states).active[m % 3].id)| < MAXOPBLOCKS;
    states, steps := Extend(states, steps, TestWrite(m % 3));
  }

  /** Operations that log fewer than MAXOPBLOCKS different blocks before each log_write never panic in
      log_write or end_op, in any run from s0, if and only if log.size > LOGSIZE. */
  lemma NeverPanicsIff(s0: State)
    requires Init(s0) && s0.lay.start + 2 * s0.lay.size <= |s0.disk|
    ensures (forall states, steps | FrugalRun(states, steps) && states[0] == s0 :: !Last(states).panicked)
            <==> LOGSIZE < s0.lay.size
  {
    if LOGSIZE < s0.lay.size {
      forall states, steps | FrugalRun(states, steps) && states[0] == s0 ensures !Last(states).panicked {
        FrugalNeverPanics(states, steps, |states| - 1);
      }
    } else {
      var states, steps := SmallLogPanics(s0);
    }
  }

  /** With any log.size above LOGSIZE too, three operations that log MAXOPBLOCKS blocks each make the next
      log_write panic, although it is for a block that is listed already. */
  lemma AbsorbingPanics(s0: State) returns (states: seq<State>, steps: seq<Step>)
    requires Init(s0) && LOGSIZE < s0.lay.size && s0.lay.start + 2 * s0.lay.size <= |s0.disk|
    ensures DisciplinedRun(states, steps) && states[0] == s0 && Last(states).panicked
    ensures forall op :: op in Last(states).active ==> |Touched(Last(states), op.id)| <= MAXOPBLOCKS
  {
    states, steps := Fill(s0, LOGSIZE, s0.disk[s0.lay.start]);
    FrugalRunDisciplined(states, steps);
    var s, step := Last(states), TestWrite(0);
    assert !Due(LOGSIZE, 0, 0);
    var states', steps' := states + [Do(s, step)], steps + [step];
    forall i | 0 <= i < |steps'|
      ensures Enabled(states'[i], steps'[i]) && Disciplined(states'[i], steps'[i])
      ensures states'[i + 1] == Do(states'[i], steps'[i])
    {
      if i < |steps| { assert states'[i] == states[i] && steps'[i] == steps[i]; }
    }
    states, steps := states', steps';
    forall op | op in s.active ensures |Touched(Last(states), op.id)| <= MAXOPBLOCKS {
      assert Touched(Last(states), op.id) == Touched(s, op.id);
    }
  }
}
