/** What the file layer promises is what the log relies on. */
module FsLog {
  import FsCode
  import FsCalls
  import LogProtocol
  import LogGroups
  import LogCapacity
  import opened Common

  /** The blocks of an operation's log_writes so far, in order. */
  ghost function Blocks(events: seq<LogProtocol.Event>): (r: seq<nat>) {
    seq(|events|, i requires 0 <= i < |events| => events[i].b)
  }

  /** An operation that makes the log_writes of a transaction of filewrite, one after the other, is frugal at
      each of them. */
  lemma ModestIsFrugal(s: LogProtocol.State, i: nat, calls: seq<nat>, k: nat)
    requires FsCalls.Modest(calls) && k < |calls| && i < |s.active|
    requires Blocks(LogProtocol.Issued(s, s.active[i].id)) == calls[..k]
    ensures LogGroups.Frugal(s, LogProtocol.TestWrite(i))
  {
    var events := LogProtocol.Issued(s, s.active[i].id);
    var touched := LogGroups.Touched(s, s.active[i].id);
    forall b ensures b in touched <==> b in FsCode.BlocksOf(calls[..k]) {
      if b in touched {
        var e :| e in events && e.b == b;
        var j :| 0 <= j < |events| && events[j] == e;
        assert Blocks(events)[j] == b;
      }
      if b in calls[..k] {
        var j :| 0 <= j < k && calls[..k][j] == b;
        assert events[j].b == b;
      }
    }
    assert touched == FsCode.BlocksOf(calls[..k]) - {};
  }

  /** So filewrite never panics in log_write when its operations are all there are and the log area is larger
      than LOGSIZE: a step of such an operation extends a frugal run to a frugal run. */
  lemma ModestGoesOn(states: seq<LogProtocol.State>, steps: seq<LogProtocol.Step>, i: nat, calls: seq<nat>, k: nat)
    requires LogGroups.FrugalRun(states, steps) && LOGSIZE < states[0].lay.size
    requires var s := states[|states| - 1];
      && LogProtocol.Enabled(s, LogProtocol.TestWrite(i)) && FsCalls.Modest(calls) && k < |calls|
      && Blocks(LogProtocol.Issued(s, s.active[i].id)) == calls[..k]
    ensures !LogProtocol.Do(states[|states| - 1], LogProtocol.TestWrite(i)).panicked
  {
    var s, step := states[|states| - 1], LogProtocol.TestWrite(i);
    ModestIsFrugal(s, i, calls, k);
    var states', steps' := LogCapacity.Extend(states, steps, step);
    LogGroups.FrugalNeverPanics(states', steps', |states'| - 1);
  }
}
