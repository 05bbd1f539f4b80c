/** Callers that log one block each and release it fill the buffer cache with dirty
    buffers. */
module BioFull {
  import opened Common
  import opened BioCache
  import opened BioRuns

  ghost function Last(trace: seq<State>): (s: State)
    requires trace != []
  {
    trace[|trace| - 1]
  }

  lemma Extend(trace: seq<State>, steps: seq<Step>, step: Step) returns (trace': seq<State>, steps': seq<Step>)
    requires Behaviour(trace, steps) && Enabled(Last(trace), step)
    ensures Behaviour(trace', steps') && trace'[0] == trace[0] && Last(trace') == Do(Last(trace), step)
  {
    trace', steps' := trace + [Do(Last(trace), step)], steps + [step];
    forall i | 0 <= i < |steps'| ensures Enabled(trace'[i], steps'[i]) && trace'[i + 1] == Do(trace'[i], steps'[i]) {
      if i < |steps| { assert trace'[i] == trace[i] && steps'[i] == steps[i]; }
    }
  }

  ghost function Dirty(c: Cache): (r: set<nat>) { set b: nat | b < |c.bufs| && c.bufs[b].dirty }

  /** Nobody is at work; the first j blocks are dirty in one buffer each. */
  ghost predicate Holds(s: State, dev: nat, blocks: seq<nat>, j: nat) {
    s.handles == map[] && s.locks == map[] && j <= |blocks| && Full(s.cache, dev, blocks, j)
  }

  ghost predicate Full(c: Cache, dev: nat, blocks: seq<nat>, j: nat)
    requires j <= |blocks|
  {
    && |Dirty(c)| == j && (forall b: nat :: b < |c.bufs| ==> Right(c.bufs[b], dev, blocks[..j]))
    && (forall i :: 0 <= i < j ==> Cached(c, Key(dev, blocks[i])))
  }

  /** Unreferenced, and either dirty with one of the blocks or without a block. */
  predicate Right(x: Buf, dev: nat, blocks: seq<nat>) {
    x.refcnt == 0 && if x.dirty then x.key.dev == dev && x.key.blockno in blocks else x.key.dev == 0
  }

  /** Handle 0 alone is at work, on buffer b. */
  ghost predicate Busied(s0: State, s: State, key: Key, b: nat, stage: Stage, x: Buf) {
    && b < |s0.cache.bufs| && s.cache == Cache(s0.cache.bufs[b := x], s0.cache.ring) && s.disk == s0.disk
    && s.handles == map[0 := Handle(key, b, stage, false)] && s.locks == if stage.Holding? then map[b := 0] else map[]
  }

  /** bget of a block that is not cached. */
  lemma GetFresh(trace: seq<State>, steps: seq<Step>, key: Key) returns (trace': seq<State>, steps': seq<Step>, b: nat, d: Block)
    requires Behaviour(trace, steps)
    requires var s := Last(trace);
      && Permutation(s.cache.ring, |s.cache.bufs|) && s.handles == map[] && s.locks == map[]
      && key.dev != 0 && key in s.disk && !Cached(s.cache, key) && Got(s.cache, key).Some?
    ensures Behaviour(trace', steps') && trace'[0] == trace[0]
    ensures var s := Last(trace);
      b < |s.cache.bufs| && Unused(s.cache.bufs[b]) && Busied(s, Last(trace'), key, b, Waiting, Buf(key, false, false, 1, d))
  {
    var s := Last(trace);
    assert FindAt(s.cache, key, 0) == |s.cache.ring|;
    b := Got(s.cache, key).value.1;
    d := s.cache.bufs[b].data;
    trace', steps' := Extend(trace, steps, Get(0, key));
  }

  /** bread of a block that is not cached. */
  lemma Bread(trace: seq<State>, steps: seq<Step>, key: Key) returns (trace': seq<State>, steps': seq<Step>, b: nat)
    requires Behaviour(trace, steps)
    requires var s := Last(trace);
      && Permutation(s.cache.ring, |s.cache.bufs|) && s.handles == map[] && s.locks == map[]
      && key.dev != 0 && key in s.disk && !Cached(s.cache, key) && Got(s.cache, key).Some?
    ensures Behaviour(trace', steps') && trace'[0] == trace[0]
    ensures var s := Last(trace);
      && b < |s.cache.bufs| && Unused(s.cache.bufs[b]) && key in s.disk
      && Busied(s, Last(trace'), key, b, Holding, Buf(key, true, false, 1, s.disk[key]))
  {
    var s, old_ := Last(trace), [];
    trace', steps', b, old_ := GetFresh(trace, steps, key);
    trace', steps' := Extend(trace', steps', Acquire(0));
    assert Busied(s, Last(trace'), key, b, Holding, Buf(key, false, false, 1, old_));
    trace', steps' := Extend(trace', steps', Fill(0));
  }

  /** log_write and brelse. */
  lemma LogAndRelease(trace: seq<State>, steps: seq<Step>, s: State, key: Key, b: nat, d: Block)
      returns (trace': seq<State>, steps': seq<Step>)
    requires Behaviour(trace, steps) && Permutation(s.cache.ring, |s.cache.bufs|)
    requires Busied(s, Last(trace), key, b, Holding, Buf(key, true, false, 1, d))
    ensures Behaviour(trace', steps') && trace'[0] == trace[0]
    ensures var s' := Last(trace');
      s'.disk == s.disk && s'.handles == map[] && s'.locks == map[] && s'.cache.bufs == s.cache.bufs[b := Buf(key, true, true, 0, d)]
  {
    trace', steps' := Extend(trace, steps, LogWrite(0));
    assert Busied(s, Last(trace'), key, b, Holding, Buf(key, true, true, 1, d));
    trace', steps' := Extend(trace', steps', Unlock(0));
    assert Busied(s, Last(trace'), key, b, Leaving, Buf(key, true, true, 1, d));
    assert b in s.cache.ring;
    trace', steps' := Extend(trace', steps', Drop(0));
  }

  lemma SpareBuffer(c: Cache, dev: nat, blocks: seq<nat>, j: nat)
    requires j <= |blocks| && Full(c, dev, blocks, j) && j < |c.bufs|
    ensures exists b: nat :: b < |c.bufs| && b !in Busy(c)
  {
    RangeSize(0, |c.bufs|);
    if forall x :: x in Range(0, |c.bufs|) ==> x in Dirty(c) { SubsetSize(Range(0, |c.bufs|), Dirty(c)); }
    var b: nat :| b in Range(0, |c.bufs|) && b !in Dirty(c);
    assert Right(c.bufs[b], dev, blocks[..j]) && b !in Busy(c);
  }

  lemma RightMore(x: Buf, dev: nat, blocks: seq<nat>, j: nat)
    requires j < |blocks| && Right(x, dev, blocks[..j])
    ensures Right(x, dev, blocks[..j + 1])
  {
    assert blocks[..j + 1] == blocks[..j] + [blocks[j]];
  }

  lemma NextFull(c: Cache, c': Cache, dev: nat, blocks: seq<nat>, j: nat, b: nat, d: Block)
    requires j < |blocks| && Full(c, dev, blocks, j) && b < |c.bufs| && Unused(c.bufs[b]) && dev != 0
    requires c'.bufs == c.bufs[b := Buf(Key(dev, blocks[j]), true, true, 0, d)]
    ensures Full(c', dev, blocks, j + 1)
  {
    assert Dirty(c') == Dirty(c) + {b};
    forall a: nat | a < |c'.bufs| ensures Right(c'.bufs[a], dev, blocks[..j + 1]) {
      if a != b { RightMore(c.bufs[a], dev, blocks, j); } else { assert blocks[..j + 1][j] == blocks[j]; }
    }
    forall i | 0 <= i < j + 1 ensures Cached(c', Key(dev, blocks[i])) {
      if i < j { StillCached(c, c', dev, blocks, j, b, i); } else { assert c'.bufs[b].key == Key(dev, blocks[i]); }
    }
  }

  lemma StillCached(c: Cache, c': Cache, dev: nat, blocks: seq<nat>, j: nat, b: nat, i: nat)
    requires i < j < |blocks| && Full(c, dev, blocks, j) && b < |c.bufs| && Unused(c.bufs[b]) && dev != 0
    requires |c'.bufs| == |c.bufs| && forall a :: 0 <= a < |c.bufs| && a != b ==> c'.bufs[a] == c.bufs[a]
    ensures Cached(c', Key(dev, blocks[i]))
  {
    assert Cached(c, Key(dev, blocks[i]));
    var a: nat :| a < |c.bufs| && c.bufs[a].key == Key(dev, blocks[i]);
    assert Right(c.bufs[b], dev, blocks[..j]) && Right(c.bufs[a], dev, blocks[..j]);
    assert c'.bufs[a].key == Key(dev, blocks[i]);
  }

  /** From an empty cache with a buffer for each block: all of them dirty, none in use. */
  lemma AllLogged(s0: State, dev: nat, blocks: seq<nat>) returns (trace: seq<State>, steps: seq<Step>)
    requires Init(s0) && dev != 0 && Distinct(blocks) && |blocks| <= |s0.cache.bufs|
    requires forall i :: 0 <= i < |blocks| ==> Key(dev, blocks[i]) in s0.disk
    ensures Behaviour(trace, steps) && trace[0] == s0 && Holds(Last(trace), dev, blocks, |blocks|)
    ensures |Last(trace).cache.bufs| == |s0.cache.bufs|
  {
    trace, steps := [s0], [];
    assert Dirty(s0.cache) == {};
    var j := 0;
    while j < |blocks|
      invariant 0 <= j <= |blocks| && Behaviour(trace, steps) && trace[0] == s0 && Holds(Last(trace), dev, blocks, j)
      invariant |Last(trace).cache.bufs| == |s0.cache.bufs| && Last(trace).disk == s0.disk
    {
      trace, steps := LogNext(trace, steps, dev, blocks, j);
      j := j + 1;
    }
  }

  lemma LogNext(trace: seq<State>, steps: seq<Step>, dev: nat, blocks: seq<nat>, j: nat)
      returns (trace': seq<State>, steps': seq<Step>)
    requires Behaviour(trace, steps) && Holds(Last(trace), dev, blocks, j)
    requires dev != 0 && Distinct(blocks) && j < |blocks| <= |Last(trace).cache.bufs| && Key(dev, blocks[j]) in Last(trace).disk
    ensures Behaviour(trace', steps') && trace'[0] == trace[0] && Holds(Last(trace'), dev, blocks, j + 1)
    ensures |Last(trace').cache.bufs| == |Last(trace).cache.bufs| && Last(trace').disk == Last(trace).disk
  {
    var s, key := Last(trace), Key(dev, blocks[j]);
    assert Permutation(s.cache.ring, |s.cache.bufs|) by { InvAlways(trace, steps, |steps|); }
    NotYet(s.cache, dev, blocks, j);
    SpareBuffer(s.cache, dev, blocks, j);
    GotNoneIff(s.cache, key);
    var b;
    trace', steps', b := Bread(trace, steps, key);
    trace', steps' := LogAndRelease(trace', steps', s, key, b, s.disk[key]);
    NextFull(s.cache, Last(trace').cache, dev, blocks, j, b, s.disk[key]);
  }

  lemma NotYet(c: Cache, dev: nat, blocks: seq<nat>, j: nat)
    requires j < |blocks| && Full(c, dev, blocks, j) && Distinct(blocks) && dev != 0
    ensures !Cached(c, Key(dev, blocks[j]))
  {
    assert blocks[j] !in blocks[..j];
    forall b: nat | b < |c.bufs| ensures c.bufs[b].key != Key(dev, blocks[j]) { assert Right(c.bufs[b], dev, blocks[..j]); }
  }
}
