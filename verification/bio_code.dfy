/** bio.c's list of buffers as it is: nodes linked both ways around a head. */
module BioCode {
  import opened Common
  import opened BioCache

  /** Position i of the ring: the head stands before the first buffer and after the last. */
  function El(list: seq<nat>, head: nat, i: int): (b: nat) { if 0 <= i < |list| then list[i] else head }

  /** Positions i and i + 1 point at each other. */
  ghost predicate LinkAt(next: seq<nat>, prev: seq<nat>, head: nat, list: seq<nat>, i: int) {
    var a, b := El(list, head, i), El(list, head, i + 1);
    a < |next| && b < |prev| && next[a] == b && prev[b] == a
  }

  /** Both ways around, the links go through the head and the buffers of the list in order. */
  ghost predicate Linked(next: seq<nat>, prev: seq<nat>, head: nat, list: seq<nat>) {
    && head < |next| == |prev|
    && (forall i :: 0 <= i < |list| ==> list[i] < head)
    && (forall i, j :: 0 <= i < j < |list| ==> list[i] != list[j])
    && (forall i {:trigger LinkAt(next, prev, head, list, i)} :: -1 <= i < |list| ==> LinkAt(next, prev, head, list, i))
  }

  function Removed(list: seq<nat>, k: nat): (r: seq<nat>)
    requires k < |list|
    ensures |r| == |list| - 1 && forall i {:trigger r[i]} :: 0 <= i < |r| ==> r[i] == list[if i < k then i else i + 1]
  {
    list[..k] + list[k + 1..]
  }

  lemma Unlink(next: seq<nat>, prev: seq<nat>, head: nat, list: seq<nat>, k: nat)
    requires Linked(next, prev, head, list) && k < |list|
    ensures list[k] < head && next[list[k]] < |next| && prev[list[k]] < |prev|
    ensures var b := list[k]; Linked(next[prev[b] := next[b]], prev[next[b] := prev[b]], head, Removed(list, k))
  {
    var b := list[k];
    var r := Removed(list, k);
    assert LinkAt(next, prev, head, list, k - 1) && LinkAt(next, prev, head, list, k);
    var p, n := prev[b], next[b];
    var next', prev' := next[p := n], prev[n := p];
    forall i | -1 <= i < |r| ensures LinkAt(next', prev', head, r, i) {
      if i < k - 1 {
        assert LinkAt(next, prev, head, list, i);
      } else if i > k - 1 {
        assert LinkAt(next, prev, head, list, i + 1);
      }
    }
  }

  lemma PushFront(next: seq<nat>, prev: seq<nat>, head: nat, list: seq<nat>, b: nat)
    requires Linked(next, prev, head, list) && b < head && b !in list
    ensures next[head] < |prev|
    ensures Linked(next[b := next[head]][head := b], prev[b := head][next[head] := b], head, [b] + list)
  {
    var r := [b] + list;
    assert LinkAt(next, prev, head, list, -1);
    var f := next[head];
    var next', prev' := next[b := f][head := b], prev[b := head][f := b];
    forall i | -1 <= i < |r| ensures LinkAt(next', prev', head, r, i) {
      if i > 0 { assert LinkAt(next, prev, head, list, i - 1); }
    }
  }

  class Bcache {
    const buf: array<Buf>
    const next: array<nat>      // the last entry of next and prev is the head's
    const prev: array<nat>
    ghost var ring: seq<nat>

    ghost predicate Valid()
      reads this, buf, next, prev
    {
      && next != prev && next.Length == prev.Length == buf.Length + 1
      && Linked(next[..], prev[..], buf.Length, ring) && Permutation(ring, buf.Length)
    }

    ghost function C(): (c: Cache)
      reads this, buf
    {
      Cache(buf[..], ring)
    }

    /** binit: every buffer pushed to the front of an empty list; all name device 0, block 0. */
    constructor (n: nat)
      ensures Valid() && fresh(buf) && fresh(next) && fresh(prev) && buf.Length == n
      ensures forall b :: 0 <= b < n ==> buf[b] == Buf(Key(0, 0), false, false, 0, [])
      ensures forall i :: 0 <= i < n ==> ring[i] == n - 1 - i
    {
      buf := new Buf[n](i => Buf(Key(0, 0), false, false, 0, []));
      next := new nat[n + 1](i => n);
      prev := new nat[n + 1](i => n);
      ring := [];
      new;
      var b := 0;
      assert LinkAt(next[..], prev[..], n, [], -1);
      while b < n
        invariant 0 <= b <= n && next.Length == prev.Length == n + 1 && buf.Length == n
        invariant Linked(next[..], prev[..], n, ring) && |ring| == b
        invariant forall i :: 0 <= i < b ==> ring[i] == b - 1 - i
        invariant forall i :: 0 <= i < n ==> buf[i] == Buf(Key(0, 0), false, false, 0, [])
      {
        Push(b);
        b := b + 1;
      }
      forall b: nat | b < n ensures b in ring { assert ring[n - 1 - b] == b; }
    }

    /** The four assignments that put b after the head. */
    method Push(b: nat)
      requires next != prev && next.Length == prev.Length == buf.Length + 1 && b < buf.Length && b !in ring
      requires Linked(next[..], prev[..], buf.Length, ring)
      modifies this`ring, next, prev
      ensures Linked(next[..], prev[..], buf.Length, ring) && ring == [b] + old(ring)
    {
      var head: nat := buf.Length;
      PushFront(next[..], prev[..], head, ring, b);
      ghost var n0: seq<nat>, p0: seq<nat> := next[..], prev[..];
      var f := next[head];
      next[b] := f;
      prev[b] := head;
      prev[f] := b;
      next[head] := b;
      ring := [b] + ring;
      assert next[..] == n0[b := f][head := b] && prev[..] == p0[b := head][f := b];
    }

    /** brelse's six assignments: b unlinked and put after the head. */
    method MoveToFront(b: nat)
      requires Valid() && b < buf.Length
      modifies this`ring, next, prev
      ensures Valid() && ring == Front(old(ring), b)
    {
      ghost var k := IndexOf(ring, b);
      FrontPermutes(ring, buf.Length, b);
      Unlink(next[..], prev[..], buf.Length, ring, k);
      ghost var n0: seq<nat>, p0: seq<nat> := next[..], prev[..];
      var n, p := next[b], prev[b];
      prev[n] := p;
      next[p] := n;
      assert next[..] == n0[p := n] && prev[..] == p0[n := p];
      ring := Removed(ring, k);
      Push(b);
    }

    /** bget's first loop. */
    method Find(key: Key) returns (b: nat)
      requires Valid()
      ensures var k := FindAt(C(), key, 0); b == if k < |ring| then ring[k] else buf.Length
    {
      var head: nat := buf.Length;
      ghost var i: nat := 0;
      assert LinkAt(next[..], prev[..], head, ring, -1);
      b := next[head];
      while b != head
        invariant i <= |ring| && b == El(ring, head, i) && FindAt(C(), key, 0) == FindAt(C(), key, i)
        decreases |ring| - i
      {
        if buf[b].key == key { return; }
        assert LinkAt(next[..], prev[..], head, ring, i);
        b, i := next[b], i + 1;
      }
    }

    /** bget's second loop, from the other end. */
    method FindVictim() returns (b: nat)
      requires Valid()
      ensures var v := VictimBelow(C(), |ring|); b == if v > 0 then ring[v - 1] else buf.Length
    {
      var head: nat := buf.Length;
      ghost var i: int := |ring| - 1;
      assert LinkAt(next[..], prev[..], head, ring, i);
      b := prev[head];
      while b != head
        invariant -1 <= i < |ring| && b == El(ring, head, i) && VictimBelow(C(), |ring|) == VictimBelow(C(), i + 1)
        decreases i
      {
        assert b == ring[i];
        if buf[b].refcnt == 0 && !buf[b].dirty { return; }
        assert LinkAt(next[..], prev[..], head, ring, i - 1);
        b, i := prev[b], i - 1;
      }
    }

    /** bget, up to the sleep lock. */
    method Bget(key: Key) returns (r: Option<nat>)
      requires Valid()
      modifies buf
      ensures Valid() && r.Some? == old(Got(C(), key)).Some?
      ensures r.Some? ==> (C(), r.value) == old(Got(C(), key)).value
      ensures r.None? ==> C() == old(C())
    {
      var b := Find(key);
      if b != buf.Length {
        buf[b] := Ref(buf[b], 1);
        return Some(b);
      }
      b := FindVictim();
      if b == buf.Length { return None; }
      buf[b] := Buf(key, false, false, 1, buf[b].data);
      return Some(b);
    }

    /** brelse, after the sleep lock. */
    method Brelse(b: nat)
      requires Valid() && b < buf.Length && buf[b].refcnt > 0
      modifies this`ring, buf, next, prev
      ensures Valid() && C() == Dropped(old(C()), b)
    {
      buf[b] := Ref(buf[b], -1);
      if buf[b].refcnt == 0 {
        MoveToFront(b);
      }
    }
  }
}
