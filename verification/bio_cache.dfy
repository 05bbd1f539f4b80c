/** The buffer cache as values: which buffer bget picks and what brelse does to the
    list of buffers. */
module BioCache {
  import opened Common

  type Block = seq<nat>

  datatype Key = Key(dev: nat, blockno: nat)

  datatype Buf = Buf(key: Key, valid: bool, dirty: bool, refcnt: nat, data: Block)

  /** The buffers, and their order from most to least recently released. */
  datatype Cache = Cache(bufs: seq<Buf>, ring: seq<nat>)

  /** ring lists each of n buffers once. */
  ghost predicate Permutation(ring: seq<nat>, n: nat) {
    && |ring| == n
    && (forall i :: 0 <= i < n ==> ring[i] < n)
    && (forall i, j :: 0 <= i < j < n ==> ring[i] != ring[j])
    && (forall b: nat :: b < n ==> b in ring)
  }

  // ---- bget ----

  /** The first position from i on, in list order, whose buffer has this key; |ring| if none. */
  function FindAt(c: Cache, key: Key, i: nat): (k: nat)
    requires i <= |c.ring| && forall j :: 0 <= j < |c.ring| ==> c.ring[j] < |c.bufs|
    ensures i <= k <= |c.ring| && (k < |c.ring| ==> c.bufs[c.ring[k]].key == key)
    ensures forall j :: i <= j < k ==> c.bufs[c.ring[j]].key != key
    decreases |c.ring| - i
  {
    if i == |c.ring| || c.bufs[c.ring[i]].key == key then i else FindAt(c, key, i + 1)
  }

  predicate Unused(b: Buf) { b.refcnt == 0 && !b.dirty }

  /** One more than the last position below i whose buffer is unused and clean; 0 if none. */
  function VictimBelow(c: Cache, i: nat): (k: nat)
    requires i <= |c.ring| && forall j :: 0 <= j < |c.ring| ==> c.ring[j] < |c.bufs|
    ensures k <= i && (k > 0 ==> Unused(c.bufs[c.ring[k - 1]])) && forall j :: k <= j < i ==> !Unused(c.bufs[c.ring[j]])
  {
    if i == 0 || Unused(c.bufs[c.ring[i - 1]]) then i else VictimBelow(c, i - 1)
  }

  function Ref(b: Buf, d: int): (r: Buf)
    requires b.refcnt + d >= 0
  {
    Buf(b.key, b.valid, b.dirty, b.refcnt + d, b.data)
  }

  /** bget's section: the buffer that has the key, or the least recently used clean one; None is the panic. */
  function Got(c: Cache, key: Key): (r: Option<(Cache, nat)>)
    requires forall j :: 0 <= j < |c.ring| ==> c.ring[j] < |c.bufs|
  {
    var k := FindAt(c, key, 0);
    if k < |c.ring| then
      var b := c.ring[k];
      Some((Cache(c.bufs[b := Ref(c.bufs[b], 1)], c.ring), b))
    else
      var v := VictimBelow(c, |c.ring|);
      if v == 0 then None
      else
        var b := c.ring[v - 1];
        Some((Cache(c.bufs[b := Buf(key, false, false, 1, c.bufs[b].data)], c.ring), b))
  }

  predicate Cached(c: Cache, key: Key) { exists b :: 0 <= b < |c.bufs| && c.bufs[b].key == key }

  /** Buffers that bget may not recycle. */
  ghost function Busy(c: Cache): (r: set<nat>) { set b: nat | b < |c.bufs| && !Unused(c.bufs[b]) }

  /** bget panics exactly when no buffer has the block and every buffer is dirty or referenced. */
  lemma GotNoneIff(c: Cache, key: Key)
    requires Permutation(c.ring, |c.bufs|)
    ensures Got(c, key).None? <==> !Cached(c, key) && forall b: nat :: b < |c.bufs| ==> b in Busy(c)
  {
    var k, v := FindAt(c, key, 0), VictimBelow(c, |c.ring|);
    forall b: nat | b < |c.bufs|
      ensures k == |c.ring| ==> c.bufs[b].key != key
      ensures v == 0 ==> b in Busy(c)
    {
      assert b in c.ring;
      var j :| 0 <= j < |c.ring| && c.ring[j] == b;
    }
    if 0 < v { assert c.ring[v - 1] !in Busy(c); }
  }

  // ---- brelse ----

  /** b moved to the front of the list. */
  function Front(ring: seq<nat>, b: nat): (r: seq<nat>)
    requires b in ring
  {
    var k := IndexOf(ring, b);
    [b] + ring[..k] + ring[k + 1..]
  }

  function IndexOf(ring: seq<nat>, b: nat): (k: nat)
    requires b in ring
    ensures k < |ring| && ring[k] == b && forall j :: 0 <= j < k ==> ring[j] != b
  {
    if ring[0] == b then 0 else 1 + IndexOf(ring[1..], b)
  }

  /** brelse's section: one reference less, and to the front if that was the last. */
  function Dropped(c: Cache, b: nat): (r: Cache)
    requires b < |c.bufs| && b in c.ring && c.bufs[b].refcnt > 0
  {
    var x := Ref(c.bufs[b], -1);
    Cache(c.bufs[b := x], if x.refcnt == 0 then Front(c.ring, b) else c.ring)
  }

  lemma FrontPermutes(ring: seq<nat>, n: nat, b: nat)
    requires Permutation(ring, n) && b in ring
    ensures Permutation(Front(ring, b), n)
  {
    var k := IndexOf(ring, b);
    var r := Front(ring, b);
    forall i {:trigger r[i]} | 0 <= i < n ensures r[i] == if i == 0 then b else if i <= k then ring[i - 1] else ring[i] {}
    forall a: nat | a < n ensures a in r {
      assert a in ring;
      var i :| 0 <= i < n && ring[i] == a;
      assert r[if i == k then 0 else if i < k then i + 1 else i] == a;
    }
  }

  /** The order of the others does not change. */
  lemma FrontKeepsOrder(ring: seq<nat>, n: nat, b: nat, x: nat, y: nat)
    requires Permutation(ring, n) && b in ring && x in ring && y in ring && x != b && y != b
    ensures x in Front(ring, b) && y in Front(ring, b) && Front(ring, b)[0] == b
    ensures IndexOf(ring, x) < IndexOf(ring, y) <==> IndexOf(Front(ring, b), x) < IndexOf(Front(ring, b), y)
  {
    FrontIndex(ring, n, b, x);
    FrontIndex(ring, n, b, y);
  }

  lemma FrontIndex(ring: seq<nat>, n: nat, b: nat, x: nat)
    requires Permutation(ring, n) && b in ring && x in ring && x != b
    ensures x in Front(ring, b)
    ensures IndexOf(Front(ring, b), x) == if IndexOf(ring, x) < IndexOf(ring, b) then IndexOf(ring, x) + 1 else IndexOf(ring, x)
  {
    FrontPermutes(ring, n, b);
    var k, i := IndexOf(ring, b), IndexOf(ring, x);
    var r := Front(ring, b);
    assert r[if i < k then i + 1 else i] == x;
  }
}
