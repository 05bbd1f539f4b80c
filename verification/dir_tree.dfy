/** Directories and link counts as values.

    An inode number names an inode; a directory holds entries (inode number, name),
    number 0 marking an empty one.  A directory counts as linked while its own
    link count is not zero. */
module DirTree {

  datatype Kind = Free | Dir | File | Dev

  datatype Dirent = Dirent(inum: nat, name: string)

  datatype Inode = Inode(kind: Kind, nlink: nat, ents: seq<Dirent>)

  datatype Fs = Fs(inodes: seq<Inode>, root: nat)

  predicate LinkedDir(fs: Fs, d: nat) { d < |fs.inodes| && fs.inodes[d].kind.Dir? && fs.inodes[d].nlink > 0 }

  /** Slot k of linked directory d names inode t, other than as ".". */
  predicate Names(fs: Fs, d: nat, k: nat, t: nat) {
    && LinkedDir(fs, d) && k < |fs.inodes[d].ents|
    && t != 0 && fs.inodes[d].ents[k].inum == t && fs.inodes[d].ents[k].name != "."
  }

  /** All the places that name t. */
  ghost function Refs(fs: Fs, t: nat): (r: set<(nat, nat)>) {
    set d: nat, k: nat | d < |fs.inodes| && k < |fs.inodes[d].ents| && Names(fs, d, k, t) :: (d, k)
  }

  lemma RefsMember(fs: Fs, t: nat, d: nat, k: nat)
    ensures (d, k) in Refs(fs, t) <==> Names(fs, d, k, t)
  {
  }

  /** Link counts are exact, and nothing names a free inode. */
  ghost predicate Counted(fs: Fs) {
    forall t: nat :: 0 < t < |fs.inodes| ==>
      fs.inodes[t].nlink == |Refs(fs, t)| && (fs.inodes[t].kind.Free? ==> fs.inodes[t].nlink == 0)
  }

  /** A linked directory starts with "." and "..", and its names are unique. */
  ghost predicate DirOk(fs: Fs, d: nat)
    requires d < |fs.inodes|
  {
    var es := fs.inodes[d].ents;
    && |es| >= 2 && es[0] == Dirent(d, ".") && es[1].name == ".." && es[1].inum != 0
    && (forall k :: 0 <= k < |es| ==> es[k].inum < |fs.inodes|)
    && (forall k :: 2 <= k < |es| && es[k].inum != 0 ==> es[k].name != "." && es[k].name != "..")
    && (forall k, m :: 0 <= k < m < |es| && es[k].inum != 0 && es[m].inum != 0 ==> es[k].name != es[m].name)
  }

  /** d is entered in p, at slot k, under a name of its own. */
  predicate Enters(fs: Fs, p: nat, k: nat, d: nat) { 2 <= k && Names(fs, p, k, d) }

  /** Every linked directory but the root is entered exactly once, in the directory its ".." names. */
  ghost predicate Entered(fs: Fs, d: nat)
    requires d < |fs.inodes| && |fs.inodes[d].ents| >= 2
  {
    if d == fs.root then fs.inodes[d].ents[1].inum == d && forall p: nat, k: nat :: !Enters(fs, p, k, d)
    else
      && (exists k: nat :: Enters(fs, fs.inodes[d].ents[1].inum, k, d))
      && (forall p: nat, k: nat, q: nat, m: nat :: Enters(fs, p, k, d) && Enters(fs, q, m, d) ==> p == q && k == m)
  }

  /** A directory that was unlinked still has its "." and "..", and nothing else. */
  predicate Emptied(es: seq<Dirent>, n: nat) {
    Bare(es) && forall k :: 0 <= k < |es| ==> es[k].inum < n && (k < 2 ==> es[k].name == "." || es[k].name == "..")
  }

  /** Every linked directory is in order and entered where it should be; unlinked ones are empty. */
  ghost predicate Shape(fs: Fs) {
    && 0 < fs.root && LinkedDir(fs, fs.root)
    && (forall d: nat {:trigger DirOk(fs, d)} {:trigger Entered(fs, d)} ::
          LinkedDir(fs, d) ==> 0 < d && DirOk(fs, d) && Entered(fs, d))
    && (forall d: nat :: d < |fs.inodes| && fs.inodes[d].kind.Dir? && fs.inodes[d].nlink == 0 ==> Emptied(fs.inodes[d].ents, |fs.inodes|))
  }

  /** The inode that ".." of d names. */
  function Parent(fs: Fs, d: nat): (p: nat) { if d < |fs.inodes| && |fs.inodes[d].ents| >= 2 then fs.inodes[d].ents[1].inum else d }

  /** d is one step further from the root than the directory its ".." names. */
  predicate Below(fs: Fs, depth: map<nat, nat>, d: nat) {
    d in depth && (d != fs.root ==> Parent(fs, d) in depth && LinkedDir(fs, Parent(fs, d)) && depth[d] == depth[Parent(fs, d)] + 1)
  }

  /** `depth` counts the steps along ".." to the root. */
  ghost predicate Deep(fs: Fs, depth: map<nat, nat>) {
    && fs.root in depth && depth[fs.root] == 0
    && forall d: nat {:trigger Below(fs, depth, d)} :: LinkedDir(fs, d) ==> Below(fs, depth, d)
  }

  /** The linked directories form a tree: entered once each, and all below the root. */
  ghost predicate Tree(fs: Fs) { Shape(fs) && exists depth :: Deep(fs, depth) }

  ghost predicate Good(fs: Fs) { Tree(fs) && Counted(fs) }

  /** n steps along "..". */
  function Above(fs: Fs, d: nat, n: nat): (a: nat)
    decreases n
  {
    if n == 0 then d else Above(fs, Parent(fs, d), n - 1)
  }

  /** From every linked directory, ".." leads to the root, through linked directories. */
  lemma {:induction false} ReachesRoot(fs: Fs, depth: map<nat, nat>, d: nat)
    requires Deep(fs, depth) && LinkedDir(fs, d)
    ensures d in depth && Above(fs, d, depth[d]) == fs.root
    ensures forall n: nat :: n <= depth[d] ==> LinkedDir(fs, Above(fs, d, n))
    decreases if d in depth then depth[d] else 0
  {
    assert Below(fs, depth, d);
    if d != fs.root {
      var p := Parent(fs, d);
      ReachesRoot(fs, depth, p);
      forall n: nat | n <= depth[d] ensures LinkedDir(fs, Above(fs, d, n)) {
        if n > 0 { assert Above(fs, d, n) == Above(fs, p, n - 1); }
      }
    }
  }

  /** The same directories, or fewer, with the same "..". */
  ghost predicate SameParents(fs: Fs, g: Fs) {
    g.root == fs.root && forall d: nat {:trigger Parent(g, d)} :: LinkedDir(g, d) ==> LinkedDir(fs, d) && Parent(g, d) == Parent(fs, d)
  }

  ghost predicate SameParentsBut(fs: Fs, g: Fs, i: nat) {
    && g.root == fs.root
    && forall d: nat {:trigger Parent(g, d)} :: LinkedDir(g, d) && d != i ==> LinkedDir(fs, d) && Parent(g, d) == Parent(fs, d)
  }

  lemma TreeStays(fs: Fs, g: Fs)
    requires Tree(fs) && Shape(g) && SameParents(fs, g)
    ensures Tree(g)
  {
    var depth :| Deep(fs, depth);
    forall d: nat | LinkedDir(g, d) ensures Below(g, depth, d) {
      assert Parent(g, d) == Parent(fs, d) && Below(fs, depth, d);
      if d != g.root { ParentLinked(g, d); }
    }
    assert Deep(g, depth);
  }

  lemma ParentLinked(g: Fs, d: nat)
    requires Shape(g) && LinkedDir(g, d) && d != g.root
    ensures LinkedDir(g, Parent(g, d))
  {
    assert DirOk(g, d) && Entered(g, d);
    var k: nat :| Enters(g, g.inodes[d].ents[1].inum, k, d);
  }

  /** One more directory, i, below dp. */
  lemma TreeGrows(fs: Fs, g: Fs, i: nat, dp: nat)
    requires Tree(fs) && Shape(g) && LinkedDir(fs, dp) && !LinkedDir(fs, i) && Parent(g, i) == dp && SameParentsBut(fs, g, i)
    ensures Tree(g)
  {
    var depth :| Deep(fs, depth);
    assert Below(fs, depth, dp);
    var deeper := depth[i := depth[dp] + 1];
    forall d: nat | LinkedDir(g, d) ensures Below(g, deeper, d) {
      if d != g.root { ParentLinked(g, d); }
      if d != i { assert Parent(g, d) == Parent(fs, d) && Below(fs, depth, d); }
    }
    assert Deep(g, deeper);
  }

  // ---- dirlookup and dirlink ----

  /** The slot of a name from k on, or |es|. */
  function NameAt(es: seq<Dirent>, name: string, k: nat): (r: nat)
    requires k <= |es|
    ensures k <= r <= |es| && (r < |es| ==> es[r].inum != 0 && es[r].name == name)
    ensures forall i :: k <= i < r ==> es[i].inum == 0 || es[i].name != name
    decreases |es| - k
  {
    if k == |es| || (es[k].inum != 0 && es[k].name == name) then k else NameAt(es, name, k + 1)
  }

  /** The first empty slot from k on, or |es|. */
  function EmptyAt(es: seq<Dirent>, k: nat): (r: nat)
    requires k <= |es|
    ensures k <= r <= |es| && (r < |es| ==> es[r].inum == 0) && forall i :: k <= i < r ==> es[i].inum != 0
    decreases |es| - k
  {
    if k == |es| || es[k].inum == 0 then k else EmptyAt(es, k + 1)
  }

  predicate Present(es: seq<Dirent>, name: string) { NameAt(es, name, 0) < |es| }

  /** dirlink's write: the first empty slot, or one more at the end. */
  function Added(es: seq<Dirent>, name: string, inum: nat): (r: seq<Dirent>)
    ensures var k := EmptyAt(es, 0);
      |r| == (if k < |es| then |es| else |es| + 1) && r[k] == Dirent(inum, name)
      && forall i :: 0 <= i < |es| && i != k ==> r[i] == es[i]
  {
    var k := EmptyAt(es, 0);
    if k < |es| then es[k := Dirent(inum, name)] else es + [Dirent(inum, name)]
  }

  /** isdirempty: nothing beyond "." and "..". */
  predicate Bare(es: seq<Dirent>) { forall k :: 2 <= k < |es| ==> es[k].inum == 0 }

  // ---- changing the file system ----

  function Put(fs: Fs, i: nat, x: Inode): (g: Fs)
    requires i < |fs.inodes|
  {
    Fs(fs.inodes[i := x], fs.root)
  }

  /** dirlink(dp, name, inum), when the name is not there. */
  function WithEntry(fs: Fs, dp: nat, name: string, inum: nat): (g: Fs)
    requires dp < |fs.inodes|
  {
    var x := fs.inodes[dp];
    Put(fs, dp, Inode(x.kind, x.nlink, Added(x.ents, name, inum)))
  }

  function WithNlink(fs: Fs, i: nat, n: nat): (g: Fs)
    requires i < |fs.inodes|
  {
    Put(fs, i, Inode(fs.inodes[i].kind, n, fs.inodes[i].ents))
  }

  /** sys_link, once it has found ip, dp and that the name is new. */
  function LinkedIn(fs: Fs, ip: nat, dp: nat, name: string): (g: Fs)
    requires ip < |fs.inodes| && dp < |fs.inodes|
  {
    WithEntry(WithNlink(fs, ip, fs.inodes[ip].nlink + 1), dp, name, ip)
  }

  function Dots(i: nat, dp: nat): (es: seq<Dirent>) { [Dirent(i, "."), Dirent(dp, "..")] }

  /** create's new inode, before it is entered in dp; a directory also counts in dp for its "..". */
  function Born(fs: Fs, i: nat, dp: nat, kind: Kind): (g: Fs)
    requires i < |fs.inodes| && dp < |fs.inodes|
  {
    if kind.Dir? then Put(WithNlink(fs, dp, fs.inodes[dp].nlink + 1), i, Inode(kind, 1, Dots(i, dp)))
    else Put(fs, i, Inode(kind, 1, []))
  }

  /** create, once it has found dp, that the name is new, and a free inode i. */
  function Created(fs: Fs, i: nat, dp: nat, name: string, kind: Kind): (g: Fs)
    requires i < |fs.inodes| && dp < |fs.inodes|
  {
    WithEntry(Born(fs, i, dp, kind), dp, name, i)
  }

  /** sys_unlink of slot k of dp, which names ip. */
  function Unlinked(fs: Fs, dp: nat, k: nat, ip: nat): (g: Fs)
    requires dp < |fs.inodes| && k < |fs.inodes[dp].ents| && ip < |fs.inodes| && fs.inodes[ip].nlink > 0
    requires fs.inodes[ip].kind.Dir? ==> fs.inodes[dp].nlink > 0 && ip != dp
  {
    var x := fs.inodes[dp];
    var n := if fs.inodes[ip].kind.Dir? then x.nlink - 1 else x.nlink;
    var g := Put(fs, dp, Inode(x.kind, n, x.ents[k := Dirent(0, "")]));
    WithNlink(g, ip, fs.inodes[ip].nlink - 1)
  }

  /** The last iput of an unlinked inode: itrunc and type 0. */
  function Reclaimed(fs: Fs, i: nat): (g: Fs)
    requires i < |fs.inodes|
  {
    Put(fs, i, Inode(Free, 0, []))
  }

  // ---- what each change does to the names ----

  /** Exactly one more place names something: slot k of dp names t. */
  ghost predicate OneMore(fs: Fs, g: Fs, dp: nat, k: nat, t: nat) {
    && !Names(fs, dp, k, t)
    && forall d: nat, m: nat, u: nat :: Names(g, d, m, u) <==> Names(fs, d, m, u) || (d == dp && m == k && u == t)
  }

  /** The same places name the same things. */
  ghost predicate SameNames(fs: Fs, g: Fs) { forall d: nat, m: nat, u: nat :: Names(g, d, m, u) <==> Names(fs, d, m, u) }

  lemma OneMoreRefs(fs: Fs, g: Fs, dp: nat, k: nat, t: nat, u: nat)
    requires OneMore(fs, g, dp, k, t)
    ensures |Refs(g, u)| == |Refs(fs, u)| + if u == t then 1 else 0
  {
    forall d: nat, m: nat ensures (d, m) in Refs(g, u) <==> Names(g, d, m, u) { RefsMember(g, u, d, m); }
    forall d: nat, m: nat ensures (d, m) in Refs(fs, u) <==> Names(fs, d, m, u) { RefsMember(fs, u, d, m); }
    if u == t {
      assert Refs(g, u) == Refs(fs, u) + {(dp, k)};
    } else {
      assert Refs(g, u) == Refs(fs, u);
    }
  }

  lemma SameNamesRefs(fs: Fs, g: Fs, u: nat)
    requires SameNames(fs, g)
    ensures Refs(g, u) == Refs(fs, u)
  {
    forall d: nat, m: nat ensures (d, m) in Refs(g, u) <==> (d, m) in Refs(fs, u) {
      RefsMember(g, u, d, m);
      RefsMember(fs, u, d, m);
    }
  }

  /** Where dirlink puts an entry nothing was named before. */
  lemma EntryNames(fs: Fs, dp: nat, name: string, t: nat)
    requires LinkedDir(fs, dp) && t != 0 && name != "."
    ensures OneMore(fs, WithEntry(fs, dp, name, t), dp, EmptyAt(fs.inodes[dp].ents, 0), t)
  {
  }
}
