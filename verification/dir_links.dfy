/** link, create and unlink keep link counts exact and the directories a tree. */
module DirLinks {
  import opened DirTree

  /** A name that is not in a linked directory is not "." or "..", and dirlink keeps the directory in order. */
  lemma AddedDirOk(fs: Fs, g: Fs, dp: nat, name: string, t: nat)
    requires 0 < dp < |fs.inodes| == |g.inodes| && DirOk(fs, dp) && !Present(fs.inodes[dp].ents, name) && 0 < t < |fs.inodes|
    requires g.inodes[dp].ents == Added(fs.inodes[dp].ents, name, t)
    ensures DirOk(g, dp) && EmptyAt(fs.inodes[dp].ents, 0) >= 2 && name != "." && name != ".."
    ensures g.inodes[dp].ents[1] == fs.inodes[dp].ents[1]
  {
    var es := fs.inodes[dp].ents;
    assert es[0].name == "." && es[1].name == "..";
  }

  /** The directories stay a tree when linked directories, their dots and their entries do. */
  lemma TreeKept(fs: Fs, g: Fs)
    requires Shape(fs) && |g.inodes| == |fs.inodes| && g.root == fs.root
    requires forall d: nat :: LinkedDir(g, d) <==> LinkedDir(fs, d)
    requires forall d: nat :: LinkedDir(g, d) ==> DirOk(g, d) && DirOk(fs, d) && g.inodes[d].ents[1] == fs.inodes[d].ents[1]
    requires forall d: nat, p: nat, k: nat :: LinkedDir(fs, d) ==> (Enters(g, p, k, d) <==> Enters(fs, p, k, d))
    requires forall d: nat :: d < |g.inodes| && g.inodes[d].kind.Dir? && g.inodes[d].nlink == 0 ==> Emptied(g.inodes[d].ents, |g.inodes|)
    ensures Shape(g) && SameParents(fs, g)
  {
    forall d: nat | LinkedDir(g, d) ensures 0 < d && Entered(g, d) {
      assert LinkedDir(fs, d) && DirOk(fs, d) && Entered(fs, d);
      if d != fs.root {
        var k: nat :| Enters(fs, fs.inodes[d].ents[1].inum, k, d);
        assert Enters(g, g.inodes[d].ents[1].inum, k, d);
      }
    }
  }

  // ---- link ----

  lemma LinkNames(fs: Fs, ip: nat, dp: nat, name: string)
    requires LinkedDir(fs, dp) && 0 < ip < |fs.inodes| && !fs.inodes[ip].kind.Dir? && name != "."
    ensures OneMore(fs, LinkedIn(fs, ip, dp, name), dp, EmptyAt(fs.inodes[dp].ents, 0), ip)
  {
    var g := WithNlink(fs, ip, fs.inodes[ip].nlink + 1);
    assert SameNames(fs, g);
    EntryNames(g, dp, name, ip);
  }

  /** Everything but the entry named `name` in dp, and link counts that stay positive, is as before. */
  ghost predicate SameBut(fs: Fs, g: Fs, dp: nat, name: string, t: nat)
    requires dp < |fs.inodes|
  {
    && |g.inodes| == |fs.inodes| && g.root == fs.root
    && (forall d: nat :: LinkedDir(g, d) <==> LinkedDir(fs, d))
    && (forall d: nat :: LinkedDir(fs, d) && d != dp ==> g.inodes[d].ents == fs.inodes[d].ents)
    && g.inodes[dp].ents == Added(fs.inodes[dp].ents, name, t)
    && (forall d: nat :: d < |g.inodes| && g.inodes[d].kind.Dir? && g.inodes[d].nlink == 0 ==> Emptied(g.inodes[d].ents, |g.inodes|))
  }

  /** A new name for something that is not a linked directory keeps the tree. */
  lemma EntryTree(fs: Fs, g: Fs, dp: nat, name: string, t: nat)
    requires Shape(fs) && LinkedDir(fs, dp) && 0 < t < |fs.inodes| && !LinkedDir(fs, t) && !Present(fs.inodes[dp].ents, name)
    requires SameBut(fs, g, dp, name, t) && OneMore(fs, g, dp, EmptyAt(fs.inodes[dp].ents, 0), t)
    ensures Shape(g) && SameParents(fs, g)
  {
    assert DirOk(fs, dp);
    AddedDirOk(fs, g, dp, name, t);
    forall d: nat | LinkedDir(g, d) ensures DirOk(g, d) && g.inodes[d].ents[1] == fs.inodes[d].ents[1] {
      assert LinkedDir(fs, d) && DirOk(fs, d);
    }
    TreeKept(fs, g);
  }

  lemma NewName(fs: Fs, dp: nat, name: string)
    requires Shape(fs) && LinkedDir(fs, dp) && !Present(fs.inodes[dp].ents, name)
    ensures name != "." && name != ".." && EmptyAt(fs.inodes[dp].ents, 0) >= 2 && dp > 0
  {
    var es := fs.inodes[dp].ents;
    assert DirOk(fs, dp);
    assert es[0].inum != 0 && es[1].inum != 0;
  }

  lemma LinkTree(fs: Fs, ip: nat, dp: nat, name: string)
    requires Shape(fs) && LinkedDir(fs, dp) && 0 < ip < |fs.inodes| && (fs.inodes[ip].kind.File? || fs.inodes[ip].kind.Dev?)
    requires !Present(fs.inodes[dp].ents, name)
    ensures var g := LinkedIn(fs, ip, dp, name); Shape(g) && SameParents(fs, g) && name != "."
  {
    NewName(fs, dp, name);
    LinkNames(fs, ip, dp, name);
    EntryTree(fs, LinkedIn(fs, ip, dp, name), dp, name, ip);
  }

  lemma LinkGood(fs: Fs, ip: nat, dp: nat, name: string)
    requires Good(fs) && LinkedDir(fs, dp) && 0 < ip < |fs.inodes| && (fs.inodes[ip].kind.File? || fs.inodes[ip].kind.Dev?)
    requires !Present(fs.inodes[dp].ents, name)
    ensures Good(LinkedIn(fs, ip, dp, name))
  {
    LinkTree(fs, ip, dp, name);
    TreeStays(fs, LinkedIn(fs, ip, dp, name));
    LinkCounts(fs, ip, dp, name);
  }

  lemma LinkCounts(fs: Fs, ip: nat, dp: nat, name: string)
    requires Counted(fs) && LinkedDir(fs, dp) && 0 < ip < |fs.inodes| && (fs.inodes[ip].kind.File? || fs.inodes[ip].kind.Dev?)
    requires name != "."
    ensures Counted(LinkedIn(fs, ip, dp, name))
  {
    var g := LinkedIn(fs, ip, dp, name);
    LinkNames(fs, ip, dp, name);
    forall t: nat | 0 < t < |g.inodes|
      ensures g.inodes[t].nlink == |Refs(g, t)| && (g.inodes[t].kind.Free? ==> g.inodes[t].nlink == 0)
    {
      OneMoreRefs(fs, g, dp, EmptyAt(fs.inodes[dp].ents, 0), ip, t);
    }
  }

  // ---- create, not a directory ----

  /** Nothing names a free inode. */
  lemma FreeUnnamed(fs: Fs, i: nat, d: nat, k: nat)
    requires Counted(fs) && 0 < i < |fs.inodes| && fs.inodes[i].kind.Free?
    ensures !Names(fs, d, k, i)
  {
    RefsMember(fs, i, d, k);
    assert Refs(fs, i) == {};
  }

  lemma FileNames(fs: Fs, i: nat, dp: nat, name: string, kind: Kind)
    requires LinkedDir(fs, dp) && 0 < i < |fs.inodes| && fs.inodes[i].kind.Free? && (kind.File? || kind.Dev?) && name != "."
    ensures OneMore(fs, Created(fs, i, dp, name, kind), dp, EmptyAt(fs.inodes[dp].ents, 0), i)
  {
    var b := Born(fs, i, dp, kind);
    assert SameNames(fs, b);
    EntryNames(b, dp, name, i);
  }

  lemma FileGood(fs: Fs, i: nat, dp: nat, name: string, kind: Kind)
    requires Good(fs) && LinkedDir(fs, dp) && 0 < i < |fs.inodes| && fs.inodes[i].kind.Free? && (kind.File? || kind.Dev?)
    requires !Present(fs.inodes[dp].ents, name)
    ensures Good(Created(fs, i, dp, name, kind))
  {
    NewName(fs, dp, name);
    FileTree(fs, i, dp, name, kind);
    TreeStays(fs, Created(fs, i, dp, name, kind));
    FileCounts(fs, i, dp, name, kind);
  }

  lemma FileTree(fs: Fs, i: nat, dp: nat, name: string, kind: Kind)
    requires Shape(fs) && LinkedDir(fs, dp) && 0 < i < |fs.inodes| && fs.inodes[i].kind.Free? && (kind.File? || kind.Dev?)
    requires !Present(fs.inodes[dp].ents, name)
    ensures var g := Created(fs, i, dp, name, kind); Shape(g) && SameParents(fs, g)
  {
    NewName(fs, dp, name);
    FileNames(fs, i, dp, name, kind);
    EntryTree(fs, Created(fs, i, dp, name, kind), dp, name, i);
  }

  lemma FileCounts(fs: Fs, i: nat, dp: nat, name: string, kind: Kind)
    requires Counted(fs) && LinkedDir(fs, dp) && 0 < i < |fs.inodes| && fs.inodes[i].kind.Free? && (kind.File? || kind.Dev?)
    requires name != "."
    ensures Counted(Created(fs, i, dp, name, kind))
  {
    var g := Created(fs, i, dp, name, kind);
    FileNames(fs, i, dp, name, kind);
    forall t: nat | 0 < t < |g.inodes|
      ensures g.inodes[t].nlink == |Refs(g, t)| && (g.inodes[t].kind.Free? ==> g.inodes[t].nlink == 0)
    {
      OneMoreRefs(fs, g, dp, EmptyAt(fs.inodes[dp].ents, 0), i, t);
    }
  }

  // ---- create, a directory ----

  lemma DirNames(fs: Fs, i: nat, dp: nat, name: string)
    requires LinkedDir(fs, dp) && 0 < dp && 0 < i < |fs.inodes| && fs.inodes[i].kind.Free? && name != "."
    ensures OneMore(fs, Born(fs, i, dp, Dir), i, 1, dp)
    ensures OneMore(Born(fs, i, dp, Dir), Created(fs, i, dp, name, Dir), dp, EmptyAt(fs.inodes[dp].ents, 0), i)
  {
    EntryNames(Born(fs, i, dp, Dir), dp, name, i);
  }

  lemma DirCounts(fs: Fs, i: nat, dp: nat, name: string)
    requires Counted(fs) && LinkedDir(fs, dp) && 0 < dp && 0 < i < |fs.inodes| && fs.inodes[i].kind.Free? && name != "."
    ensures Counted(Created(fs, i, dp, name, Dir))
  {
    var b, g := Born(fs, i, dp, Dir), Created(fs, i, dp, name, Dir);
    DirNames(fs, i, dp, name);
    forall t: nat | 0 < t < |g.inodes|
      ensures g.inodes[t].nlink == |Refs(g, t)| && (g.inodes[t].kind.Free? ==> g.inodes[t].nlink == 0)
    {
      OneMoreRefs(fs, b, i, 1, dp, t);
      OneMoreRefs(b, g, dp, EmptyAt(fs.inodes[dp].ents, 0), i, t);
    }
  }

  /** The new directory is entered once, in the directory its ".." names. */
  lemma NewDirEntered(fs: Fs, i: nat, dp: nat, name: string)
    requires Counted(fs) && LinkedDir(fs, dp) && 0 < dp && 0 < i < |fs.inodes| && fs.inodes[i].kind.Free? && i != fs.root
    requires name != "." && EmptyAt(fs.inodes[dp].ents, 0) >= 2
    ensures var g := Created(fs, i, dp, name, Dir); LinkedDir(g, i) && DirOk(g, i) && Entered(g, i)
  {
    var g, e := Created(fs, i, dp, name, Dir), EmptyAt(fs.inodes[dp].ents, 0);
    DirNames(fs, i, dp, name);
    assert g.inodes[i] == Inode(Dir, 1, Dots(i, dp));
    forall p: nat, k: nat ensures Enters(g, p, k, i) <==> p == dp && k == e { FreeUnnamed(fs, i, p, k); }
    assert Enters(g, g.inodes[i].ents[1].inum, e, i);
  }

  lemma OldDirEntered(fs: Fs, i: nat, dp: nat, name: string, d: nat)
    requires Shape(fs) && LinkedDir(fs, dp) && 0 < i < |fs.inodes| && fs.inodes[i].kind.Free? && !Present(fs.inodes[dp].ents, name)
    requires d != i && LinkedDir(Created(fs, i, dp, name, Dir), d)
    ensures var g := Created(fs, i, dp, name, Dir); 0 < d && DirOk(g, d) && Entered(g, d)
  {
    var g := Created(fs, i, dp, name, Dir);
    NewName(fs, dp, name);
    DirNames(fs, i, dp, name);
    assert LinkedDir(fs, d) && DirOk(fs, d) && Entered(fs, d);
    assert DirOk(fs, dp);
    AddedDirOk(fs, g, dp, name, i);
    forall p: nat, k: nat ensures Enters(g, p, k, d) <==> Enters(fs, p, k, d) {}
    if d != fs.root {
      var k: nat :| Enters(fs, fs.inodes[d].ents[1].inum, k, d);
      assert Enters(g, g.inodes[d].ents[1].inum, k, d);
    }
  }

  lemma DirTreeKept(fs: Fs, i: nat, dp: nat, name: string)
    requires Shape(fs) && LinkedDir(fs, dp) && 0 < i < |fs.inodes| && fs.inodes[i].kind.Free? && !Present(fs.inodes[dp].ents, name)
    requires var g := Created(fs, i, dp, name, Dir); LinkedDir(g, i) && DirOk(g, i) && Entered(g, i)
    ensures Shape(Created(fs, i, dp, name, Dir))
  {
    var g := Created(fs, i, dp, name, Dir);
    forall d: nat | LinkedDir(g, d) ensures 0 < d && DirOk(g, d) && Entered(g, d) {
      if d != i { OldDirEntered(fs, i, dp, name, d); }
    }
    UnlinkedBare(fs, i, dp, name);
  }

  lemma UnlinkedBare(fs: Fs, i: nat, dp: nat, name: string)
    requires i < |fs.inodes| && dp < |fs.inodes| && i != dp
    requires forall d: nat :: d < |fs.inodes| && fs.inodes[d].kind.Dir? && fs.inodes[d].nlink == 0 ==> Emptied(fs.inodes[d].ents, |fs.inodes|)
    ensures var g := Created(fs, i, dp, name, Dir);
      forall d: nat :: d < |g.inodes| && g.inodes[d].kind.Dir? && g.inodes[d].nlink == 0 ==> Emptied(g.inodes[d].ents, |g.inodes|)
  {
  }

  lemma DirGood(fs: Fs, i: nat, dp: nat, name: string)
    requires Good(fs) && LinkedDir(fs, dp) && 0 < i < |fs.inodes| && fs.inodes[i].kind.Free? && !Present(fs.inodes[dp].ents, name)
    ensures Good(Created(fs, i, dp, name, Dir))
  {
    NewName(fs, dp, name);
    DirCounts(fs, i, dp, name);
    NewDirEntered(fs, i, dp, name);
    DirTreeKept(fs, i, dp, name);
    DirParents(fs, i, dp, name);
    TreeGrows(fs, Created(fs, i, dp, name, Dir), i, dp);
  }

  lemma DirParents(fs: Fs, i: nat, dp: nat, name: string)
    requires Shape(fs) && LinkedDir(fs, dp) && 0 < i < |fs.inodes| && fs.inodes[i].kind.Free? && !Present(fs.inodes[dp].ents, name)
    ensures var g := Created(fs, i, dp, name, Dir); Parent(g, i) == dp && SameParentsBut(fs, g, i)
  {
    var g := Created(fs, i, dp, name, Dir);
    NewName(fs, dp, name);
    assert DirOk(fs, dp);
    forall d: nat | LinkedDir(g, d) && d != i ensures LinkedDir(fs, d) && Parent(g, d) == Parent(fs, d) {
      if d == dp { assert g.inodes[dp].ents[1] == fs.inodes[dp].ents[1]; }
    }
  }

  // ---- unlink ----

  /** Slot k of linked directory dp names ip under a name of its own, and ip, if a directory, is empty. */
  ghost predicate CanUnlink(fs: Fs, dp: nat, k: nat, ip: nat) {
    && Enters(fs, dp, k, ip) && ip < |fs.inodes| && (fs.inodes[ip].kind.Dir? ==> Bare(fs.inodes[ip].ents))
  }

  /** Whatever an entry names has a link count, and a directory named by one is linked. */
  lemma EntryCounts(fs: Fs, dp: nat, k: nat, ip: nat)
    requires Counted(fs) && Enters(fs, dp, k, ip) && ip < |fs.inodes|
    ensures fs.inodes[ip].nlink > 0 && !fs.inodes[ip].kind.Free?
  {
    RefsMember(fs, ip, dp, k);
    assert (dp, k) in Refs(fs, ip);
  }

  /** A directory with subdirectories is not empty. */
  lemma NoKids(fs: Fs, ip: nat, d: nat)
    requires Shape(fs) && LinkedDir(fs, d) && ip < |fs.inodes| && Bare(fs.inodes[ip].ents) && ip != fs.root
    ensures |fs.inodes[d].ents| >= 2 && fs.inodes[d].ents[1].inum != ip
  {
    assert DirOk(fs, d) && Entered(fs, d);
    if d != fs.root {
      var p := fs.inodes[d].ents[1].inum;
      var j: nat :| Enters(fs, p, j, d);
      assert fs.inodes[p].ents[j].inum != 0;
    }
  }

  /** An empty directory is named by its one entry only. */
  lemma EmptyNamedOnce(fs: Fs, dp: nat, k: nat, ip: nat, d: nat, m: nat)
    requires Shape(fs) && CanUnlink(fs, dp, k, ip) && LinkedDir(fs, ip) && Names(fs, d, m, ip)
    ensures d == dp && m == k
  {
    assert DirOk(fs, ip) && Entered(fs, ip) && DirOk(fs, d);
    NoKids(fs, ip, d);
    assert m != 0 && m != 1;
    assert Enters(fs, d, m, ip) && Enters(fs, dp, k, ip);
  }

  /** The directory an empty directory is in has another link besides the one for its "..". */
  lemma ParentKeepsLink(fs: Fs, dp: nat, k: nat, ip: nat)
    requires Good(fs) && CanUnlink(fs, dp, k, ip) && LinkedDir(fs, ip)
    ensures ip != dp && fs.inodes[dp].nlink >= 2 && ip != fs.root && |fs.inodes[ip].ents| >= 2 && fs.inodes[ip].ents[1].inum == dp
  {
    assert DirOk(fs, ip) && Entered(fs, ip) && DirOk(fs, dp) && Entered(fs, dp);
    var j: nat :| Enters(fs, fs.inodes[ip].ents[1].inum, j, ip);
    assert Enters(fs, dp, k, ip);
    RefsMember(fs, dp, ip, 1);
    if dp == fs.root {
      RefsMember(fs, dp, dp, 1);
      TwoRefs(Refs(fs, dp), (ip, 1), (dp, 1));
    } else {
      var p := fs.inodes[dp].ents[1].inum;
      var m: nat :| Enters(fs, p, m, dp);
      RefsMember(fs, dp, p, m);
      TwoRefs(Refs(fs, dp), (ip, 1), (p, m));
    }
  }

  lemma TwoRefs(r: set<(nat, nat)>, a: (nat, nat), b: (nat, nat))
    requires a in r && b in r && a != b
    ensures |r| >= 2
  {
    assert r == {a} + (r - {a});
    assert b in r - {a};
  }

  /** An emptied slot leaves a directory in order. */
  lemma ClearedDirOk(fs: Fs, g: Fs, dp: nat, k: nat)
    requires dp < |fs.inodes| == |g.inodes| && DirOk(fs, dp) && 2 <= k < |fs.inodes[dp].ents|
    requires g.inodes[dp].ents == fs.inodes[dp].ents[k := Dirent(0, "")]
    ensures DirOk(g, dp)
  {
  }

  // ---- unlink, not a directory ----

  lemma UnlinkFileNames(fs: Fs, dp: nat, k: nat, ip: nat)
    requires CanUnlink(fs, dp, k, ip) && fs.inodes[ip].nlink > 0 && !fs.inodes[ip].kind.Dir?
    ensures OneMore(Unlinked(fs, dp, k, ip), fs, dp, k, ip)
  {
  }

  lemma UnlinkFileTree(fs: Fs, dp: nat, k: nat, ip: nat)
    requires Shape(fs) && CanUnlink(fs, dp, k, ip) && fs.inodes[ip].nlink > 0 && !fs.inodes[ip].kind.Dir?
    ensures var g := Unlinked(fs, dp, k, ip); Shape(g) && SameParents(fs, g)
  {
    var g := Unlinked(fs, dp, k, ip);
    UnlinkFileNames(fs, dp, k, ip);
    assert DirOk(fs, dp);
    ClearedDirOk(fs, g, dp, k);
    forall d: nat | LinkedDir(g, d) ensures DirOk(g, d) && g.inodes[d].ents[1] == fs.inodes[d].ents[1] {
      assert LinkedDir(fs, d) && DirOk(fs, d);
    }
    TreeKept(fs, g);
  }

  lemma UnlinkFileGood(fs: Fs, dp: nat, k: nat, ip: nat)
    requires Good(fs) && CanUnlink(fs, dp, k, ip) && !fs.inodes[ip].kind.Dir?
    ensures fs.inodes[ip].nlink > 0 && Good(Unlinked(fs, dp, k, ip))
  {
    EntryCounts(fs, dp, k, ip);
    UnlinkFileTree(fs, dp, k, ip);
    TreeStays(fs, Unlinked(fs, dp, k, ip));
    UnlinkFileNames(fs, dp, k, ip);
    UnlinkFileCounts(fs, dp, k, ip);
  }

  lemma UnlinkFileCounts(fs: Fs, dp: nat, k: nat, ip: nat)
    requires Counted(fs) && CanUnlink(fs, dp, k, ip) && fs.inodes[ip].nlink > 0 && !fs.inodes[ip].kind.Dir?
    requires OneMore(Unlinked(fs, dp, k, ip), fs, dp, k, ip)
    ensures Counted(Unlinked(fs, dp, k, ip))
  {
    var g := Unlinked(fs, dp, k, ip);
    forall t: nat | 0 < t < |g.inodes|
      ensures g.inodes[t].nlink == |Refs(g, t)| && (g.inodes[t].kind.Free? ==> g.inodes[t].nlink == 0)
    {
      OneMoreRefs(g, fs, dp, k, ip, t);
    }
  }

  // ---- unlink, a directory ----

  /** The entry is gone, the counts are not yet changed. */
  function Cleared(fs: Fs, dp: nat, k: nat): (g: Fs)
    requires dp < |fs.inodes| && k < |fs.inodes[dp].ents|
  {
    Put(fs, dp, Inode(fs.inodes[dp].kind, fs.inodes[dp].nlink, fs.inodes[dp].ents[k := Dirent(0, "")]))
  }

  lemma UnlinkDirNames(fs: Fs, dp: nat, k: nat, ip: nat)
    requires CanUnlink(fs, dp, k, ip) && LinkedDir(fs, ip) && DirOk(fs, ip) && ip != dp && dp != 0
    requires fs.inodes[dp].nlink >= 2 && fs.inodes[ip].nlink == 1 && fs.inodes[ip].ents[1].inum == dp
    ensures OneMore(Cleared(fs, dp, k), fs, dp, k, ip)
    ensures OneMore(Unlinked(fs, dp, k, ip), Cleared(fs, dp, k), ip, 1, dp)
  {
    var c, g := Cleared(fs, dp, k), Unlinked(fs, dp, k, ip);
    forall d: nat, m: nat, u: nat ensures Names(c, d, m, u) <==> Names(g, d, m, u) || (d == ip && m == 1 && u == dp) {
      if d == ip && m >= 2 && m < |fs.inodes[ip].ents| { assert fs.inodes[ip].ents[m].inum == 0; }
    }
  }

  lemma EmptyRef(fs: Fs, dp: nat, k: nat, ip: nat, d: nat, m: nat)
    requires Shape(fs) && CanUnlink(fs, dp, k, ip) && LinkedDir(fs, ip)
    ensures (d, m) in Refs(fs, ip) <==> d == dp && m == k
  {
    RefsMember(fs, ip, d, m);
    if Names(fs, d, m, ip) { EmptyNamedOnce(fs, dp, k, ip, d, m); }
  }

  lemma EmptyRefs(fs: Fs, dp: nat, k: nat, ip: nat)
    requires Shape(fs) && CanUnlink(fs, dp, k, ip) && LinkedDir(fs, ip)
    ensures |Refs(fs, ip)| == 1
  {
    var r := Refs(fs, ip);
    EmptyRef(fs, dp, k, ip, dp, k);
    forall x | x in r ensures x == (dp, k) { EmptyRef(fs, dp, k, ip, x.0, x.1); }
    Singleton(r, (dp, k));
  }

  lemma Singleton(r: set<(nat, nat)>, a: (nat, nat))
    requires a in r && forall x :: x in r ==> x == a
    ensures |r| == 1
  {
    assert r == {a};
  }

  /** Its one entry is all that an empty directory's count counts. */
  lemma EmptyHasOneLink(fs: Fs, dp: nat, k: nat, ip: nat)
    requires Shape(fs) && Counted(fs) && CanUnlink(fs, dp, k, ip) && LinkedDir(fs, ip)
    ensures fs.inodes[ip].nlink == 1
  {
    EmptyRefs(fs, dp, k, ip);
  }

  lemma UnlinkDirCounts(fs: Fs, dp: nat, k: nat, ip: nat)
    requires Counted(fs) && CanUnlink(fs, dp, k, ip) && fs.inodes[ip].kind.Dir? && ip != dp && dp != 0
    requires fs.inodes[dp].nlink >= 2 && fs.inodes[ip].nlink == 1
    requires OneMore(Cleared(fs, dp, k), fs, dp, k, ip) && OneMore(Unlinked(fs, dp, k, ip), Cleared(fs, dp, k), ip, 1, dp)
    ensures Counted(Unlinked(fs, dp, k, ip))
  {
    var c, g := Cleared(fs, dp, k), Unlinked(fs, dp, k, ip);
    forall t: nat | 0 < t < |g.inodes|
      ensures g.inodes[t].nlink == |Refs(g, t)| && (g.inodes[t].kind.Free? ==> g.inodes[t].nlink == 0)
    {
      OneMoreRefs(c, fs, dp, k, ip, t);
      OneMoreRefs(g, c, ip, 1, dp, t);
    }
  }

  /** The other directories are still entered once each. */
  lemma UnlinkDirEntered(fs: Fs, dp: nat, k: nat, ip: nat, d: nat)
    requires Shape(fs) && CanUnlink(fs, dp, k, ip) && fs.inodes[ip].kind.Dir? && ip != dp && ip != fs.root
    requires fs.inodes[dp].nlink >= 2 && fs.inodes[ip].nlink == 1 && LinkedDir(fs, d) && d != ip
    requires OneMore(Cleared(fs, dp, k), fs, dp, k, ip) && OneMore(Unlinked(fs, dp, k, ip), Cleared(fs, dp, k), ip, 1, dp)
    ensures var g := Unlinked(fs, dp, k, ip); LinkedDir(g, d) && 0 < d && DirOk(g, d) && Entered(g, d)
  {
    var g := Unlinked(fs, dp, k, ip);
    assert DirOk(fs, d) && Entered(fs, d) && DirOk(fs, dp);
    if d == dp { ClearedDirOk(fs, g, dp, k); }
    forall p: nat, m: nat ensures Enters(g, p, m, d) <==> Enters(fs, p, m, d) {}
    if d != fs.root {
      var m: nat :| Enters(fs, fs.inodes[d].ents[1].inum, m, d);
      assert Enters(g, g.inodes[d].ents[1].inum, m, d);
    }
  }

  lemma UnlinkDirTree(fs: Fs, dp: nat, k: nat, ip: nat)
    requires Shape(fs) && CanUnlink(fs, dp, k, ip) && fs.inodes[ip].kind.Dir? && ip != dp && ip != fs.root
    requires fs.inodes[dp].nlink >= 2 && fs.inodes[ip].nlink == 1
    requires OneMore(Cleared(fs, dp, k), fs, dp, k, ip) && OneMore(Unlinked(fs, dp, k, ip), Cleared(fs, dp, k), ip, 1, dp)
    ensures var g := Unlinked(fs, dp, k, ip); Shape(g) && SameParents(fs, g)
  {
    var g := Unlinked(fs, dp, k, ip);
    forall d: nat | LinkedDir(g, d) ensures 0 < d && DirOk(g, d) && Entered(g, d) {
      UnlinkDirEntered(fs, dp, k, ip, d);
    }
    UnlinkDirRest(fs, dp, k, ip);
  }

  /** The directory that goes is empty, and nobody's ".." changes. */
  lemma UnlinkDirRest(fs: Fs, dp: nat, k: nat, ip: nat)
    requires Shape(fs) && CanUnlink(fs, dp, k, ip) && fs.inodes[ip].kind.Dir? && ip != dp
    requires fs.inodes[dp].nlink >= 2 && fs.inodes[ip].nlink == 1
    ensures SameParents(fs, Unlinked(fs, dp, k, ip))
    ensures var g := Unlinked(fs, dp, k, ip);
      forall d: nat :: d < |g.inodes| && g.inodes[d].kind.Dir? && g.inodes[d].nlink == 0 ==> Emptied(g.inodes[d].ents, |g.inodes|)
  {
    var g := Unlinked(fs, dp, k, ip);
    assert DirOk(fs, ip) && DirOk(fs, dp);
    forall d: nat | d < |g.inodes| && g.inodes[d].kind.Dir? && g.inodes[d].nlink == 0 ensures Emptied(g.inodes[d].ents, |g.inodes|) {
      if d != ip { assert Emptied(fs.inodes[d].ents, |fs.inodes|); }
    }
    forall d: nat | LinkedDir(g, d) ensures LinkedDir(fs, d) && Parent(g, d) == Parent(fs, d) { }
  }

  lemma UnlinkDirGood(fs: Fs, dp: nat, k: nat, ip: nat)
    requires Good(fs) && CanUnlink(fs, dp, k, ip) && fs.inodes[ip].kind.Dir?
    ensures fs.inodes[ip].nlink == 1 && ip != dp && fs.inodes[dp].nlink >= 2 && Good(Unlinked(fs, dp, k, ip))
  {
    EntryCounts(fs, dp, k, ip);
    EmptyHasOneLink(fs, dp, k, ip);
    ParentKeepsLink(fs, dp, k, ip);
    assert DirOk(fs, ip) && dp != 0;
    UnlinkDirNames(fs, dp, k, ip);
    UnlinkDirTree(fs, dp, k, ip);
    TreeStays(fs, Unlinked(fs, dp, k, ip));
    UnlinkDirCounts(fs, dp, k, ip);
  }

  /** sys_unlink keeps everything in order, and never finds a count below one. */
  lemma UnlinkGood(fs: Fs, dp: nat, k: nat, ip: nat)
    requires Good(fs) && CanUnlink(fs, dp, k, ip)
    ensures fs.inodes[ip].nlink > 0 && (fs.inodes[ip].kind.Dir? ==> ip != dp && fs.inodes[dp].nlink >= 2)
    ensures Good(Unlinked(fs, dp, k, ip))
  {
    if fs.inodes[ip].kind.Dir? { UnlinkDirGood(fs, dp, k, ip); } else { UnlinkFileGood(fs, dp, k, ip); }
  }

  // ---- the last reference to an unlinked inode ----

  lemma ReclaimNames(fs: Fs, i: nat)
    requires i < |fs.inodes| && fs.inodes[i].nlink == 0
    ensures SameNames(fs, Reclaimed(fs, i))
  {
  }

  lemma ReclaimTree(fs: Fs, i: nat)
    requires Shape(fs) && i < |fs.inodes| && fs.inodes[i].nlink == 0
    ensures Shape(Reclaimed(fs, i)) && SameParents(fs, Reclaimed(fs, i))
  {
    var g := Reclaimed(fs, i);
    ReclaimNames(fs, i);
    forall d: nat | LinkedDir(g, d) ensures DirOk(g, d) && g.inodes[d].ents[1] == fs.inodes[d].ents[1] {
      assert LinkedDir(fs, d) && DirOk(fs, d);
    }
    TreeKept(fs, g);
  }

  lemma ReclaimGood(fs: Fs, i: nat)
    requires Good(fs) && i < |fs.inodes| && fs.inodes[i].nlink == 0
    ensures Good(Reclaimed(fs, i))
  {
    ReclaimTree(fs, i);
    TreeStays(fs, Reclaimed(fs, i));
    ReclaimCounts(fs, i);
  }

  lemma ReclaimCounts(fs: Fs, i: nat)
    requires Counted(fs) && i < |fs.inodes| && fs.inodes[i].nlink == 0
    ensures Counted(Reclaimed(fs, i))
  {
    var g := Reclaimed(fs, i);
    ReclaimNames(fs, i);
    forall t: nat | 0 < t < |g.inodes|
      ensures g.inodes[t].nlink == |Refs(g, t)| && (g.inodes[t].kind.Free? ==> g.inodes[t].nlink == 0)
    {
      SameNamesRefs(fs, g, t);
    }
  }

  // ---- directories that are no longer linked ----

  /** Nothing names an inode whose count is zero. */
  lemma UncountedUnnamed(fs: Fs, t: nat, d: nat, k: nat)
    requires Counted(fs) && 0 < t < |fs.inodes| && fs.inodes[t].nlink == 0
    ensures !Names(fs, d, k, t)
  {
    RefsMember(fs, t, d, k);
    assert Refs(fs, t) == {};
  }

  /** A file made in an unlinked directory has a count and no name. */
  lemma FileInUnlinked(fs: Fs, i: nat, dp: nat, name: string, kind: Kind)
    requires Counted(fs) && 0 < i < |fs.inodes| && fs.inodes[i].kind.Free? && (kind.File? || kind.Dev?)
    requires dp < |fs.inodes| && dp != i && fs.inodes[dp].nlink == 0
    ensures var g := Created(fs, i, dp, name, kind); g.inodes[i].nlink == 1 && Refs(g, i) == {} && !Counted(g)
  {
    var g := Created(fs, i, dp, name, kind);
    forall x | x in Refs(g, i) ensures false {
      RefsMember(g, i, x.0, x.1);
      FreeUnnamed(fs, i, x.0, x.1);
    }
    assert Refs(g, i) == {} && g.inodes[i].nlink == 1;
  }

  lemma NothingEnters(fs: Fs, i: nat, dp: nat, name: string, p: nat, k: nat)
    requires Counted(fs) && 0 < i < |fs.inodes| && fs.inodes[i].kind.Free?
    requires 0 < dp < |fs.inodes| && fs.inodes[dp].kind.Dir? && fs.inodes[dp].nlink == 0 && Bare(fs.inodes[dp].ents)
    ensures !Enters(Created(fs, i, dp, name, Dir), p, k, dp)
  {
    UncountedUnnamed(fs, dp, p, k);
  }

  /** A directory made in an unlinked directory is linked below that one, which counts as linked again although
      nothing enters it and it is not the root. */
  lemma DirInUnlinked(fs: Fs, i: nat, dp: nat, name: string)
    requires Good(fs) && 0 < i < |fs.inodes| && fs.inodes[i].kind.Free?
    requires 0 < dp < |fs.inodes| && fs.inodes[dp].kind.Dir? && fs.inodes[dp].nlink == 0
    ensures var g := Created(fs, i, dp, name, Dir);
      && LinkedDir(g, i) && Parent(g, i) == dp && LinkedDir(g, dp) && dp != g.root
      && (forall p: nat, k: nat :: !Enters(g, p, k, dp)) && !Tree(g)
  {
    var g := Created(fs, i, dp, name, Dir);
    assert Emptied(fs.inodes[dp].ents, |fs.inodes|) && dp != fs.root;
    forall p: nat, k: nat ensures !Enters(g, p, k, dp) { NothingEnters(fs, i, dp, name, p, k); }
    TreeEnters(g, dp);
  }

  lemma TreeEnters(g: Fs, d: nat)
    ensures Shape(g) && LinkedDir(g, d) && d != g.root ==> exists p: nat, k: nat :: Enters(g, p, k, d)
  {
    if Shape(g) && LinkedDir(g, d) && d != g.root {
      assert DirOk(g, d) && Entered(g, d);
      var k: nat :| Enters(g, g.inodes[d].ents[1].inum, k, d);
    }
  }

  /** create keeps counts and tree exactly when the directory it works in is linked. */
  lemma CreateIff(fs: Fs, i: nat, dp: nat, name: string, kind: Kind)
    requires Good(fs) && 0 < i < |fs.inodes| && fs.inodes[i].kind.Free? && !kind.Free?
    requires 0 < dp < |fs.inodes| && fs.inodes[dp].kind.Dir? && !Present(fs.inodes[dp].ents, name)
    ensures Good(Created(fs, i, dp, name, kind)) <==> fs.inodes[dp].nlink > 0
  {
    if fs.inodes[dp].nlink > 0 {
      if kind.Dir? { DirGood(fs, i, dp, name); } else { FileGood(fs, i, dp, name, kind); }
    } else {
      if kind.Dir? { DirInUnlinked(fs, i, dp, name); } else { FileInUnlinked(fs, i, dp, name, kind); }
    }
  }

  lemma LinkInUnlinked(fs: Fs, ip: nat, dp: nat, name: string)
    requires Counted(fs) && 0 < ip < |fs.inodes| && (fs.inodes[ip].kind.File? || fs.inodes[ip].kind.Dev?)
    requires dp < |fs.inodes| && fs.inodes[dp].kind.Dir? && fs.inodes[dp].nlink == 0
    ensures var g := LinkedIn(fs, ip, dp, name); g.inodes[ip].nlink == |Refs(g, ip)| + 1 && !Counted(g)
  {
    var g := LinkedIn(fs, ip, dp, name);
    assert SameNames(fs, g);
    SameNamesRefs(fs, g, ip);
    assert g.inodes[ip].nlink == fs.inodes[ip].nlink + 1;
  }

  /** So does link. */
  lemma LinkIff(fs: Fs, ip: nat, dp: nat, name: string)
    requires Good(fs) && 0 < ip < |fs.inodes| && (fs.inodes[ip].kind.File? || fs.inodes[ip].kind.Dev?)
    requires 0 < dp < |fs.inodes| && fs.inodes[dp].kind.Dir? && !Present(fs.inodes[dp].ents, name)
    ensures Good(LinkedIn(fs, ip, dp, name)) <==> fs.inodes[dp].nlink > 0
  {
    if fs.inodes[dp].nlink > 0 { LinkGood(fs, ip, dp, name); } else { LinkInUnlinked(fs, ip, dp, name); }
  }
}
