/** link, unlink and create as they run, one call at a time.  Path names have been
    resolved: a call is given the parent directory and the last name. */
module DirCode {
  import opened Common
  import opened DirTree
  import opened DirLinks

  /** What a call comes to: a value, -1, or a kernel panic. */
  datatype Outcome = Done(inum: nat) | Refused | Panicked

  /** sys_link succeeds: not a directory, a parent, and a new name. */
  predicate Linkable(fs: Fs, ip: nat, dp: Option<nat>, name: string) {
    && ip < |fs.inodes| && !fs.inodes[ip].kind.Dir?
    && dp.Some? && dp.value < |fs.inodes| && !Present(fs.inodes[dp.value].ents, name)
  }

  /** sys_unlink succeeds: a name of its own, for something that is not a directory with entries. */
  predicate Removable(fs: Fs, dp: nat, name: string) {
    && dp < |fs.inodes| && name != "." && name != ".." && Present(fs.inodes[dp].ents, name)
    && var ip := fs.inodes[dp].ents[NameAt(fs.inodes[dp].ents, name, 0)].inum;
       ip < |fs.inodes| && (fs.inodes[ip].kind.Dir? ==> Bare(fs.inodes[ip].ents))
  }

  /** g is fs with the name gone, the counts adjusted, and the inode freed if nothing refers to it any more. */
  ghost predicate Removed(fs: Fs, g: Fs, dp: nat, name: string, ip: nat, held: bool) {
    && dp < |fs.inodes| && Present(fs.inodes[dp].ents, name)
    && var k := NameAt(fs.inodes[dp].ents, name, 0);
       && fs.inodes[dp].ents[k].inum == ip && ip < |fs.inodes| && fs.inodes[ip].nlink > 0
       && (fs.inodes[ip].kind.Dir? ==> fs.inodes[dp].nlink > 0 && ip != dp)
       && var u := Unlinked(fs, dp, k, ip);
          g == if u.inodes[ip].nlink == 0 && !held then Reclaimed(u, ip) else u
  }

  /** What create does about a name that is there. */
  predicate Reopens(fs: Fs, dp: nat, name: string, kind: Kind, r: Outcome)
    requires dp < |fs.inodes| && Present(fs.inodes[dp].ents, name)
  {
    var ip := fs.inodes[dp].ents[NameAt(fs.inodes[dp].ents, name, 0)].inum;
    ip < |fs.inodes| && r == if kind.File? && fs.inodes[ip].kind.File? then Done(ip) else Refused
  }

  /** Slot k of dp, if used for a name of its own, names an inode with a count; unlinking an empty
      directory leaves dp with one too. */
  ghost predicate TidyEntry(fs: Fs, dp: nat, k: nat)
    requires dp < |fs.inodes| && k < |fs.inodes[dp].ents|
  {
    var e := fs.inodes[dp].ents[k];
    e.inum < |fs.inodes| && (e.inum != 0 && e.name != "." && e.name != ".." ==>
      && fs.inodes[e.inum].nlink > 0
      && (fs.inodes[e.inum].kind.Dir? && Bare(fs.inodes[e.inum].ents) ==> fs.inodes[dp].nlink > 0 && e.inum != dp))
  }

  ghost predicate Tidy(fs: Fs, dp: nat) {
    dp < |fs.inodes| && forall k: nat :: k < |fs.inodes[dp].ents| ==> TidyEntry(fs, dp, k)
  }

  predicate IsDir(fs: Fs, dp: nat) { 0 < dp < |fs.inodes| && fs.inodes[dp].kind.Dir? }

  lemma GoodIsTidy(fs: Fs, dp: nat)
    requires Good(fs) && IsDir(fs, dp)
    ensures Tidy(fs, dp)
  {
    forall k: nat | k < |fs.inodes[dp].ents| ensures TidyEntry(fs, dp, k) {
      if fs.inodes[dp].nlink > 0 {
        assert DirOk(fs, dp);
        EntryIsTidy(fs, dp, k);
      } else {
        assert Emptied(fs.inodes[dp].ents, |fs.inodes|);
      }
    }
  }

  /** An unlinked directory has no names of its own. */
  lemma UnlinkedHasNone(fs: Fs, dp: nat, name: string)
    requires Good(fs) && IsDir(fs, dp) && name != "." && name != ".."
    ensures Present(fs.inodes[dp].ents, name) ==> LinkedDir(fs, dp)
  {
    if fs.inodes[dp].nlink == 0 { assert Emptied(fs.inodes[dp].ents, |fs.inodes|); }
  }

  lemma EntriesInRange(fs: Fs, dp: nat)
    requires Good(fs) && IsDir(fs, dp)
    ensures forall k :: 0 <= k < |fs.inodes[dp].ents| ==> fs.inodes[dp].ents[k].inum < |fs.inodes|
  {
    if fs.inodes[dp].nlink > 0 { assert DirOk(fs, dp); } else { assert Emptied(fs.inodes[dp].ents, |fs.inodes|); }
  }

  lemma EntryIsTidy(fs: Fs, dp: nat, k: nat)
    requires Good(fs) && LinkedDir(fs, dp) && DirOk(fs, dp) && k < |fs.inodes[dp].ents|
    ensures TidyEntry(fs, dp, k)
  {
    var e := fs.inodes[dp].ents[k];
    if e.inum != 0 && e.name != "." && e.name != ".." {
      assert Enters(fs, dp, k, e.inum);
      EntryCounts(fs, dp, k, e.inum);
      if fs.inodes[e.inum].kind.Dir? && Bare(fs.inodes[e.inum].ents) { ParentKeepsLink(fs, dp, k, e.inum); }
    }
  }

  lemma RemovedGood(fs: Fs, g: Fs, dp: nat, name: string, ip: nat, held: bool)
    requires Good(fs) && LinkedDir(fs, dp) && Removable(fs, dp, name) && Removed(fs, g, dp, name, ip, held)
    ensures Good(g)
  {
    assert DirOk(fs, dp);
    var k := NameAt(fs.inodes[dp].ents, name, 0);
    assert CanUnlink(fs, dp, k, ip);
    UnlinkGood(fs, dp, k, ip);
    var u := Unlinked(fs, dp, k, ip);
    if u.inodes[ip].nlink == 0 { ReclaimGood(u, ip); }
  }

  class Dirs {
    const root: nat
    var inodes: seq<Inode>

    ghost function S(): (fs: Fs)
      reads this
    {
      Fs(inodes, root)
    }

    /** mkfs: a root directory with link count 1, and free inodes. */
    constructor (n: nat)
      requires n >= 2
      ensures Good(S()) && |inodes| == n && root == 1 && inodes[1] == Inode(Dir, 1, Dots(1, 1))
      ensures forall i :: 2 <= i < n ==> inodes[i].kind.Free?
    {
      root := 1;
      inodes := seq(n, i => if i == 1 then Inode(Dir, 1, Dots(1, 1)) else Inode(Free, 0, []));
      new;
      RootGood(S());
    }

    /** dirlookup: the slot that has the name. */
    method Dirlookup(dp: nat, name: string) returns (k: nat)
      requires dp < |inodes|
      ensures k == NameAt(inodes[dp].ents, name, 0)
    {
      k := 0;
      while k < |inodes[dp].ents|
        invariant k <= |inodes[dp].ents| && NameAt(inodes[dp].ents, name, 0) == NameAt(inodes[dp].ents, name, k)
      {
        if inodes[dp].ents[k].inum != 0 && inodes[dp].ents[k].name == name { return; }
        k := k + 1;
      }
    }

    /** dirlink: refuses a name that is there, otherwise uses the first empty slot. */
    method Dirlink(dp: nat, name: string, inum: nat) returns (ok: bool)
      requires dp < |inodes|
      modifies this
      ensures ok <==> !Present(old(inodes)[dp].ents, name)
      ensures S() == if ok then WithEntry(old(S()), dp, name, inum) else old(S())
    {
      var k := Dirlookup(dp, name);
      if k < |inodes[dp].ents| { return false; }
      k := 0;
      var es := inodes[dp].ents;
      while k < |es| && es[k].inum != 0
        invariant k <= |es| && EmptyAt(es, 0) == EmptyAt(es, k)
      {
        k := k + 1;
      }
      var de := Dirent(inum, name);
      inodes := inodes[dp := Inode(inodes[dp].kind, inodes[dp].nlink, if k < |es| then es[k := de] else es + [de])];
      return true;
    }

    /** isdirempty */
    method Isdirempty(dp: nat) returns (empty: bool)
      requires dp < |inodes|
      ensures empty == Bare(inodes[dp].ents)
    {
      var k := 2;
      while k < |inodes[dp].ents|
        invariant 2 <= k && forall i :: 2 <= i < k && i < |inodes[dp].ents| ==> inodes[dp].ents[i].inum == 0
      {
        if inodes[dp].ents[k].inum != 0 { return false; }
        k := k + 1;
      }
      return true;
    }

    /** ialloc: the first free inode after 0. */
    method Ialloc() returns (i: nat)
      ensures i == 0 || (i < |inodes| && inodes[i].kind.Free? && forall j :: 1 <= j < i ==> !inodes[j].kind.Free?)
      ensures i == 0 ==> forall j :: 1 <= j < |inodes| ==> !inodes[j].kind.Free?
    {
      i := 1;
      while i < |inodes|
        invariant 1 <= i && forall j :: 1 <= j < i && j < |inodes| ==> !inodes[j].kind.Free?
      {
        if inodes[i].kind.Free? { return; }
        i := i + 1;
      }
      return 0;
    }

    method SetNlink(i: nat, n: nat)
      requires i < |inodes|
      modifies this
      ensures S() == WithNlink(old(S()), i, n)
    {
      inodes := inodes[i := Inode(inodes[i].kind, n, inodes[i].ents)];
    }

    /** sys_link's steps.  The count goes up first and comes down again when the name cannot be entered. */
    method LinkSteps(ip: nat, dp: Option<nat>, name: string) returns (r: Outcome)
      requires ip < |inodes| && (dp.Some? ==> dp.value < |inodes| && dp.value != ip)
      modifies this
      ensures r.Done? <==> Linkable(old(S()), ip, dp, name)
      ensures r.Done? ==> S() == LinkedIn(old(S()), ip, dp.value, name)
      ensures !r.Done? ==> r.Refused? && S() == old(S())
    {
      ghost var fs := S();
      if inodes[ip].kind.Dir? { return Refused; }
      SetNlink(ip, inodes[ip].nlink + 1);
      if dp.Some? {
        var ok := Dirlink(dp.value, name, ip);
        if ok { return Done(ip); }
      }
      SetNlink(ip, inodes[ip].nlink - 1);
      assert inodes == fs.inodes;
      return Refused;
    }

    /** sys_link of inode ip under `name` in dp; None is a parent that does not exist.  All stays in order
        exactly when it is refused or the parent still has a link. */
    method SysLink(ip: nat, dp: Option<nat>, name: string) returns (r: Outcome)
      requires Good(S()) && 0 < ip < |inodes| && !inodes[ip].kind.Free?
      requires dp.Some? ==> IsDir(S(), dp.value)
      modifies this
      ensures r.Done? <==> Linkable(old(S()), ip, dp, name)
      ensures Good(S()) <==> !r.Done? || old(inodes)[dp.value].nlink > 0
      ensures r.Done? ==> S() == LinkedIn(old(S()), ip, dp.value, name)
      ensures !r.Done? ==> r.Refused? && S() == old(S())
    {
      ghost var fs := S();
      if inodes[ip].kind.Dir? { return Refused; }
      r := LinkSteps(ip, dp, name);
      if r.Done? { LinkIff(fs, ip, dp.value, name); }
    }

    /** sys_unlink's steps; Panicked stands for "unlink: nlink < 1". */
    method UnlinkSteps(dp: nat, name: string, held: bool) returns (r: Outcome)
      requires Tidy(S(), dp)
      modifies this
      ensures !r.Panicked? && (r.Done? <==> Removable(old(S()), dp, name))
      ensures r.Refused? ==> S() == old(S())
      ensures r.Done? ==> Removed(old(S()), S(), dp, name, r.inum, held)
    {
      if name == "." || name == ".." { return Refused; }
      var k := Dirlookup(dp, name);
      if k == |inodes[dp].ents| { return Refused; }
      var ip := inodes[dp].ents[k].inum;
      assert TidyEntry(S(), dp, k);
      if inodes[ip].nlink < 1 { return Panicked; }
      if inodes[ip].kind.Dir? {
        var empty := Isdirempty(ip);
        if !empty { return Refused; }
      }
      RemoveEntry(dp, k, ip);
      if inodes[ip].nlink == 0 && !held {
        inodes := inodes[ip := Inode(Free, 0, [])];
      }
      return Done(ip);
    }

    /** sys_unlink of `name` in dp.  `held` says that somebody else still refers to the inode, so that
        the final iput does not free it. */
    method SysUnlink(dp: nat, name: string, held: bool) returns (r: Outcome)
      requires Good(S()) && IsDir(S(), dp)
      modifies this
      ensures Good(S()) && !r.Panicked? && (r.Done? <==> Removable(old(S()), dp, name))
      ensures r.Refused? ==> S() == old(S())
      ensures r.Done? ==> Removed(old(S()), S(), dp, name, r.inum, held)
    {
      ghost var fs := S();
      GoodIsTidy(fs, dp);
      r := UnlinkSteps(dp, name, held);
      if r.Done? {
        UnlinkedHasNone(fs, dp, name);
        RemovedGood(fs, S(), dp, name, r.inum, held);
      }
    }

    /** The writes of sys_unlink: the entry, the parent's count if a directory goes, the inode's count. */
    method RemoveEntry(dp: nat, k: nat, ip: nat)
      requires dp < |inodes| && k < |inodes[dp].ents| && ip < |inodes| && inodes[ip].nlink > 0
      requires inodes[ip].kind.Dir? ==> inodes[dp].nlink > 0 && ip != dp
      modifies this
      ensures S() == Unlinked(old(S()), dp, k, ip)
    {
      inodes := inodes[dp := Inode(inodes[dp].kind, inodes[dp].nlink, inodes[dp].ents[k := Dirent(0, "")])];
      if inodes[ip].kind.Dir? {
        SetNlink(dp, inodes[dp].nlink - 1);
      }
      SetNlink(ip, inodes[ip].nlink - 1);
    }

    /** create's steps: an existing file when a file is asked for, a new inode when the name is new,
        otherwise refused.  No free inode is a panic. */
    method CreateSteps(dp: nat, name: string, kind: Kind) returns (r: Outcome)
      requires dp < |inodes| && !inodes[dp].kind.Free? && forall k :: 0 <= k < |inodes[dp].ents| ==> inodes[dp].ents[k].inum < |inodes|
      modifies this
      ensures Present(old(inodes)[dp].ents, name) ==> S() == old(S()) && Reopens(old(S()), dp, name, kind, r)
      ensures !Present(old(inodes)[dp].ents, name) ==> r.Panicked? || r.Done?
      ensures r.Panicked? ==> S() == old(S()) && forall j :: 1 <= j < |inodes| ==> !inodes[j].kind.Free?
      ensures !Present(old(inodes)[dp].ents, name) && r.Done? ==>
        0 < r.inum < |old(inodes)| && old(inodes)[r.inum].kind.Free? && S() == Created(old(S()), r.inum, dp, name, kind)
    {
      var k := Dirlookup(dp, name);
      if k < |inodes[dp].ents| {
        var ip := inodes[dp].ents[k].inum;
        if kind.File? && inodes[ip].kind.File? { return Done(ip); }
        return Refused;
      }
      var i := Ialloc();
      if i == 0 { return Panicked; }
      MakeEntry(i, dp, name, kind);
      return Done(i);
    }

    /** create.  All stays in order exactly when nothing is made or the parent still has a link. */
    method Create(dp: nat, name: string, kind: Kind) returns (r: Outcome)
      requires Good(S()) && IsDir(S(), dp) && !kind.Free?
      modifies this
      ensures Good(S()) <==> Present(old(inodes)[dp].ents, name) || r.Panicked? || old(inodes)[dp].nlink > 0
      ensures Present(old(inodes)[dp].ents, name) ==> S() == old(S()) && Reopens(old(S()), dp, name, kind, r)
      ensures !Present(old(inodes)[dp].ents, name) ==> r.Panicked? || r.Done?
      ensures r.Panicked? ==> S() == old(S()) && forall j :: 1 <= j < |inodes| ==> !inodes[j].kind.Free?
      ensures !Present(old(inodes)[dp].ents, name) && r.Done? ==>
        0 < r.inum < |old(inodes)| && old(inodes)[r.inum].kind.Free? && S() == Created(old(S()), r.inum, dp, name, kind)
    {
      ghost var fs := S();
      EntriesInRange(fs, dp);
      r := CreateSteps(dp, name, kind);
      if !Present(fs.inodes[dp].ents, name) && r.Done? { CreateIff(fs, r.inum, dp, name, kind); }
    }

    /** The writes of create. */
    method MakeEntry(i: nat, dp: nat, name: string, kind: Kind)
      requires 0 < i < |inodes| && dp < |inodes| && i != dp && !Present(inodes[dp].ents, name)
      modifies this
      ensures S() == Created(old(S()), i, dp, name, kind)
    {
      inodes := inodes[i := Inode(kind, 1, [])];
      var ok;
      if kind.Dir? {
        SetNlink(dp, inodes[dp].nlink + 1);
        ok := Dirlink(i, ".", i);
        assert inodes[i].ents == [Dirent(i, ".")];
        assert EmptyAt(inodes[i].ents, 0) == EmptyAt(inodes[i].ents, 1) == 1;
        assert NameAt(inodes[i].ents, "..", 0) == NameAt(inodes[i].ents, "..", 1) == 1;
        ok := Dirlink(i, "..", dp);
        assert inodes[i].ents == Dots(i, dp);
      }
      ok := Dirlink(dp, name, i);
    }
  }

  lemma RootGood(fs: Fs)
    requires |fs.inodes| >= 2 && fs.root == 1
    requires fs.inodes == seq(|fs.inodes|, i => if i == 1 then Inode(Dir, 1, Dots(1, 1)) else Inode(Free, 0, []))
    ensures Good(fs)
  {
    forall d: nat, k: nat, t: nat ensures Names(fs, d, k, t) <==> d == 1 && k == 1 && t == 1 {}
    forall t: nat | 0 < t < |fs.inodes| ensures fs.inodes[t].nlink == |Refs(fs, t)| {
      forall d: nat, k: nat ensures (d, k) in Refs(fs, t) <==> Names(fs, d, k, t) { RefsMember(fs, t, d, k); }
      assert Refs(fs, t) == if t == 1 then {(1, 1)} else {};
    }
    assert DirOk(fs, 1) && Entered(fs, 1);
    forall d: nat | LinkedDir(fs, d) ensures 0 < d && DirOk(fs, d) && Entered(fs, d) { assert d == 1; }
    assert Shape(fs);
    var depth: map<nat, nat> := map[1 := 0];
    assert Below(fs, depth, 1);
    assert Deep(fs, depth);
  }
}
