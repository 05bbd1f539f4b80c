/** A run that takes the calls of sysfile.c to a directory without links. */
module DirRuns {
  import opened Common
  import opened DirTree
  import opened DirLinks
  import opened DirCode

  predicate Plain(name: string) { name != "." && name != ".." }

  /** A directory made in the root, which has nothing else, can be unlinked. */
  ghost predicate OneDirectory(g: Fs, n: nat, dp: nat, dir: string) {
    && Good(g) && |g.inodes| == n && 1 < dp < n && g.inodes[1].kind.Dir? && Removable(g, 1, dir)
    && NameAt(g.inodes[1].ents, dir, 0) == 2 < |g.inodes[1].ents| && g.inodes[1].ents[2].inum == dp
    && g.inodes[dp] == Inode(Dir, 1, Dots(dp, 1)) && forall j :: 1 < j < n && j != dp ==> g.inodes[j].kind.Free?
  }

  method MakeDirectory(n: nat, dir: string) returns (d: Dirs, dp: nat)
    requires n >= 4 && Plain(dir)
    ensures fresh(d) && OneDirectory(d.S(), n, dp, dir)
  {
    d := new Dirs(n);
    ghost var fs := d.S();
    assert fs.inodes[2].kind.Free?;
    assert NameAt(Dots(1, 1), dir, 0) == NameAt(Dots(1, 1), dir, 1) == NameAt(Dots(1, 1), dir, 2) == 2;
    var r := d.Create(1, dir, Dir);
    dp := r.inum;
    MadeDir(fs, d.S(), dp, dir);
  }

  /** Make a directory in the root of a new file system and unlink it while somebody has it as current
      directory: all is in order, and the directory is there without a link. */
  method RemovedDirectory(n: nat, dir: string) returns (d: Dirs, dp: nat)
    requires n >= 4 && Plain(dir)
    ensures Good(d.S()) && IsDir(d.S(), dp) && d.inodes[dp].nlink == 0 && |d.inodes| == n
    ensures fresh(d) && exists i :: 1 <= i < n && d.inodes[i].kind.Free?
  {
    d, dp := MakeDirectory(n, dir);
    ghost var g := d.S();
    var r := d.SysUnlink(1, dir, true);
    GoneDir(g, d.S(), dp, dir);
    assert d.inodes[if dp == 2 then 3 else 2].kind.Free?;
  }

  /** Then create something in it: all is out of order. */
  method CreateInRemoved(n: nat, dir: string, name: string, kind: Kind)
      returns (d: Dirs, dp: nat, r: Outcome, ghost before: Fs)
    requires n >= 4 && Plain(dir) && Plain(name) && !kind.Free?
    ensures Good(before) && IsDir(before, dp) && before.inodes[dp].nlink == 0
    ensures r.Done? && r.inum < |before.inodes| && d.S() == Created(before, r.inum, dp, name, kind) && !Good(d.S())
  {
    d, dp := RemovedDirectory(n, dir);
    before := d.S();
    UnlinkedHasNone(before, dp, name);
    r := d.Create(dp, name, kind);
  }

  /** The directory just made can be unlinked again. */
  lemma MadeDir(fs: Fs, g: Fs, i: nat, dir: string)
    requires Plain(dir) && 1 < i < |fs.inodes| && fs.inodes[1] == Inode(Dir, 1, Dots(1, 1)) && g == Created(fs, i, 1, dir, Dir)
    ensures Removable(g, 1, dir) && NameAt(g.inodes[1].ents, dir, 0) == 2 && g.inodes[1].ents[2].inum == i
    ensures g.inodes[i] == Inode(Dir, 1, Dots(i, 1))
    ensures forall j :: 0 <= j < |fs.inodes| && j != 1 && j != i ==> g.inodes[j] == fs.inodes[j]
  {
    var es := g.inodes[1].ents;
    assert EmptyAt(Dots(1, 1), 0) == EmptyAt(Dots(1, 1), 1) == EmptyAt(Dots(1, 1), 2) == 2;
    assert es == Dots(1, 1) + [Dirent(i, dir)];
    assert NameAt(es, dir, 0) == NameAt(es, dir, 1) == NameAt(es, dir, 2) == 2;
  }

  lemma GoneDir(g: Fs, h: Fs, i: nat, dir: string)
    requires 1 < i < |g.inodes| && NameAt(g.inodes[1].ents, dir, 0) == 2 < |g.inodes[1].ents| && g.inodes[1].ents[2].inum == i
    requires g.inodes[i] == Inode(Dir, 1, Dots(i, 1)) && Removed(g, h, 1, dir, i, true)
    ensures |h.inodes| == |g.inodes| && h.inodes[i].kind == Dir && h.inodes[i].nlink == 0
    ensures forall j :: 0 <= j < |g.inodes| && j != 1 && j != i ==> h.inodes[j] == g.inodes[j]
  {
  }
}
