/** The part of a POSIX file system that the snapshot store can observe.

    A place is one direct child of the snapshot folder, or a tree somewhere else
    on the machine; each place holds a whole tree. Files are names for inodes, so
    two trees that share a file share its inode, and a write through one name is
    seen through every other. */
module FileSystem {
  import opened Options

  type Path = seq<string>

  /** `Stamp(t)` is the folder named after second `t`; `Staging(t)` is its
      `.<name>.partial` sibling; `Stray` is anything else in the snapshot folder;
      `Outside` is a tree that is not in the snapshot folder. */
  datatype Place = Stamp(at: int) | Staging(at: int) | Stray(name: string) | Outside(path: string)

  datatype Inode = Inode(bytes: seq<int>, mtime: int)

  datatype Entry = Dir | Symlink(to: string) | File(ino: nat)

  type Tree = map<Path, Entry>

  /** Which place, and which path in it, a path that meets a symbolic link leads to. */
  type Links = (Place, Path) -> Option<(Place, Path)>

  /** `links` is how the machine resolves links at present; `faultless` tells whether every
      call succeeds that has no reason to fail. */
  datatype Fs = Fs(trees: map<Place, Tree>, inodes: map<nat, Inode>, next: nat, links: Links, faultless: bool)

  /** What a reader finds at a path, with the inode numbers abstracted away. */
  datatype Node = DirNode | LinkNode(to: string) | FileNode(bytes: seq<int>, mtime: int) | SpecialNode

  predicate WellFormed(fs: Fs) {
    && (forall i | i in fs.inodes :: i < fs.next)
    && (forall q, p | q in fs.trees && p in fs.trees[q] && fs.trees[q][p].File? :: fs.trees[q][p].ino in fs.inodes)
  }

  /** The place exists and is a real directory rather than a file or a link. */
  predicate IsFolder(fs: Fs, q: Place) {
    q in fs.trees && [] in fs.trees[q] && fs.trees[q][[]].Dir?
  }

  function NodeOf(e: Entry, inodes: map<nat, Inode>): Node {
    match e
    case Dir => DirNode
    case Symlink(to) => LinkNode(to)
    case File(ino) => if ino in inodes then FileNode(inodes[ino].bytes, inodes[ino].mtime) else SpecialNode
  }

  function View(tree: Tree, inodes: map<nat, Inode>): map<Path, Node> {
    map p | p in tree :: NodeOf(tree[p], inodes)
  }

  function Inos(tree: Tree): set<nat> {
    set p | p in tree && tree[p].File? :: tree[p].ino
  }

  /** Following `p` in `tree` meets a symbolic link before its last component. */
  predicate ViaLink(tree: Tree, p: Path) {
    exists k | 0 <= k < |p| :: p[..k] in tree && tree[p[..k]].Symlink?
  }

  /** What is found by following a link, in a published snapshot or outside the store. A
      link that leads into an unfinished tree counts as dangling. */
  function Beyond(fs: Fs, q: Place, p: Path): Option<Entry> {
    var to := fs.links(q, p);
    if to.Some? && (to.value.0.Stamp? || to.value.0.Outside?) && to.value.0 in fs.trees
        && to.value.1 in fs.trees[to.value.0]
    then Some(fs.trees[to.value.0][to.value.1]) else None
  }

  /** What looking up a path finds, without following its last component. */
  function Found(fs: Fs, q: Place, p: Path): Option<Entry> {
    if q !in fs.trees then None
    else if ViaLink(fs.trees[q], p) then Beyond(fs, q, p)
    else if p in fs.trees[q] then Some(fs.trees[q][p])
    else None
  }

  /** Following `p` in `tree` meets a symbolic link anywhere. */
  predicate Crosses(tree: Tree, p: Path) {
    exists k | 0 <= k <= |p| :: p[..k] in tree && tree[p[..k]].Symlink?
  }

  /** No inode of `a` was changed or lost. */
  ghost predicate Extends(a: map<nat, Inode>, b: map<nat, Inode>) {
    forall i | i in a :: i in b && b[i] == a[i]
  }

  /** Before the last component, or in it. */
  lemma CrossesWhere(tree: Tree, p: Path)
    ensures Crosses(tree, p) <==> ViaLink(tree, p) || (p in tree && tree[p].Symlink?)
  {
    assert p[..|p|] == p;
    if Crosses(tree, p) {
      var k :| 0 <= k <= |p| && p[..k] in tree && tree[p[..k]].Symlink?;
    }
  }

  function PutEntry(fs: Fs, q: Place, p: Path, e: Entry): Fs {
    fs.(trees := fs.trees[q := (if q in fs.trees then fs.trees[q] else map[])[p := e]])
  }

  function PutInode(fs: Fs, i: nat, n: Inode): Fs {
    fs.(inodes := fs.inodes[i := n])
  }

  /** Every method is one system call, and an atomic step: it takes full effect or,
      when it reports failure, none, except that a failed write may have written
      something. `past` collects each state that was left behind, so a process
      killed between two calls leaves the machine in one of those states. On a
      faultless machine no call fails without a reason. */
  class Disk {
    var fs: Fs
    ghost var past: seq<Fs>

    /** os.Mkdir; succeeds without effect on an existing directory, as MkdirAll does. */
    method MakeDir(q: Place, p: Path) returns (ok: bool)
      requires WellFormed(fs)
      modifies this
      ensures WellFormed(fs) && past == old(past) + [old(fs)]
      ensures !ok ==> fs == old(fs)
      ensures ok ==> fs == PutEntry(old(fs), q, p, Dir)
      ensures old(fs).faultless && (old(q !in fs.trees) || old(p !in fs.trees[q]) || old(fs.trees[q][p].Dir?)) ==> ok
    {
      past := past + [fs];
      ok := *;
      if ok || fs.faultless {
        ok := true;
        if q in fs.trees && p in fs.trees[q] && !fs.trees[q][p].Dir? { return false; }
        fs := PutEntry(fs, q, p, Dir);
      }
    }

    /** os.Symlink; refuses a name that is taken. */
    method MakeSymlink(q: Place, p: Path, to: string) returns (ok: bool)
      requires WellFormed(fs)
      modifies this
      ensures WellFormed(fs) && past == old(past) + [old(fs)]
      ensures !ok ==> fs == old(fs)
      ensures ok ==> fs == PutEntry(old(fs), q, p, Symlink(to))
      ensures old(fs).faultless && (old(q !in fs.trees) || old(p !in fs.trees[q])) ==> ok
    {
      past := past + [fs];
      ok := *;
      if ok || fs.faultless {
        ok := true;
        if q in fs.trees && p in fs.trees[q] { return false; }
        fs := PutEntry(fs, q, p, Symlink(to));
      }
    }

    /** os.Lstat. A symbolic link before the last component is followed. */
    method Lstat(q: Place, p: Path) returns (r: Option<Entry>)
      requires WellFormed(fs)
      ensures r == Found(fs, q, p)
      ensures r.Some? && r.value.File? ==> r.value.ino in fs.inodes
    {
      return Found(fs, q, p);
    }

    /** os.Stat, which follows a link in the last component too. */
    method Stat(q: Place, p: Path) returns (r: Option<Entry>)
      requires WellFormed(fs)
      ensures q in fs.trees && !Crosses(fs.trees[q], p) ==>
        r == if p in fs.trees[q] then Some(fs.trees[q][p]) else None
    {
      if q in fs.trees && !Crosses(fs.trees[q], p) {
        r := if p in fs.trees[q] then Some(fs.trees[q][p]) else None;
      } else {
        r := *;
      }
    }

    /** os.Link; refuses a name that is taken. */
    method HardLink(i: nat, q: Place, p: Path) returns (ok: bool)
      requires WellFormed(fs) && i in fs.inodes
      modifies this
      ensures WellFormed(fs) && past == old(past) + [old(fs)]
      ensures !ok ==> fs == old(fs)
      ensures ok ==> fs == PutEntry(old(fs), q, p, File(i))
      ensures old(fs).faultless && (old(q !in fs.trees) || old(p !in fs.trees[q])) ==> ok
    {
      past := past + [fs];
      ok := *;
      if ok || fs.faultless {
        ok := true;
        if q in fs.trees && p in fs.trees[q] { return false; }
        fs := PutEntry(fs, q, p, File(i));
      }
    }

    /** os.OpenFile with O_CREATE|O_TRUNC. An existing file is emptied in place, so
        every other name of its inode sees the loss; a missing one gets a new inode.
        Opening through a symbolic link would write outside the tree: callers show
        that this cannot happen. */
    method OpenTruncated(q: Place, p: Path) returns (r: Option<nat>)
      requires WellFormed(fs)
      requires q in fs.trees && p in fs.trees[q] ==> !fs.trees[q][p].Symlink?
      modifies this
      ensures WellFormed(fs) && past == old(past) + [old(fs)]
      ensures r.None? ==> fs == old(fs)
      ensures r.Some? ==> r.value in fs.inodes
      ensures r.Some? && (old(q !in fs.trees) || old(p !in fs.trees[q])) ==>
        && r.value == old(fs.next)
        && fs == PutEntry(PutInode(old(fs), r.value, Inode([], 0)).(next := old(fs.next) + 1), q, p, File(r.value))
      ensures r.Some? && old(q in fs.trees && p in fs.trees[q]) ==>
        && old(fs.trees[q][p]) == File(r.value)
        && fs == PutInode(old(fs), r.value, Inode([], 0))
      ensures old(fs).faultless && (old(q !in fs.trees) || old(p !in fs.trees[q])) ==> r.Some?
    {
      past := past + [fs];
      var ok: bool := *;
      if !ok && !fs.faultless { return None; }
      if q in fs.trees && p in fs.trees[q] {
        if !fs.trees[q][p].File? { return None; }
        r := Some(fs.trees[q][p].ino);
        fs := PutInode(fs, r.value, Inode([], 0));
      } else {
        r := Some(fs.next);
        fs := PutEntry(PutInode(fs, fs.next, Inode([], 0)).(next := fs.next + 1), q, p, File(fs.next));
      }
    }

    /** Writing the copied bytes; a failure may leave a prefix behind. */
    method Write(i: nat, bytes: seq<int>) returns (ok: bool)
      requires WellFormed(fs) && i in fs.inodes
      modifies this
      ensures WellFormed(fs) && past == old(past) + [old(fs)]
      ensures exists n: Inode :: fs == PutInode(old(fs), i, n) && (ok ==> n.bytes == bytes)
      ensures old(fs).faultless ==> ok
    {
      past := past + [fs];
      ok := *;
      ok := ok || fs.faultless;
      var now: int := *;
      var cut :| 0 <= cut <= |bytes| && (ok ==> cut == |bytes|);
      var n := Inode(bytes[..cut], now);
      fs := PutInode(fs, i, n);
    }

    /** os.Chtimes. */
    method SetTime(i: nat, mtime: int) returns (ok: bool)
      requires WellFormed(fs) && i in fs.inodes
      modifies this
      ensures WellFormed(fs) && past == old(past) + [old(fs)]
      ensures !ok ==> fs == old(fs)
      ensures ok ==> fs == PutInode(old(fs), i, old(fs).inodes[i].(mtime := mtime))
      ensures old(fs).faultless ==> ok
    {
      past := past + [fs];
      ok := *;
      ok := ok || fs.faultless;
      if ok { fs := PutInode(fs, i, fs.inodes[i].(mtime := mtime)); }
    }

    /** os.Remove of one name; the inode stays for its other names. */
    method Remove(q: Place, p: Path) returns (ok: bool)
      requires WellFormed(fs) && q in fs.trees && p in fs.trees[q] && !fs.trees[q][p].Dir?
      modifies this
      ensures WellFormed(fs) && past == old(past) + [old(fs)]
      ensures !ok ==> fs == old(fs)
      ensures ok ==> fs == old(fs).(trees := old(fs).trees[q := old(fs).trees[q] - {p}])
      ensures old(fs).faultless ==> ok
    {
      past := past + [fs];
      ok := *;
      ok := ok || fs.faultless;
      if ok { fs := fs.(trees := fs.trees[q := fs.trees[q] - {p}]); }
    }

    /** os.RemoveAll. */
    method RemoveAll(q: Place) returns (ok: bool)
      requires WellFormed(fs)
      modifies this
      ensures WellFormed(fs) && past == old(past) + [old(fs)]
      ensures !ok ==> fs == old(fs)
      ensures ok ==> fs == old(fs).(trees := old(fs).trees - {q})
      ensures old(fs).faultless ==> ok
    {
      past := past + [fs];
      ok := *;
      ok := ok || fs.faultless;
      if ok { fs := fs.(trees := fs.trees - {q}); }
    }

    /** os.Rename of a tree; Go refuses a destination that is already a directory,
        and a directory cannot replace a file. */
    method Rename(a: Place, b: Place) returns (ok: bool)
      requires WellFormed(fs)
      modifies this
      ensures WellFormed(fs) && past == old(past) + [old(fs)]
      ensures !ok ==> fs == old(fs)
      ensures ok ==> a in old(fs).trees && b !in old(fs).trees
      ensures ok ==> fs == old(fs).(trees := (old(fs).trees - {a})[b := old(fs).trees[a]])
      ensures old(fs).faultless && old(a in fs.trees) && old(b !in fs.trees) ==> ok
    {
      past := past + [fs];
      ok := *;
      if ok || fs.faultless {
        ok := true;
        if a !in fs.trees || b in fs.trees { return false; }
        fs := fs.(trees := (fs.trees - {a})[b := fs.trees[a]]);
      }
    }
  }
}
