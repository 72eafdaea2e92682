/** Overlaying single files from outside the source on a tree that the walk wrote. */
module Extras {
  import opened Options
  import opened FileSystem
  import opened TreeCopy

  /** What Stat answers for an extra's source. */
  datatype ExtraFile = Missing | Irregular | Regular(bytes: seq<int>, mtime: int)

  datatype Extra = Extra(dest: Path, file: ExtraFile)

  /** The directories an extra needs above it, down to a given depth. */
  function Parents(dest: Path, upto: nat): set<Path>
    requires upto <= |dest|
  {
    set k | 1 <= k < upto :: dest[..k]
  }

  function Overlay(nodes: map<Path, Node>, extra: Extra): map<Path, Node> {
    if extra.file.Regular? then
      ((map p | p in Parents(extra.dest, |extra.dest|) :: DirNode) + nodes)[extra.dest :=
          FileNode(extra.file.bytes, extra.file.mtime)]
    else nodes
  }

  /** The plain full copy: the walk's data with every extra laid over it in turn. */
  function Expected(nodes: map<Path, Node>, extras: seq<Extra>): map<Path, Node> {
    if extras == [] then Kept(nodes)
    else Overlay(Expected(nodes, extras[..|extras| - 1]), extras[|extras| - 1])
  }

  /** The `i`-th extra is the last one that puts a file at `p`. */
  ghost predicate LastAt(extras: seq<Extra>, i: nat, p: Path) {
    && i < |extras| && extras[i].file.Regular? && extras[i].dest == p
    && forall j | i < j < |extras| && extras[j].file.Regular? :: extras[j].dest != p
  }

  /** Some extra goes into a place below `p`. */
  ghost predicate Beneath(extras: seq<Extra>, p: Path) {
    exists i | 0 <= i < |extras| :: extras[i].file.Regular? && 0 < |p| < |extras[i].dest| && p == extras[i].dest[..|p|]
  }

  /** What the full copy holds at a path: the last extra for it, or else what the source
      has there, unless that is no data, or else a directory that an extra needs. */
  lemma {:induction false} ExpectedAt(nodes: map<Path, Node>, extras: seq<Extra>, p: Path)
    ensures var full := Expected(nodes, extras);
            if exists i: nat :: LastAt(extras, i, p) then
              exists i: nat :: LastAt(extras, i, p)
                          && p in full && full[p] == FileNode(extras[i].file.bytes, extras[i].file.mtime)
            else if p in nodes && !nodes[p].SpecialNode? then p in full && full[p] == nodes[p]
            else if Beneath(extras, p) then p in full && full[p] == DirNode
            else p !in full
  {
    if extras != [] {
      var n := |extras| - 1;
      var front, e := extras[..n], extras[n];
      ExpectedAt(nodes, front, p);
      ParentsAre(e.dest, p);
      if e.file.Regular? && e.dest == p {
        assert LastAt(extras, n, p);
      } else {
        LastBefore(extras, p);
        BeneathBefore(extras, p);
        assert Expected(nodes, extras) == Overlay(Expected(nodes, front), e);
        if i: nat :| LastAt(front, i, p) && p in Expected(nodes, front)
                     && Expected(nodes, front)[p] == FileNode(front[i].file.bytes, front[i].file.mtime) {
          assert LastAt(extras, i, p) && extras[i] == front[i];
        }
      }
    }
  }

  lemma ParentsAre(dest: Path, p: Path)
    ensures p in Parents(dest, |dest|) <==> 0 < |p| < |dest| && p == dest[..|p|]
  {
    if p in Parents(dest, |dest|) {
      var k :| 1 <= k < |dest| && p == dest[..k];
    }
  }

  lemma LastBefore(extras: seq<Extra>, p: Path)
    requires extras != [] && !(extras[|extras| - 1].file.Regular? && extras[|extras| - 1].dest == p)
    ensures forall i: nat :: LastAt(extras, i, p) <==> LastAt(extras[..|extras| - 1], i, p)
  {
    var front := extras[..|extras| - 1];
    forall i: nat ensures LastAt(extras, i, p) <==> LastAt(front, i, p) {
      if LastAt(front, i, p) {
        forall j | i < j < |extras| && extras[j].file.Regular? ensures extras[j].dest != p {
          if j < |front| { assert front[j] == extras[j]; }
        }
      }
      if LastAt(extras, i, p) {
        forall j | i < j < |front| && front[j].file.Regular?
            ensures front[j].dest != p { assert front[j] == extras[j]; }
      }
    }
  }

  lemma BeneathBefore(extras: seq<Extra>, p: Path)
    requires extras != []
    ensures var e := extras[|extras| - 1];
            Beneath(extras, p) <==>
              Beneath(extras[..|extras| - 1], p) || (e.file.Regular? && 0 < |p| < |e.dest| && p == e.dest[..|p|])
  {
    var front := extras[..|extras| - 1];
    if Beneath(extras, p) {
      var i :| 0 <= i < |extras| && extras[i].file.Regular? && 0 < |p| < |extras[i].dest| && p == extras[i].dest[..|p|];
      if i < |front| { assert front[i] == extras[i]; }
    }
    if Beneath(front, p) {
      var i :| 0 <= i < |front| && front[i].file.Regular? && 0 < |p| < |front[i].dest| && p == front[i].dest[..|p|];
      assert extras[i] == front[i];
    }
  }

  function WithDirs(tree: Tree, dest: Path, upto: nat): Tree
    requires upto <= |dest|
  {
    (map p | p in Parents(dest, upto) :: Dir) + tree
  }

  lemma DirsStep(t: Tree, cur: Tree, dest: Path, k: nat)
    requires 1 <= k < |dest| && cur == WithDirs(t, dest, k)
    ensures dest[..k] in cur && cur[dest[..k]].Dir? ==> WithDirs(t, dest, k + 1) == cur
    ensures dest[..k] !in cur ==> WithDirs(t, dest, k + 1) == cur[dest[..k] := Dir]
  {
    assert Parents(dest, k + 1) == Parents(dest, k) + {dest[..k]};
  }

  /** The first `k` directories on the way to `dest` are real ones. */
  ghost predicate Solid(tree: Tree, dest: Path, k: nat)
    requires k <= |dest|
  {
    forall j | 0 <= j < k :: dest[..j] in tree && tree[dest[..j]].Dir?
  }

  lemma SolidPath(tree: Tree, dest: Path, k: nat)
    requires k <= |dest| && Solid(tree, dest, k)
    ensures !ViaLink(tree, dest[..k])
  {
    forall j | 0 <= j < k ensures dest[..k][..j] == dest[..j] {}
  }

  method PrepareOne(disk: Disk, target: Place, here: Path) returns (ok: bool)
    requires WellFormed(disk.fs) && target in disk.fs.trees && !ViaLink(disk.fs.trees[target], here)
    modifies disk
    ensures Quiet(old(disk.fs), disk.fs, target, true) && disk.fs.inodes == old(disk.fs).inodes
        && disk.fs.next == old(disk.fs).next
    ensures old(disk.past) <= disk.past && AllQuiet(old(disk.fs), disk.past, |old(disk.past)|, target, true)
    ensures target in disk.fs.trees
    ensures ok ==> TreeAt(disk.fs, target) == TreeAt(old(disk.fs), target)[here := Dir]
    ensures ok && here in old(disk.fs).trees[target] ==> old(disk.fs).trees[target][here].Dir?
    ensures old(disk.fs).faultless ==>
      (here in old(disk.fs).trees[target] ==> old(disk.fs).trees[target][here].Dir?) ==> ok
  {
    var info := disk.Lstat(target, here);
    if info.None? { ok := disk.MakeDir(target, here); return; }
    return info.value.Dir?;
  }

  /** Whatever stands on the way to `dest` is a real directory. */
  ghost predicate Roomy(tree: Tree, dest: Path) {
    forall k | 1 <= k < |dest| && dest[..k] in tree :: tree[dest[..k]].Dir?
  }

  /** And a file or a link at most stands at `dest` itself. */
  ghost predicate Clear(tree: Tree, dest: Path) {
    Roomy(tree, dest) && (dest in tree ==> !tree[dest].Dir?)
  }

  /** The first `k - 1` directories above `dest` stand and nothing else has changed. */
  ghost predicate Prepared(start: Fs, s: Fs, target: Place, dest: Path, k: nat)
    requires 1 <= k <= |dest|
  {
    && Quiet(start, s, target, true) && s.inodes == start.inodes && s.next == start.next
    && target in s.trees
    && TreeAt(s, target) == WithDirs(TreeAt(start, target), dest, k)
    && Solid(TreeAt(s, target), dest, k)
  }

  method PrepareNext(disk: Disk, target: Place, dest: Path, k: nat, ghost start: Fs) returns (ok: bool)
    requires 1 <= k < |dest| && Prepared(start, disk.fs, target, dest, k)
    modifies disk
    ensures Quiet(start, disk.fs, target, true) && Quiet(old(disk.fs), disk.fs, target, true)
    ensures disk.fs.inodes == start.inodes && disk.fs.next == start.next && target in disk.fs.trees
    ensures old(disk.past) <= disk.past && AllQuiet(old(disk.fs), disk.past, |old(disk.past)|, target, true)
    ensures ok ==> Prepared(start, disk.fs, target, dest, k + 1)
    ensures start.faultless && Roomy(TreeAt(start, target), dest) ==> ok
  {
    ghost var was := disk.fs;
    SolidPath(disk.fs.trees[target], dest, k);
    DirsStep(TreeAt(start, target), disk.fs.trees[target], dest, k);
    ok := PrepareOne(disk, target, dest[..k]);
    QuietTrans(start, was, disk.fs, target, true);
  }

  /** prepareExtraParent: walk down with Lstat, create what is missing, and refuse
      anything on the way that is not a real directory. */
  method PrepareParent(disk: Disk, target: Place, dest: Path) returns (ok: bool)
    requires WellFormed(disk.fs) && IsFolder(disk.fs, target) && dest != []
    modifies disk
    ensures Quiet(old(disk.fs), disk.fs, target, true) && target in disk.fs.trees
    ensures disk.fs.inodes == old(disk.fs).inodes && disk.fs.next == old(disk.fs).next
    ensures old(disk.past) <= disk.past && AllQuiet(old(disk.fs), disk.past, |old(disk.past)|, target, true)
    ensures ok ==> TreeAt(disk.fs, target) == WithDirs(old(disk.fs).trees[target], dest, |dest|)
    ensures ok ==> !ViaLink(TreeAt(disk.fs, target), dest)
    ensures old(disk.fs).faultless && Roomy(old(disk.fs).trees[target], dest) ==> ok
  {
    ghost var start, from := disk.fs, |disk.past|;
    var k := 1;
    FirstPrepared(start, target, dest);
    while k < |dest|
      invariant 1 <= k <= |dest|
      invariant Prepared(start, disk.fs, target, dest, k)
      invariant old(disk.past) <= disk.past && AllQuiet(start, disk.past, from, target, true)
    {
      ghost var was, mark := disk.fs, |disk.past|;
      ok := PrepareNext(disk, target, dest, k, start);
      AllQuietTrans(start, was, disk.past, from, mark, target, true);
      if !ok { return; }
      k := k + 1;
    }
    assert dest[..|dest|] == dest;
    SolidPath(disk.fs.trees[target], dest, |dest|);
    return true;
  }

  lemma FirstPrepared(start: Fs, target: Place, dest: Path)
    requires WellFormed(start) && IsFolder(start, target) && dest != []
    ensures Prepared(start, start, target, dest, 1)
  {
    assert dest[..0] == [];
    assert WithDirs(TreeAt(start, target), dest, 1) == TreeAt(start, target);
  }

  /** What laying one extra over a tree did. */
  datatype Laid = Failed | Absent | Put(linked: bool)

  /** Clears the destination: the walk may have linked that name to an older snapshot,
      and truncating the file would rewrite that snapshot too. */
  method MakeRoom(disk: Disk, dest: Path, target: Place) returns (ok: bool)
    requires WellFormed(disk.fs) && IsFolder(disk.fs, target) && dest != []
    modifies disk
    ensures Quiet(old(disk.fs), disk.fs, target, true) && disk.fs.next == old(disk.fs).next
    ensures old(disk.past) <= disk.past && AllQuiet(old(disk.fs), disk.past, |old(disk.past)|, target, true)
    ensures ok ==>
      && !ViaLink(old(disk.fs).trees[target], dest)
      && (dest in old(disk.fs).trees[target] ==> !old(disk.fs).trees[target][dest].Dir?)
      && target in disk.fs.trees && disk.fs.trees[target] == WithDirs(old(disk.fs).trees[target], dest, |dest|) - {dest}
    ensures old(disk.fs).faultless && Clear(old(disk.fs).trees[target], dest) ==> ok
  {
    ghost var was, from := disk.fs, |disk.past|;
    ok := PrepareParent(disk, target, dest);
    if !ok { return; }
    ghost var ready, mark := disk.fs, |disk.past|;
    ViaLinkBelow(was.trees[target], disk.fs.trees[target], dest);
    assert dest !in Parents(dest, |dest|);
    var existing := disk.Lstat(target, dest);
    if existing.Some? {
      if existing.value.Dir? { return false; }
      ok := disk.Remove(target, dest);
    }
    QuietTrans(was, ready, disk.fs, target, true);
    AllQuietTrans(was, ready, disk.past, from, mark, target, true);
  }

  /** How an extra's file ended up in the tree. */
  ghost predicate LaidOver(before: Tree, after: Tree, extra: Extra, base: Seen, bound: nat, inodes: map<nat, Inode>,
                           linked: bool, e: Entry)
    requires extra.file.Regular?
  {
    && extra.dest != [] && !ViaLink(before, extra.dest)
    && (extra.dest in before ==> !before[extra.dest].Dir?)
    && e.File?
    && after == WithDirs(before, extra.dest, |extra.dest|)[extra.dest := e]
    && Faithful(base, bound, inodes, extra.dest, e, FileNode(extra.file.bytes, extra.file.mtime))
    && (!Crosses(base.tree, extra.dest) ==> linked == (e.ino < bound))
  }

  /** Nothing but a failing call keeps the extra from being laid over this tree. */
  ghost predicate Placeable(tree: Tree, extra: Extra) {
    match extra.file
    case Missing => true
    case Irregular => false
    case Regular(_, _) => extra.dest != [] && Clear(tree, extra.dest)
  }

  /** The file itself, once its place is clear. `was` is the tree the extra is laid over. */
  method LayFile(disk: Disk, extra: Extra, target: Place, base: Option<Place>, ghost start: Fs, ghost was: Tree)
    returns (ok: bool, linked: bool)
    requires WellFormed(start) && Quiet(start, disk.fs, target, true) && Usable(start, base, target)
    requires extra.file.Regular? && extra.dest != [] && !ViaLink(was, extra.dest)
    requires extra.dest in was ==> !was[extra.dest].Dir?
    requires target in disk.fs.trees && disk.fs.trees[target] == WithDirs(was, extra.dest, |extra.dest|) - {extra.dest}
    modifies disk
    ensures Quiet(old(disk.fs), disk.fs, target, true)
    ensures old(disk.past) <= disk.past && AllQuiet(old(disk.fs), disk.past, |old(disk.past)|, target, true)
    ensures ok ==> target in disk.fs.trees && exists e: Entry ::
      LaidOver(was, disk.fs.trees[target], extra, BaseOf(start, base), start.next, disk.fs.inodes, linked, e)
    ensures start.faultless ==> ok
  {
    ghost var bare, mark := disk.fs, |disk.past|;
    var n := FileNode(extra.file.bytes, extra.file.mtime);
    var one, copied;
    ok, one, copied := CopyEntry(disk, extra.dest, n, target, base, start);
    AllLoose(bare, disk.past, mark, target, base.Some?);
    linked := one == 1;
    if !ok { return; }
    ghost var e :| Adds(BaseOf(start, base), start.next, bare, disk.fs, target, extra.dest, n, e, one, copied);
    assert disk.fs.trees[target] == WithDirs(was, extra.dest, |extra.dest|)[extra.dest := e];
    assert LaidOver(was, disk.fs.trees[target], extra, BaseOf(start, base), start.next, disk.fs.inodes, linked, e);
  }

  /** copyExtra. */
  method CopyExtra(disk: Disk, extra: Extra, target: Place, base: Option<Place>, ghost start: Fs) returns (r: Laid)
    requires WellFormed(start) && Quiet(start, disk.fs, target, true) && IsFolder(disk.fs, target)
    requires Usable(start, base, target)
    modifies disk
    ensures Quiet(old(disk.fs), disk.fs, target, true)
    ensures old(disk.past) <= disk.past && AllQuiet(old(disk.fs), disk.past, |old(disk.past)|, target, true)
    ensures r.Absent? ==> disk.fs == old(disk.fs) && extra.file.Missing?
    ensures r.Put? ==>
      && extra.file.Regular? && target in disk.fs.trees
      && exists e: Entry :: LaidOver(old(disk.fs).trees[target], disk.fs.trees[target], extra, BaseOf(start, base),
          start.next, disk.fs.inodes, r.linked, e)
    ensures old(disk.fs).faultless && Placeable(old(disk.fs).trees[target], extra) ==> !r.Failed?
  {
    ghost var was, from := disk.fs, |disk.past|;
    var trouble: bool := *;
    if (trouble && !disk.fs.faultless) || extra.file.Irregular?
        || (extra.file.Regular? && extra.dest == []) { return Failed; }
    if extra.file.Missing? { return Absent; }
    var ready := MakeRoom(disk, extra.dest, target);
    if !ready { return Failed; }
    ghost var bare, mark := disk.fs, |disk.past|;
    QuietTrans(start, was, bare, target, true);
    var ok, linked := LayFile(disk, extra, target, base, start, was.trees[target]);
    QuietTrans(was, bare, disk.fs, target, true);
    AllQuietTrans(was, bare, disk.past, from, mark, target, true);
    var unsynced: bool := *;
    return if !ok || (unsynced && !disk.fs.faultless) then Failed else Put(linked);
  }

  lemma ViaLinkBelow(a: Tree, b: Tree, dest: Path)
    requires b == WithDirs(a, dest, |dest|) && !ViaLink(b, dest)
    ensures !ViaLink(a, dest)
  {
    forall k | 0 <= k < |dest| ensures !(dest[..k] in a && a[dest[..k]].Symlink?) {
      if dest[..k] in a { assert b[dest[..k]] == a[dest[..k]]; }
    }
  }

  /** The unpublished tree is a faithful copy of `nodes` and the counters describe it. */
  ghost predicate Staged(start: Fs, fs: Fs, target: Place, base: Seen, nodes: map<Path, Node>, c: Counters) {
    && Quiet(start, fs, target, true) && IsFolder(fs, target)
    && Copies(base, start.next, fs.inodes, fs.trees[target], nodes)
    && Reconciled(c, base, fs.trees[target], start.next)
    && c.files == c.linked + c.copied
  }

  lemma OverlayCopies(base: Seen, bound: nat, older: map<nat, Inode>, inodes: map<nat, Inode>, before: Tree,
                      after: Tree, nodes: map<Path, Node>, extra: Extra, linked: bool, e: Entry)
    requires Copies(base, bound, older, before, nodes) && Extends(older, inodes)
    requires extra.file.Regular? && LaidOver(before, after, extra, base, bound, inodes, linked, e)
    ensures Copies(base, bound, inodes, after, Overlay(nodes, extra))
  {
    forall p | p in after ensures Faithful(base, bound, inodes, p, after[p], Overlay(nodes, extra)[p]) {
      if p != extra.dest && p in before {
        assert Faithful(base, bound, older, p, before[p], nodes[p]);
      }
    }
  }

  /** Whether the extra took the place of a file or link, and whether that was one the
      walk had linked. */
  ghost predicate Replaced(before: Tree, dest: Path, base: Seen, bound: nat, had: bool, wasLinked: bool) {
    && had == (dest in before)
    && (!Crosses(base.tree, dest) && had ==> wasLinked == (before[dest].File? && before[dest].ino < bound))
  }

  lemma OverlayStraight(base: Seen, before: Tree, after: Tree, dest: Path, e: Entry)
    requires dest != [] && e.File? && after == WithDirs(before, dest, |dest|)[dest := e]
    requires Straight(base, after)
    ensures !Crosses(base.tree, dest)
    ensures forall q | q in before && before[q].File? && q != dest :: !Crosses(base.tree, q)
  {
    assert dest in after;
    forall q | q in before && before[q].File? && q != dest ensures !Crosses(base.tree, q) {
      assert q in after && after[q] == before[q];
    }
  }

  lemma OverlaySums(before: Tree, after: Tree, dest: Path, e: Entry, bound: nat)
    requires dest != [] && e.File? && after == WithDirs(before, dest, |dest|)[dest := e]
    requires dest in before ==> !before[dest].Dir?
    ensures |NonDirs(after)| == |NonDirs(before)| + (if dest in before then 0 else 1)
    ensures |Shared(after, bound)| == |Shared(before, bound)| + (if e.ino < bound then 1 else 0)
                                      - (if dest in before && before[dest].File? && before[dest].ino < bound
                                         then 1 else 0)
  {
    var bare := WithDirs(before, dest, |dest|) - {dest};
    BareCounts(before, dest, bound);
    assert after == bare[dest := e];
    CountNew(bare, dest, e, bound);
  }

  lemma BareCounts(before: Tree, dest: Path, bound: nat)
    requires dest != []
    ensures var bare := WithDirs(before, dest, |dest|) - {dest};
            && |NonDirs(bare)| == |NonDirs(before)| - (if dest in before && !before[dest].Dir? then 1 else 0)
            && |Shared(bare, bound)| == |Shared(before, bound)|
                 - (if dest in before && before[dest].File? && before[dest].ino < bound then 1 else 0)
  {
    BareSets(before, dest, bound);
    OneGone(NonDirs(before), dest);
    OneGone(Shared(before, bound), dest);
  }

  lemma BareSets(before: Tree, dest: Path, bound: nat)
    requires dest != []
    ensures var bare := WithDirs(before, dest, |dest|) - {dest};
            NonDirs(bare) == NonDirs(before) - {dest} && Shared(bare, bound) == Shared(before, bound) - {dest}
  {
  }

  lemma OneGone(s: set<Path>, p: Path)
    ensures |s - {p}| == |s| - if p in s then 1 else 0
  {
    if p !in s { assert s - {p} == s; }
  }

  lemma OverlayCounts(base: Seen, bound: nat, inodes: map<nat, Inode>, before: Tree, after: Tree, extra: Extra,
                      linked: bool, e: Entry, c: Counters, had: bool, wasLinked: bool, c': Counters)
    requires extra.file.Regular? && LaidOver(before, after, extra, base, bound, inodes, linked, e)
    requires Reconciled(c, base, before, bound)
    requires Replaced(before, extra.dest, base, bound, had, wasLinked)
    requires c'.linked == c.linked + (if linked then 1 else 0) - (if had && wasLinked then 1 else 0)
    requires c'.copied == c.copied + (if linked then 0 else 1) - (if had && !wasLinked then 1 else 0)
    ensures Reconciled(c', base, after, bound)
  {
    var dest := extra.dest;
    OverlaySums(before, after, dest, e, bound);
    if Straight(base, after) {
      OverlayStraight(base, before, after, dest, e);
      if dest in before && before[dest].File? { assert Straight(base, before); }
      assert Straight(base, before);
    }
  }
}
