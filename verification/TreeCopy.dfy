/** Writing one tree: what the walk copies, what it shares with the previous
    snapshot, and why nothing that existed before is touched. */
module TreeCopy {
  import opened Options
  import opened FileSystem

  /** A quiescent tree as the walk meets it: each path once. */
  datatype Source = Source(nodes: map<Path, Node>, order: seq<Path>)

  ghost predicate Walkable(src: Source) {
    && [] in src.nodes && src.nodes[[]].DirNode?
    && src.order != [] && src.order[0] == []
    && (forall p :: p in src.order <==> p in src.nodes)
    && (forall i, j | 0 <= i < j < |src.order| :: src.order[i] != src.order[j])
  }

  /** Sockets, fifos and devices are not data and are skipped. */
  function Kept(nodes: map<Path, Node>): map<Path, Node> {
    map p | p in nodes && !nodes[p].SpecialNode? :: nodes[p]
  }

  /** `s` differs from `before` only inside the tree `target` and in new inodes; unless
      `linking`, that tree has come to name no older inode. */
  ghost predicate Quiet(before: Fs, s: Fs, target: Place, linking: bool) {
    && WellFormed(s)
    && Extends(before.inodes, s.inodes)
    && before.next <= s.next
    && s.trees - {target} == before.trees - {target}
    && s.links == before.links && s.faultless == before.faultless
    && (!linking ==> NoneAdopted(before, s, target))
  }

  ghost predicate NoneAdopted(before: Fs, s: Fs, target: Place) {
    forall i | i in Inos(TreeAt(s, target)) :: before.next <= i || i in Inos(TreeAt(before, target))
  }

  ghost predicate AllQuiet(before: Fs, past: seq<Fs>, from: nat, target: Place, linking: bool) {
    forall k | from <= k < |past| :: Quiet(before, past[k], target, linking)
  }

  /** The newest snapshot as a run finds it: its tree, what paths through its links lead
      to, the files there are, and whether a link call that can succeed always does. */
  datatype Seen = Seen(tree: Tree, beyond: imap<Path, Entry>, inodes: map<nat, Inode>, always: bool)

  ghost function Look(base: Seen, p: Path): Option<Entry> {
    if ViaLink(base.tree, p) then if p in base.beyond then Some(base.beyond[p]) else None
    else if p in base.tree then Some(base.tree[p])
    else None
  }

  /** Looking the path up in the base finds a file of the same size and exactly the same
      time. */
  ghost predicate Shareable(base: Seen, p: Path, bytes: seq<int>, mtime: int) {
    var found := Look(base, p);
    && found.Some? && found.value.File? && found.value.ino in base.inodes
    && |base.inodes[found.value.ino].bytes| == |bytes| && base.inodes[found.value.ino].mtime == mtime
  }

  /** Entry `e` was written for node `n`: shared with what the lookup found, or copied
      into an inode numbered `bound` or higher. */
  ghost predicate Faithful(base: Seen, bound: nat, inodes: map<nat, Inode>, p: Path, e: Entry, n: Node) {
    match n
    case DirNode => e.Dir?
    case LinkNode(to) => e == Symlink(to)
    case FileNode(bytes, mtime) =>
      && e.File?
      && if Shareable(base, p, bytes, mtime) && (base.always || e.ino < bound) then Look(base, p) == Some(e)
         else bound <= e.ino && e.ino in inodes && inodes[e.ino] == Inode(bytes, mtime)
    case SpecialNode => false
  }

  ghost predicate Copies(base: Seen, bound: nat, inodes: map<nat, Inode>, tree: Tree, nodes: map<Path, Node>) {
    && tree.Keys == nodes.Keys
    && forall p | p in tree :: Faithful(base, bound, inodes, p, tree[p], nodes[p])
  }

  function NonDirs(tree: Tree): set<Path> {
    set p | p in tree && !tree[p].Dir?
  }

  /** Paths whose file existed before inode number `bound` was handed out. */
  function Shared(tree: Tree, bound: nat): set<Path> {
    set p | p in tree && tree[p].File? && tree[p].ino < bound
  }

  function TreeAt(fs: Fs, q: Place): Tree {
    if q in fs.trees then fs.trees[q] else map[]
  }

  /** What there is to share with; no base shares nothing. */
  ghost function BaseOf(fs: Fs, base: Option<Place>): Seen {
    if base.None? then Seen(map[], imap[], map[], fs.faultless)
    else
      Seen(TreeAt(fs, base.value),
           imap p: Path | Beyond(fs, base.value, p).Some? :: Beyond(fs, base.value, p).value,
           fs.inodes, fs.faultless)
  }

  /** A base is a published snapshot, and only staging trees are built on one. */
  predicate Usable(fs: Fs, base: Option<Place>, target: Place) {
    base.Some? ==> base.value in fs.trees && base.value.Stamp? && target.Staging?
  }

  /** The published snapshots and all that is outside the store are as they were. */
  ghost predicate SamePlaces(a: Fs, b: Fs) {
    && b.links == a.links && b.faultless == a.faultless
    && forall q: Place | q.Stamp? || q.Outside? ::
        (q in a.trees <==> q in b.trees) && (q in a.trees ==> b.trees[q] == a.trees[q])
  }

  lemma FoundSame(a: Fs, b: Fs, q: Place, p: Path)
    requires SamePlaces(a, b) && q.Stamp?
    ensures Beyond(b, q, p) == Beyond(a, q, p) && Found(b, q, p) == Found(a, q, p)
  {
  }

  lemma BaseSame(a: Fs, b: Fs, base: Option<Place>)
    requires SamePlaces(a, b) && b.inodes == a.inodes && (base.Some? ==> base.value.Stamp?)
    ensures BaseOf(b, base) == BaseOf(a, base)
  {
    if base.Some? {
      forall p: Path ensures Beyond(b, base.value, p) == Beyond(a, base.value, p) { FoundSame(a, b, base.value, p); }
      assert BaseOf(b, base).beyond == BaseOf(a, base).beyond;
    }
  }

  lemma LookIsFound(fs: Fs, q: Place, p: Path)
    requires q in fs.trees
    ensures Look(BaseOf(fs, Some(q)), p) == Found(fs, q, p)
  {
  }

  lemma QuietPlaces(a: Fs, b: Fs, target: Place)
    requires Quiet(a, b, target, true) && !target.Stamp? && !target.Outside?
    ensures SamePlaces(a, b)
  {
    forall q: Place | q.Stamp? || q.Outside?
      ensures (q in a.trees <==> q in b.trees) && (q in a.trees ==> b.trees[q] == a.trees[q])
    {
      assert q in a.trees <==> q in a.trees - {target};
      assert q in b.trees <==> q in b.trees - {target};
      if q in a.trees { assert (a.trees - {target})[q] == (b.trees - {target})[q]; }
    }
  }

  datatype Counters = Counters(files: int, linked: int, copied: int)

  lemma QuietTrans(a: Fs, b: Fs, c: Fs, target: Place, linking: bool)
    requires Quiet(a, b, target, linking) && Quiet(b, c, target, linking)
    ensures Quiet(a, c, target, linking)
  {
  }

  lemma AllQuietTrans(a: Fs, b: Fs, past: seq<Fs>, from: nat, mid: nat, target: Place, linking: bool)
    requires Quiet(a, b, target, linking) && mid <= |past|
    requires AllQuiet(a, past[..mid], from, target, linking) && AllQuiet(b, past, mid, target, linking)
    ensures AllQuiet(a, past, from, target, linking)
  {
    forall k | from <= k < |past| ensures Quiet(a, past[k], target, linking) {
      if k < mid { assert past[k] == past[..mid][k]; } else { QuietTrans(a, b, past[k], target, linking); }
    }
  }

  lemma AllLoose(a: Fs, past: seq<Fs>, from: nat, target: Place, linking: bool)
    requires AllQuiet(a, past, from, target, linking)
    ensures AllQuiet(a, past, from, target, true)
  {
    forall k | from <= k < |past| ensures Quiet(a, past[k], target, true) { assert Quiet(a, past[k], target, linking); }
  }

  /** link: share the base's file when size and time agree exactly; any failure
      falls back to a copy. */
  method TryLink(disk: Disk, base: Place, p: Path, target: Place, bytes: seq<int>, mtime: int) returns (linked: bool)
    requires WellFormed(disk.fs)
    requires target in disk.fs.trees && p !in disk.fs.trees[target]
    requires base in disk.fs.trees && base != target
    modifies disk
    ensures Quiet(old(disk.fs), disk.fs, target, true)
    ensures old(disk.past) <= disk.past && AllQuiet(old(disk.fs), disk.past, |old(disk.past)|, target, true)
    ensures !linked ==> disk.fs == old(disk.fs)
    ensures linked ==> Alike(old(disk.fs), Found(old(disk.fs), base, p), bytes, mtime)
                       && disk.fs == PutEntry(old(disk.fs), target, p, Found(old(disk.fs), base, p).value)
    ensures old(disk.fs).faultless && Alike(old(disk.fs), Found(old(disk.fs), base, p), bytes, mtime) ==> linked
  {
    var previous := disk.Lstat(base, p);
    if previous.None? || !previous.value.File? { return false; }
    var ino := previous.value.ino;
    var info := disk.fs.inodes[ino];
    if |info.bytes| != |bytes| || info.mtime != mtime { return false; }
    linked := disk.HardLink(ino, target, p);
  }

  /** A file with this size and time. */
  predicate Alike(fs: Fs, e: Option<Entry>, bytes: seq<int>, mtime: int) {
    && e.Some? && e.value.File? && e.value.ino in fs.inodes
    && |fs.inodes[e.value.ino].bytes| == |bytes| && fs.inodes[e.value.ino].mtime == mtime
  }

  /** copyFile: create narrow, write, then stamp the source's modification time. */
  method CopyFile(disk: Disk, p: Path, target: Place, bytes: seq<int>, mtime: int) returns (ok: bool)
    requires WellFormed(disk.fs)
    requires target in disk.fs.trees && p !in disk.fs.trees[target]
    modifies disk
    ensures Quiet(old(disk.fs), disk.fs, target, false)
    ensures old(disk.past) <= disk.past && AllQuiet(old(disk.fs), disk.past, |old(disk.past)|, target, false)
    ensures ok ==> disk.fs == PutEntry(PutInode(old(disk.fs), old(disk.fs).next,
        Inode(bytes, mtime)).(next := old(disk.fs).next + 1),
                                       target, p, File(old(disk.fs).next))
    ensures old(disk.fs).faultless ==> ok
  {
    ghost var was := disk.fs;
    var to := disk.OpenTruncated(target, p);
    if to.None? { return false; }
    ghost var created, mark := disk.fs, |disk.past|;
    assert Quiet(was, created, target, false);
    ok := Fill(disk, to.value, bytes, mtime);
    forall k | mark <= k < |disk.past| ensures Quiet(was, disk.past[k], target, false) {
      FilledQuiet(was, created, to.value, disk.past[k], target);
    }
    FilledQuiet(was, created, to.value, disk.fs, target);
  }

  /** Only the contents of one file differ. */
  ghost predicate Filled(a: Fs, ino: nat, b: Fs) {
    exists n :: b == PutInode(a, ino, n)
  }

  lemma FilledQuiet(was: Fs, created: Fs, ino: nat, b: Fs, target: Place)
    requires WellFormed(was) && Quiet(was, created, target, false) && was.next <= ino < created.next && WellFormed(b)
        && Filled(created, ino, b)
    ensures Quiet(was, b, target, false)
  {
  }

  /** The bytes and the time of a file just created. */
  method Fill(disk: Disk, ino: nat, bytes: seq<int>, mtime: int) returns (ok: bool)
    requires WellFormed(disk.fs) && ino in disk.fs.inodes
    modifies disk
    ensures WellFormed(disk.fs) && Filled(old(disk.fs), ino, disk.fs)
    ensures ok ==> disk.fs == PutInode(old(disk.fs), ino, Inode(bytes, mtime))
    ensures old(disk.fs).faultless ==> ok
    ensures old(disk.past) <= disk.past
    ensures forall k | |old(disk.past)| <= k < |disk.past| ::
        WellFormed(disk.past[k]) && Filled(old(disk.fs), ino, disk.past[k])
  {
    ghost var was := disk.fs;
    assert was == PutInode(was, ino, was.inodes[ino]);
    ok := disk.Write(ino, bytes);
    if !ok { return; }
    ghost var written := disk.fs;
    ok := disk.SetTime(ino, mtime);
    assert disk.fs == PutInode(was, ino, disk.fs.inodes[ino]);
  }

  /** No file of `tree` has a path that meets a link in `base`. */
  ghost predicate Straight(base: Seen, tree: Tree) {
    forall p | p in tree && tree[p].File? :: !Crosses(base.tree, p)
  }

  /** The counters describe `tree`: every file and link counted once and, when no
      file's path in the base meets a link, as linked exactly when its inode is older
      than the run. */
  ghost predicate Reconciled(c: Counters, base: Seen, tree: Tree, bound: nat) {
    && c.linked + c.copied == |NonDirs(tree)|
    && (Straight(base, tree) ==> c.linked == |Shared(tree, bound)|)
  }

  lemma CountDir(tree: Tree, p: Path, bound: nat)
    requires p !in tree
    ensures NonDirs(tree[p := Dir]) == NonDirs(tree) && Shared(tree[p := Dir], bound) == Shared(tree, bound)
  {
  }

  lemma CountNew(tree: Tree, p: Path, e: Entry, bound: nat)
    requires p !in tree && !e.Dir?
    ensures |NonDirs(tree[p := e])| == |NonDirs(tree)| + 1
    ensures |Shared(tree[p := e], bound)| == |Shared(tree, bound)| + if e.File? && e.ino < bound then 1 else 0
  {
    assert NonDirs(tree[p := e]) == NonDirs(tree) + {p};
    if e.File? && e.ino < bound {
      assert Shared(tree[p := e], bound) == Shared(tree, bound) + {p};
    } else {
      assert Shared(tree[p := e], bound) == Shared(tree, bound);
    }
  }

  /** What looking up `p` in the base finds now is what it found at the start. */
  lemma BaseFound(start: Fs, s: Fs, target: Place, base: Place, p: Path)
    requires WellFormed(start) && Quiet(start, s, target, true) && Usable(start, Some(base), target)
    ensures base in s.trees && Found(s, base, p) == Look(BaseOf(start, Some(base)), p)
    ensures forall bytes, mtime :: Alike(s, Found(s, base, p), bytes, mtime) <==>
        Shareable(BaseOf(start, Some(base)), p, bytes, mtime)
  {
    QuietPlaces(start, s, target);
    FoundSame(start, s, base, p);
    LookIsFound(start, base, p);
    LookGrounded(start, base, p);
  }

  /** A regular file: linked if that can be done, copied otherwise. */
  method LinkOrCopy(disk: Disk, p: Path, bytes: seq<int>, mtime: int, target: Place, base: Option<Place>,
                    ghost start: Fs)
    returns (ok: bool, shared: bool)
    requires WellFormed(start) && Quiet(start, disk.fs, target, true) && Usable(start, base, target)
    requires target in disk.fs.trees && p !in disk.fs.trees[target]
    modifies disk
    ensures Quiet(old(disk.fs), disk.fs, target, base.Some?)
    ensures old(disk.past) <= disk.past && AllQuiet(old(disk.fs), disk.past, |old(disk.past)|, target, base.Some?)
    ensures ok ==> exists e: Entry ::
      && target in disk.fs.trees && disk.fs.trees[target] == old(disk.fs).trees[target][p := e]
      && Faithful(BaseOf(start, base), start.next, disk.fs.inodes, p, e, FileNode(bytes, mtime))
      && shared == (e.File? && e.ino < start.next)
    ensures start.faultless ==> ok
  {
    ghost var was, seen := disk.fs, BaseOf(start, base);
    shared := false;
    if base.Some? {
      BaseFound(start, was, target, base.value, p);
      LookGrounded(start, base.value, p);
      shared := TryLink(disk, base.value, p, target, bytes, mtime);
      if shared {
        assert Faithful(seen, start.next, disk.fs.inodes, p, Look(seen, p).value, FileNode(bytes, mtime));
        return true, true;
      }
    }
    ghost var mark := |disk.past|;
    ok := CopyFile(disk, p, target, bytes, mtime);
    AllQuietTrans(was, was, disk.past, |old(disk.past)|, mark, target, base.Some?);
    assert ok ==> Faithful(seen, start.next, disk.fs.inodes, p, File(disk.fs.next - 1), FileNode(bytes, mtime));
  }

  /** Entry `e` was added at `p` for node `n`, and counted. */
  ghost predicate Adds(base: Seen, bound: nat, was: Fs, s: Fs, target: Place, p: Path, n: Node, e: Entry,
                       linked: int, copied: int) {
    && TreeAt(s, target) == TreeAt(was, target)[p := e]
    && Faithful(base, bound, s.inodes, p, e, n)
    && linked + copied == (if e.Dir? then 0 else 1)
    && linked == (if e.File? && e.ino < bound then 1 else 0)
  }

  /** One visit of the walk. `start` is the machine as the walk found it. */
  method CopyEntry(disk: Disk, p: Path, n: Node, target: Place, base: Option<Place>, ghost start: Fs)
    returns (ok: bool, linked: int, copied: int)
    requires WellFormed(start) && Quiet(start, disk.fs, target, true) && Usable(start, base, target)
    requires p !in TreeAt(disk.fs, target)
    requires !n.DirNode? ==> target in disk.fs.trees
    modifies disk
    ensures Quiet(old(disk.fs), disk.fs, target, base.Some?)
    ensures old(disk.past) <= disk.past && AllQuiet(old(disk.fs), disk.past, |old(disk.past)|, target, base.Some?)
    ensures ok && n.SpecialNode? ==> disk.fs == old(disk.fs) && linked == copied == 0
    ensures ok && !n.SpecialNode? ==>
      target in disk.fs.trees
      && exists e: Entry :: Adds(BaseOf(start, base), start.next, old(disk.fs), disk.fs, target, p, n, e, linked,
          copied)
    ensures start.faultless ==> ok
  {
    ghost var was := disk.fs;
    ok, linked, copied := true, 0, 0;
    match n
    case SpecialNode =>
    case DirNode =>
      ok := disk.MakeDir(target, p);
      assert ok ==> Adds(BaseOf(start, base), start.next, was, disk.fs, target, p, n, Dir, 0, 0);
    case LinkNode(to) =>
      ok := disk.MakeSymlink(target, p, to);
      copied := 1;
      assert ok ==> Adds(BaseOf(start, base), start.next, was, disk.fs, target, p, n, Symlink(to), 0, 1);
    case FileNode(bytes, mtime) =>
      var shared;
      ok, shared := LinkOrCopy(disk, p, bytes, mtime, target, base, start);
      linked, copied := if shared then 1 else 0, if shared then 0 else 1;
      if ok {
        ghost var e: Entry :|
          && disk.fs.trees[target] == was.trees[target][p := e]
          && Faithful(BaseOf(start, base), start.next, disk.fs.inodes, p, e, n)
          && shared == (e.File? && e.ino < start.next);
        assert Adds(BaseOf(start, base), start.next, was, disk.fs, target, p, n, e, linked, copied);
      }
  }

  /** Lookups find files that are there. */
  lemma LookGrounded(fs: Fs, q: Place, p: Path)
    requires WellFormed(fs) && q in fs.trees
    ensures var e := Look(BaseOf(fs, Some(q)), p); e.Some? && e.value.File? ==>
        e.value.ino in fs.inodes && e.value.ino < fs.next
  {
    LookIsFound(fs, q, p);
  }

  lemma CopiesStep(base: Seen, bound: nat, a: Fs, b: Fs, target: Place, src: Source, i: nat, e: Entry)
    requires Walkable(src) && i < |src.order| && Extends(a.inodes, b.inodes)
    requires !src.nodes[src.order[i]].SpecialNode?
    requires Written(src, i, TreeAt(a, target)) && FaithfulAll(base, bound, a.inodes, TreeAt(a, target), src.nodes)
    requires TreeAt(b, target) == TreeAt(a, target)[src.order[i] := e]
    requires Faithful(base, bound, b.inodes, src.order[i], e, src.nodes[src.order[i]])
    ensures Written(src, i + 1, TreeAt(b, target)) && FaithfulAll(base, bound, b.inodes, TreeAt(b, target), src.nodes)
  {
    WrittenStep(src, i, TreeAt(a, target), e);
    FaithfulStep(base, bound, a.inodes, b.inodes, TreeAt(a, target), src.order[i], e, src.nodes);
  }

  lemma WrittenStep(src: Source, i: nat, tree: Tree, e: Entry)
    requires Walkable(src) && i < |src.order| && !src.nodes[src.order[i]].SpecialNode? && Written(src, i, tree)
    ensures Written(src, i + 1, tree[src.order[i] := e])
  {
    assert src.order[..i + 1] == src.order[..i] + [src.order[i]];
  }

  lemma WrittenSkip(src: Source, i: nat, tree: Tree)
    requires Walkable(src) && i < |src.order| && src.nodes[src.order[i]].SpecialNode? && Written(src, i, tree)
    ensures Written(src, i + 1, tree)
  {
    assert src.order[..i + 1] == src.order[..i] + [src.order[i]];
  }

  lemma FaithfulStep(base: Seen, bound: nat, was: map<nat, Inode>, now: map<nat, Inode>, tree: Tree, p: Path,
                     e: Entry, nodes: map<Path, Node>)
    requires Extends(was, now) && FaithfulAll(base, bound, was, tree, nodes)
    requires p in nodes && Faithful(base, bound, now, p, e, nodes[p])
    ensures FaithfulAll(base, bound, now, tree[p := e], nodes)
  {
    forall q | q in tree && q != p ensures q in nodes && Faithful(base, bound, now, q, tree[q], nodes[q]) {
      assert Faithful(base, bound, was, q, tree[q], nodes[q]);
    }
  }

  /** After `i` visits the tree holds exactly the first `i` paths that are data. */
  ghost predicate Written(src: Source, i: nat, tree: Tree)
    requires Walkable(src) && i <= |src.order|
  {
    forall p :: p in tree <==> p in src.order[..i] && !src.nodes[p].SpecialNode?
  }

  ghost predicate FaithfulAll(base: Seen, bound: nat, inodes: map<nat, Inode>, tree: Tree, nodes: map<Path, Node>) {
    forall p | p in tree :: p in nodes && Faithful(base, bound, inodes, p, tree[p], nodes[p])
  }

  /** What holds of the unpublished tree after `i` visits. */
  ghost predicate Progress(start: Fs, fs: Fs, src: Source, i: nat, target: Place, base: Seen, linking: bool,
                           c: Counters)
    requires Walkable(src) && i <= |src.order|
  {
    && Quiet(start, fs, target, linking)
    && (i > 0 ==> target in fs.trees)
    && Written(src, i, TreeAt(fs, target))
    && FaithfulAll(base, start.next, fs.inodes, TreeAt(fs, target), src.nodes)
    && Reconciled(c, base, TreeAt(fs, target), start.next)
  }

  method Visit(disk: Disk, src: Source, i: nat, target: Place, base: Option<Place>, c: Counters, ghost start: Fs)
    returns (ok: bool, c': Counters)
    requires WellFormed(start) && Walkable(src) && i < |src.order|
    requires Usable(start, base, target)
    requires Progress(start, disk.fs, src, i, target, BaseOf(start, base), base.Some?, c)
    modifies disk
    ensures Quiet(start, disk.fs, target, base.Some?)
    ensures old(disk.past) <= disk.past && AllQuiet(old(disk.fs), disk.past, |old(disk.past)|, target, base.Some?)
    ensures ok ==> Progress(start, disk.fs, src, i + 1, target, BaseOf(start, base), base.Some?, c')
    ensures start.faultless ==> ok
  {
    var p := src.order[i];
    ghost var was := disk.fs;
    assert p !in src.order[..i];
    var linked, copied;
    ok, linked, copied := CopyEntry(disk, p, src.nodes[p], target, base, start);
    QuietTrans(start, was, disk.fs, target, base.Some?);
    c' := Counters(c.files, c.linked + linked, c.copied + copied);
    if !ok { return; }
    if src.nodes[p].SpecialNode? {
      WrittenSkip(src, i, TreeAt(was, target));
    } else {
      Visited(start, was, disk.fs, src, i, target, base, c, linked, copied);
    }
  }

  /** One entry more. */
  lemma Visited(start: Fs, was: Fs, s: Fs, src: Source, i: nat, target: Place, base: Option<Place>, c: Counters,
                linked: int, copied: int)
    requires Walkable(src) && i < |src.order| && !src.nodes[src.order[i]].SpecialNode?
    requires Progress(start, was, src, i, target, BaseOf(start, base), base.Some?, c)
    requires Quiet(was, s, target, base.Some?) && Quiet(start, s, target, base.Some?) && target in s.trees
    requires exists e: Entry ::
        Adds(BaseOf(start, base), start.next, was, s, target, src.order[i], src.nodes[src.order[i]], e, linked, copied)
    ensures Progress(start, s, src, i + 1, target, BaseOf(start, base), base.Some?,
        Counters(c.files, c.linked + linked, c.copied + copied))
  {
    var p, shared := src.order[i], BaseOf(start, base);
    var e :| Adds(shared, start.next, was, s, target, p, src.nodes[p], e, linked, copied);
    assert p !in src.order[..i];
    CopiesStep(shared, start.next, was, s, target, src, i, e);
    CountEntry(TreeAt(was, target), p, e, shared, start.next, c, linked, copied);
  }

  /** copyTree: the whole of `src` under `target`, sharing with `base`. */
  method CopyTree(disk: Disk, src: Source, target: Place, base: Option<Place>) returns (r: Option<Counters>)
    requires WellFormed(disk.fs) && Walkable(src)
    requires target !in disk.fs.trees
    requires Usable(disk.fs, base, target)
    modifies disk
    ensures Quiet(old(disk.fs), disk.fs, target, base.Some?)
    ensures old(disk.past) <= disk.past && AllQuiet(old(disk.fs), disk.past, |old(disk.past)|, target, base.Some?)
    ensures r.Some? ==>
      && target in disk.fs.trees
      && Copies(BaseOf(old(disk.fs), base), old(disk.fs).next, disk.fs.inodes, disk.fs.trees[target], Kept(src.nodes))
      && r.value.files == r.value.linked + r.value.copied
      && Reconciled(r.value, BaseOf(old(disk.fs), base), disk.fs.trees[target], old(disk.fs).next)
    ensures old(disk.fs).faultless ==> r.Some?
  {
    ghost var start := disk.fs;
    ghost var from := |disk.past|;
    var c := Counters(0, 0, 0);
    for i := 0 to |src.order|
      invariant Progress(start, disk.fs, src, i, target, BaseOf(start, base), base.Some?, c)
      invariant old(disk.past) <= disk.past && AllQuiet(start, disk.past, from, target, base.Some?)
    {
      var cancelled: bool := *;
      if cancelled && !disk.fs.faultless { return None; }
      ghost var was, mark := disk.fs, |disk.past|;
      var ok;
      ok, c := Visit(disk, src, i, target, base, c, start);
      AllQuietTrans(start, was, disk.past, from, mark, target, base.Some?);
      if !ok { return None; }
    }
    var unsynced: bool := *;
    if unsynced && !disk.fs.faultless { return None; }
    WrittenAll(src, TreeAt(disk.fs, target));
    r := Some(c.(files := c.linked + c.copied));
  }

  lemma WrittenAll(src: Source, tree: Tree)
    requires Walkable(src) && Written(src, |src.order|, tree)
    ensures tree.Keys == Kept(src.nodes).Keys
  {
    assert src.order[..|src.order|] == src.order;
  }

  lemma CountEntry(tree: Tree, p: Path, e: Entry, base: Seen, bound: nat, c: Counters, l: int, k: int)
    requires p !in tree && Reconciled(c, base, tree, bound)
    requires l + k == (if e.Dir? then 0 else 1)
    requires l == if e.File? && e.ino < bound then 1 else 0
    ensures Reconciled(Counters(c.files, c.linked + l, c.copied + k), base, tree[p := e], bound)
  {
    if e.Dir? { CountDir(tree, p, bound); } else { CountNew(tree, p, e, bound); }
    if Straight(base, tree[p := e]) {
      forall q | q in tree && tree[q].File? ensures !Crosses(base.tree, q) { assert q in tree[p := e]; }
      assert p in tree[p := e];
    }
  }
}
