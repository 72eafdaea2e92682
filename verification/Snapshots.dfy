/** Taking a snapshot: sweep what was left half-written, build under a staging name,
    publish with one rename, rotate the oldest out. */
module Snapshots {
  import opened Options
  import opened FileSystem
  import opened TreeCopy
  import opened Extras

  /** One call: what the source held (nothing if it does not exist), what the extras
      held, and the second the call was made in. */
  datatype Run = Run(source: Option<Source>, extras: seq<Extra>, at: int)

  datatype Outcome = Skipped | Failed | Taken(counters: Counters, rotated: bool)

  predicate LooksPartial(name: string) {
    |name| >= 8 && name[0] == '.' && name[|name| - 8..] == ".partial"
  }

  /** A name that starts with a dot and ends in `.partial`; the two may overlap. */
  lemma PartialNames(name: string)
    ensures LooksPartial(name) <==> (exists a :: name == "." + a) && (exists b :: name == b + ".partial")
  {
    if LooksPartial(name) {
      assert name == "." + name[1..] && name == name[..|name| - 8] + ".partial";
    }
  }

  predicate Sweepable(q: Place) {
    q.Staging? || (q.Stray? && LooksPartial(q.name))
  }

  /** The finished snapshots: only names are read. */
  function Published(fs: Fs): set<int> {
    set q | q in fs.trees && q.Stamp? && IsFolder(fs, q) :: q.at
  }

  ghost predicate IsMax(s: set<int>, m: int) {
    m in s && forall x | x in s :: x <= m
  }

  lemma {:induction false} MaxExists(s: set<int>)
    requires s != {}
    ensures exists m :: IsMax(s, m)
  {
    if forall x: int :: x !in s { assert false; }
    var y :| y in s;
    var rest := s - {y};
    if rest == {} {
      assert s == {y};
      assert IsMax(s, y);
    } else {
      MaxExists(rest);
      var m :| IsMax(rest, m);
      assert s == rest + {y};
      assert IsMax(s, if y <= m then m else y);
    }
  }

  ghost function MaxOf(s: set<int>): (m: int)
    requires s != {}
    ensures m in s && forall x | x in s :: x <= m
  {
    MaxExists(s);
    var m :| IsMax(s, m);
    m
  }

  ghost function NewestPlace(fs: Fs): Option<Place> {
    if Published(fs) == {} then None else Some(Stamp(MaxOf(Published(fs))))
  }

  function Above(s: set<int>, t: int): set<int> {
    set u | u in s && t < u
  }

  /** The `keep` greatest members of `s`. */
  function Top(s: set<int>, keep: nat): set<int> {
    set t | t in s && |Above(s, t)| < keep
  }

  /** What a run that never finished left behind, and nothing that is published. */
  lemma StagingIsSwept(at: int)
    ensures Sweepable(Staging(at)) && !Sweepable(Stamp(at)) && forall path :: !Sweepable(Outside(path))
    ensures Sweepable(Stray(".20240102T030405Z.partial")) && !Sweepable(Stray("20240102T030405Z.partial"))
    ensures !Sweepable(Stray(".20240102T030405Z.part"))
  {
    var n := ".20240102T030405Z.partial";
    assert n[|n| - 8..] == ".partial";
    var m := ".20240102T030405Z.part";
    assert m[|m| - 8] == '0';
  }

  /** Nothing outside the store, and nothing the store does not own, has changed. */
  ghost predicate OthersKept(before: Fs, s: Fs) {
    forall q: Place | !q.Stamp? && !Sweepable(q) ::
      (q in before.trees <==> q in s.trees) && (q in before.trees ==> s.trees[q] == before.trees[q])
  }

  /** The tree published for `run` is the plain full copy, file by file either fresh
      or shared with the newest snapshot there was. */
  ghost predicate Complete(before: Fs, s: Fs, run: Run) {
    && run.source.Some?
    && IsFolder(s, Stamp(run.at))
    && Copies(BaseOf(before, NewestPlace(before)), before.next, s.inodes, s.trees[Stamp(run.at)],
              Expected(run.source.value.nodes, run.extras))
  }

  ghost predicate Names(before: Fs, s: Fs, run: Run) {
    forall t | Stamp(t) in s.trees ::
      || (Stamp(t) in before.trees && s.trees[Stamp(t)] == before.trees[Stamp(t)])
      || (t == run.at && Complete(before, s, run))
  }

  ghost predicate Losses(before: Fs, s: Fs, run: Run, keep: nat) {
    forall t | Stamp(t) in before.trees && Stamp(t) !in s.trees ::
      t == run.at || keep <= |Above(Published(s), t)|
  }

  /** Every state a run may leave behind, whether it finished, failed or was killed:
      no older inode has changed, a snapshot is either as it was or the complete new
      one, and one that is gone was replaced by its namesake or rotated out. */
  ghost predicate Undisturbed(before: Fs, s: Fs, run: Run, keep: nat) {
    && WellFormed(s) && Extends(before.inodes, s.inodes) && before.next <= s.next
    && s.links == before.links && s.faultless == before.faultless
    && OthersKept(before, s)
    && Names(before, s, run)
    && Losses(before, s, run, keep)
  }

  ghost predicate AllUndisturbed(before: Fs, past: seq<Fs>, from: nat, run: Run, keep: nat) {
    forall k | from <= k < |past| :: Undisturbed(before, past[k], run, keep)
  }

  /** Only staging trees and new inodes differ. */
  ghost predicate Idle(before: Fs, s: Fs) {
    && WellFormed(s) && Extends(before.inodes, s.inodes) && before.next <= s.next
    && s.links == before.links && s.faultless == before.faultless
    && forall q: Place | !Sweepable(q) ::
         (q in before.trees <==> q in s.trees) && (q in before.trees ==> s.trees[q] == before.trees[q])
  }

  ghost predicate AllIdle(before: Fs, past: seq<Fs>, from: nat) {
    forall k | from <= k < |past| :: Idle(before, past[k])
  }

  lemma IdleQuiet(a: Fs, b: Fs, c: Fs, target: Place)
    requires Idle(a, b) && Quiet(b, c, target, true) && Sweepable(target)
    ensures Idle(a, c)
  {
    forall q: Place | !Sweepable(q)
      ensures (q in a.trees <==> q in c.trees) && (q in a.trees ==> c.trees[q] == a.trees[q])
    {
      assert q in b.trees <==> q in b.trees - {target};
      assert q in c.trees <==> q in c.trees - {target};
      if q in c.trees { assert (c.trees - {target})[q] == (b.trees - {target})[q]; }
    }
  }

  lemma AllIdleQuiet(a: Fs, b: Fs, past: seq<Fs>, from: nat, mid: nat, target: Place)
    requires Idle(a, b) && Sweepable(target) && mid <= |past|
    requires AllIdle(a, past[..mid], from) && AllQuiet(b, past, mid, target, true)
    ensures AllIdle(a, past, from)
  {
    forall k | from <= k < |past| ensures Idle(a, past[k]) {
      if k < mid { assert past[k] == past[..mid][k]; } else { IdleQuiet(a, b, past[k], target); }
    }
  }

  lemma IdlePlaces(a: Fs, b: Fs)
    requires Idle(a, b)
    ensures SamePlaces(a, b)
  {
    forall q: Place | q.Stamp? || q.Outside? ensures !Sweepable(q) {}
  }

  lemma SamePublished(a: Fs, b: Fs)
    requires Idle(a, b)
    ensures Published(a) == Published(b)
  {
    forall t ensures t in Published(a) <==> t in Published(b) {
      assert !Sweepable(Stamp(t));
      if t in Published(a) { assert IsFolder(b, Stamp(t)); }
      if t in Published(b) { assert IsFolder(a, Stamp(t)); }
    }
  }

  ghost predicate Descending(l: seq<int>) {
    forall i, j | 0 <= i < j < |l| :: l[i] > l[j]
  }

  function Elems(l: seq<int>): set<int> {
    set t | t in l
  }

  /** Its place in the order. */
  method Insert(l: seq<int>, t: int) returns (r: seq<int>)
    requires Descending(l) && t !in Elems(l)
    ensures Descending(r) && Elems(r) == Elems(l) + {t}
  {
    var i := 0;
    while i < |l| && l[i] > t
      invariant 0 <= i <= |l| && forall j | 0 <= j < i :: l[j] > t
    {
      i := i + 1;
    }
    assert i < |l| ==> l[i] in Elems(l) && l[i] != t;
    r := l[..i] + [t] + l[i..];
    InsertedElems(l, i, t);
  }

  lemma InsertedElems(l: seq<int>, i: nat, t: int)
    requires i <= |l|
    ensures Elems(l[..i] + [t] + l[i..]) == Elems(l) + {t}
  {
    assert l == l[..i] + l[i..];
  }

  /** List: the timestamps in the folder, newest first. */
  method List(disk: Disk) returns (l: seq<int>)
    ensures Descending(l) && Elems(l) == Published(disk.fs)
    ensures forall t :: t in l <==>
      Stamp(t) in disk.fs.trees && [] in disk.fs.trees[Stamp(t)] && disk.fs.trees[Stamp(t)][[]] == Dir
  {
    l := [];
    var todo := Published(disk.fs);
    while todo != {}
      invariant Descending(l) && todo <= Published(disk.fs)
      invariant Elems(l) == Published(disk.fs) - todo
    {
      var t :| t in todo;
      l := Insert(l, t);
      todo := todo - {t};
    }
    forall t ensures t in l <==> IsFolder(disk.fs, Stamp(t)) { assert t in l <==> t in Elems(l); }
  }

  /** sweepPartials: remove the trees of runs that never finished. */
  method Sweep(disk: Disk) returns (ok: bool)
    requires WellFormed(disk.fs)
    modifies disk
    ensures Idle(old(disk.fs), disk.fs) && disk.fs.next == old(disk.fs).next && disk.fs.inodes == old(disk.fs).inodes
    ensures old(disk.fs).faultless ==> ok
    ensures ok ==> forall q | q in disk.fs.trees && Sweepable(q) :: !IsFolder(disk.fs, q)
    ensures old(disk.past) <= disk.past && AllIdle(old(disk.fs), disk.past, |old(disk.past)|)
  {
    var todo := set q | q in disk.fs.trees && Sweepable(q) && IsFolder(disk.fs, q);
    ghost var start, from := disk.fs, |disk.past|;
    while todo != {}
      invariant Idle(start, disk.fs) && disk.fs.next == start.next && disk.fs.inodes == start.inodes
      invariant old(disk.past) <= disk.past && AllIdle(start, disk.past, from)
      invariant todo == set q | q in disk.fs.trees && Sweepable(q) && IsFolder(disk.fs, q)
    {
      var q :| q in todo;
      ok := disk.RemoveAll(q);
      if !ok { return; }
      todo := todo - {q};
    }
    forall q | q in disk.fs.trees && Sweepable(q) ensures !IsFolder(disk.fs, q) { assert q !in todo; }
    return true;
  }

  /** What stands at the destination, and whether the walk linked it, read before the
      extra is laid so that the counters stay about the finished tree. */
  method Standing(disk: Disk, extra: Extra, target: Place, base: Option<Place>, ghost start: Fs,
                  ghost nodes: map<Path, Node>)
    returns (had: bool, wasLinked: bool)
    requires WellFormed(start) && Quiet(start, disk.fs, target, true) && target in disk.fs.trees
    requires Copies(BaseOf(start, base), start.next, disk.fs.inodes, disk.fs.trees[target], nodes)
    requires Usable(start, base, target)
    ensures !ViaLink(disk.fs.trees[target], extra.dest) && extra.file.Regular? ==>
      Replaced(disk.fs.trees[target], extra.dest, BaseOf(start, base), start.next, had, wasLinked)
  {
    var previous := disk.Lstat(target, extra.dest);
    had, wasLinked := previous.Some?, false;
    if previous.Some? && previous.value.File? && extra.file.Regular? && base.Some? {
      BaseStands(start, disk.fs, target, base.value);
      var older := disk.Stat(base.value, extra.dest);
      wasLinked := older == previous;
    }
    if !ViaLink(disk.fs.trees[target], extra.dest) && extra.file.Regular? {
      WasLinked(start, disk.fs, target, base, nodes, extra.dest, had, wasLinked);
    }
  }

  lemma BaseStands(start: Fs, s: Fs, target: Place, base: Place)
    requires Quiet(start, s, target, true) && base in start.trees && base != target
    ensures base in s.trees && s.trees[base] == start.trees[base]
  {
    assert base in start.trees - {target};
    assert (s.trees - {target})[base] == (start.trees - {target})[base];
  }

  /** The loop of Snapshot over the extras, one round. */
  method AddExtra(disk: Disk, extra: Extra, target: Place, base: Option<Place>, c: Counters, ghost start: Fs,
                  ghost nodes: map<Path, Node>) returns (ok: bool, c': Counters)
    requires WellFormed(start) && Staged(start, disk.fs, target, BaseOf(start, base), nodes, c)
    requires Usable(start, base, target)
    modifies disk
    ensures Quiet(old(disk.fs), disk.fs, target, true)
    ensures old(disk.past) <= disk.past && AllQuiet(old(disk.fs), disk.past, |old(disk.past)|, target, true)
    ensures ok ==> Staged(start, disk.fs, target, BaseOf(start, base), Overlay(nodes, extra), c')
    ensures start.faultless && Fits(nodes, extra) ==> ok
  {
    ghost var was := disk.fs;
    if Fits(nodes, extra) { FitsPlaceable(BaseOf(start, base), start.next, was.inodes, was.trees[target], nodes,
        extra); }
    var had, wasLinked := Standing(disk, extra, target, base, start, nodes);
    var r := CopyExtra(disk, extra, target, base, start);
    c' := c;
    if r.Put? {
      c' := Counters(c.files + 1, c.linked + (if r.linked then 1 else 0), c.copied + (if r.linked then 0 else 1));
      if had {
        c' := Counters(c'.files - 1, c'.linked - (if wasLinked then 1 else 0),
            c'.copied - (if wasLinked then 0 else 1));
      }
      ExtraStaged(start, was, disk.fs, target, BaseOf(start, base), nodes, extra, r.linked, c, had, wasLinked, c');
    }
    return !r.Failed?, c';
  }

  /** Nothing but a failing call keeps an extra from being laid over this data. */
  ghost predicate Fits(nodes: map<Path, Node>, extra: Extra) {
    match extra.file
    case Missing => true
    case Irregular => false
    case Regular(_, _) =>
      && extra.dest != [] && (extra.dest in nodes ==> !nodes[extra.dest].DirNode?)
      && forall k | 1 <= k < |extra.dest| && extra.dest[..k] in nodes :: nodes[extra.dest[..k]].DirNode?
  }

  /** Each extra fits what the walk and the extras before it have left. */
  ghost predicate AllFit(nodes: map<Path, Node>, extras: seq<Extra>) {
    forall i | 0 <= i < |extras| :: Fits(Expected(nodes, extras[..i]), extras[i])
  }

  lemma FitsPlaceable(base: Seen, bound: nat, inodes: map<nat, Inode>, tree: Tree, nodes: map<Path, Node>, extra: Extra)
    requires Copies(base, bound, inodes, tree, nodes) && Fits(nodes, extra)
    ensures Placeable(tree, extra)
  {
    if extra.file.Regular? {
      forall p | p in tree ensures tree[p].Dir? <==> nodes[p].DirNode? {
        assert Faithful(base, bound, inodes, p, tree[p], nodes[p]);
      }
    }
  }

  lemma ExtraStaged(start: Fs, was: Fs, s: Fs, target: Place, base: Seen, nodes: map<Path, Node>, extra: Extra,
                    linked: bool, c: Counters, had: bool, wasLinked: bool, c': Counters)
    requires Staged(start, was, target, base, nodes, c) && Quiet(was, s, target, true) && target in s.trees
    requires extra.file.Regular?
    requires exists e: Entry ::
        LaidOver(was.trees[target], s.trees[target], extra, base, start.next, s.inodes, linked, e)
    requires !ViaLink(was.trees[target], extra.dest) ==>
        Replaced(was.trees[target], extra.dest, base, start.next, had, wasLinked)
    requires c'.linked == c.linked + (if linked then 1 else 0) - (if had && wasLinked then 1 else 0)
    requires c'.copied == c.copied + (if linked then 0 else 1) - (if had && !wasLinked then 1 else 0)
    requires c'.files == c'.linked + c'.copied
    ensures Staged(start, s, target, base, Overlay(nodes, extra), c')
  {
    var e :| LaidOver(was.trees[target], s.trees[target], extra, base, start.next, s.inodes, linked, e);
    QuietTrans(start, was, s, target, true);
    OverlayCopies(base, start.next, was.inodes, s.inodes, was.trees[target], s.trees[target], nodes, extra, linked, e);
    OverlayCounts(base, start.next, s.inodes, was.trees[target], s.trees[target], extra, linked, e, c, had,
        wasLinked, c');
  }

  lemma WasLinked(start: Fs, was: Fs, target: Place, base: Option<Place>, nodes: map<Path, Node>, dest: Path,
                  had: bool, wasLinked: bool)
    requires WellFormed(start)
    requires target in was.trees && Copies(BaseOf(start, base), start.next, was.inodes, was.trees[target], nodes)
    requires base.Some? ==> base.value in start.trees
    requires had == (dest in was.trees[target])
    requires had && was.trees[target][dest].File? && base.Some? && !Crosses(BaseOf(start, base).tree, dest) ==>
      wasLinked == (dest in BaseOf(start, base).tree && BaseOf(start, base).tree[dest] == was.trees[target][dest])
    requires had && (base.None? || !was.trees[target][dest].File?) ==> !wasLinked
    ensures Replaced(was.trees[target], dest, BaseOf(start, base), start.next, had, wasLinked)
  {
    var shared := BaseOf(start, base);
    if !Crosses(shared.tree, dest) && had && was.trees[target][dest].File? {
      assert Faithful(shared, start.next, was.inodes, dest, was.trees[target][dest], nodes[dest]);
      assert !ViaLink(shared.tree, dest);
      if base.Some? && dest in shared.tree && shared.tree[dest].File? {
        assert start.trees[base.value][dest].ino in start.inodes;
      }
    }
  }

  /** The staging tree is the full copy, and the counters describe it. */
  ghost predicate Built(start: Fs, fs: Fs, at: int, base: Seen, nodes: map<Path, Node>, c: Counters) {
    && IsFolder(fs, Staging(at))
    && Copies(base, start.next, fs.inodes, fs.trees[Staging(at)], nodes)
    && Reconciled(c, base, fs.trees[Staging(at)], start.next)
    && c.files == c.linked + c.copied
  }

  /** Everything up to the rename: the tree is complete under its staging name. */
  method Build(disk: Disk, src: Source, extras: seq<Extra>, at: int, base: Option<Place>) returns (r: Option<Counters>)
    requires WellFormed(disk.fs) && Walkable(src)
    requires base.Some? ==> base.value in disk.fs.trees && base.value.Stamp?
    modifies disk
    ensures Idle(old(disk.fs), disk.fs)
    ensures old(disk.past) <= disk.past && AllIdle(old(disk.fs), disk.past, |old(disk.past)|)
    ensures r.Some? ==> Built(old(disk.fs), disk.fs, at, BaseOf(old(disk.fs), base), Expected(src.nodes, extras),
        r.value)
    ensures old(disk.fs).faultless && AllFit(src.nodes, extras) ==> r.Some?
  {
    ghost var start, from := disk.fs, |disk.past|;
    r := None;
    var cleared := ClearStaging(disk, at, base);
    if !cleared { return; }
    ghost var clean := disk.fs;
    r := WalkInto(disk, src, Staging(at), base, start, from);
    if r.Some? {
      r := AddExtras(disk, src, extras, Staging(at), base, r.value, start, from, clean);
    }
    if r.None? { Discard(disk, start, from, Staging(at)); }
  }

  /** Whatever is left of an earlier run of the same second goes. */
  method ClearStaging(disk: Disk, at: int, base: Option<Place>) returns (ok: bool)
    requires WellFormed(disk.fs)
    requires base.Some? ==> base.value in disk.fs.trees && base.value.Stamp?
    modifies disk
    ensures Idle(old(disk.fs), disk.fs)
    ensures old(disk.past) <= disk.past && AllIdle(old(disk.fs), disk.past, |old(disk.past)|)
    ensures ok ==> Staging(at) !in disk.fs.trees && disk.fs.next == old(disk.fs).next
    ensures Usable(disk.fs, base, Staging(at)) && BaseOf(disk.fs, base) == BaseOf(old(disk.fs), base)
    ensures old(disk.fs).faultless ==> ok
  {
    ghost var start := disk.fs;
    ok := disk.RemoveAll(Staging(at));
    IdlePlaces(start, disk.fs);
    BaseSame(start, disk.fs, base);
  }

  /** The walk of the source, into a staging tree that does not exist yet. */
  method WalkInto(disk: Disk, src: Source, target: Place, base: Option<Place>, ghost start: Fs, ghost from: nat)
    returns (r: Option<Counters>)
    requires Walkable(src) && target.Staging? && target !in disk.fs.trees && Usable(disk.fs, base, target)
    requires Idle(start, disk.fs) && from <= |disk.past| && AllIdle(start, disk.past, from)
    modifies disk
    ensures Idle(start, disk.fs) && old(disk.past) <= disk.past && AllIdle(start, disk.past, from)
    ensures r.Some? ==>
      Staged(old(disk.fs), disk.fs, target, BaseOf(old(disk.fs), base), Expected(src.nodes, []), r.value)
    ensures r.Some? ==> IsFolder(disk.fs, target)
    ensures old(disk.fs).faultless ==> r.Some?
  {
    ghost var clean, mark := disk.fs, |disk.past|;
    r := CopyTree(disk, src, target, base);
    AllLoose(clean, disk.past, mark, target, base.Some?);
    AllIdleQuiet(start, clean, disk.past, from, mark, target);
    IdleQuiet(start, clean, disk.fs, target);
    if r.Some? {
      assert [] in Kept(src.nodes);
      assert Faithful(BaseOf(clean, base), clean.next, disk.fs.inodes, [], disk.fs.trees[target][[]], DirNode);
    }
  }

  /** The extras, one after the other. */
  method AddExtras(disk: Disk, src: Source, extras: seq<Extra>, target: Place, base: Option<Place>, c0: Counters,
                   ghost start: Fs, ghost from: nat, ghost clean: Fs) returns (r: Option<Counters>)
    requires WellFormed(clean) && Walkable(src) && Sweepable(target)
    requires Usable(clean, base, target)
    requires Idle(start, disk.fs) && from <= |disk.past| && AllIdle(start, disk.past, from)
    requires Staged(clean, disk.fs, target, BaseOf(clean, base), Expected(src.nodes, []), c0)
    modifies disk
    ensures Idle(start, disk.fs) && old(disk.past) <= disk.past && AllIdle(start, disk.past, from)
    ensures r.Some? ==> Staged(clean, disk.fs, target, BaseOf(clean, base), Expected(src.nodes, extras), r.value)
    ensures clean.faultless && AllFit(src.nodes, extras) ==> r.Some?
  {
    r := Some(c0);
    assert extras[..0] == [];
    for i := 0 to |extras|
      invariant r.Some?
      invariant Idle(start, disk.fs) && old(disk.past) <= disk.past && AllIdle(start, disk.past, from)
      invariant Staged(clean, disk.fs, target, BaseOf(clean, base), Expected(src.nodes, extras[..i]), r.value)
    {
      r := AddNext(disk, src.nodes, extras, i, target, base, r.value, start, from, clean);
      if r.None? { return; }
    }
    assert extras[..|extras|] == extras;
  }

  method AddNext(disk: Disk, ghost nodes: map<Path, Node>, extras: seq<Extra>, i: nat, target: Place,
                 base: Option<Place>, c: Counters,
                 ghost start: Fs, ghost from: nat, ghost clean: Fs) returns (r: Option<Counters>)
    requires WellFormed(clean) && Sweepable(target) && Usable(clean, base, target) && i < |extras|
    requires Idle(start, disk.fs) && from <= |disk.past| && AllIdle(start, disk.past, from)
    requires Staged(clean, disk.fs, target, BaseOf(clean, base), Expected(nodes, extras[..i]), c)
    modifies disk
    ensures Idle(start, disk.fs) && old(disk.past) <= disk.past && AllIdle(start, disk.past, from)
    ensures r.Some? ==> Staged(clean, disk.fs, target, BaseOf(clean, base), Expected(nodes, extras[..i + 1]), r.value)
    ensures clean.faultless && AllFit(nodes, extras) ==> r.Some?
  {
    ghost var was, mark := disk.fs, |disk.past|;
    var ok, c' := AddExtra(disk, extras[i], target, base, c, clean, Expected(nodes, extras[..i]));
    AllIdleQuiet(start, was, disk.past, from, mark, target);
    IdleQuiet(start, was, disk.fs, target);
    assert extras[..i + 1][..i] == extras[..i];
    return if ok then Some(c') else None;
  }

  /** A failed run takes its staging tree with it, if it still can. */
  method Discard(disk: Disk, ghost start: Fs, ghost from: nat, target: Place)
    requires Idle(start, disk.fs) && Sweepable(target) && from <= |disk.past| && AllIdle(start, disk.past, from)
    modifies disk
    ensures Idle(start, disk.fs) && old(disk.past) <= disk.past && AllIdle(start, disk.past, from)
  {
    var gone := disk.RemoveAll(target);
  }

  lemma IdleUndisturbed(before: Fs, s: Fs, run: Run, keep: nat)
    requires Idle(before, s)
    ensures Undisturbed(before, s, run, keep)
  {
    forall t ensures Stamp(t) in s.trees <==> Stamp(t) in before.trees { assert !Sweepable(Stamp(t)); }
    forall t | Stamp(t) in s.trees ensures s.trees[Stamp(t)] == before.trees[Stamp(t)] { assert !Sweepable(Stamp(t)); }
  }

  /** Dropping the namesake of the run keeps the promise. */
  lemma ClearFinal(before: Fs, s: Fs, run: Run, keep: nat, s': Fs)
    requires Idle(before, s) && s' == s.(trees := s.trees - {Stamp(run.at)})
    ensures Undisturbed(before, s', run, keep)
  {
    IdleUndisturbed(before, s, run, keep);
    forall t | Stamp(t) in before.trees && Stamp(t) !in s'.trees ensures t == run.at { assert Stamp(t) in s.trees; }
  }

  /** Publishing under `at` adds that name and no other. */
  lemma PublishedNow(before: Fs, s: Fs, at: int, s': Fs)
    requires Idle(before, s) && IsFolder(s, Staging(at))
    requires s'.trees == (s.trees - {Stamp(at)} - {Staging(at)})[Stamp(at) := s.trees[Staging(at)]]
    ensures Published(s') == Published(before) + {at}
  {
    SamePublished(before, s);
    forall t ensures t in Published(s') <==> t in Published(before) + {at} {
      if t != at {
        assert IsFolder(s', Stamp(t)) == IsFolder(s, Stamp(t));
      } else {
        assert IsFolder(s', Stamp(t));
      }
    }
  }

  lemma PublishedComplete(before: Fs, s: Fs, run: Run, s': Fs)
    requires Ready(before, s, run) && s'.inodes == s.inodes
    requires s'.trees == (s.trees - {Stamp(run.at)} - {Staging(run.at)})[Stamp(run.at) := s.trees[Staging(run.at)]]
    ensures Complete(before, s', run) && Names(before, s', run)
  {
    forall t | Stamp(t) in s'.trees && t != run.at
        ensures Stamp(t) in before.trees && s'.trees[Stamp(t)] == before.trees[Stamp(t)] {
      assert !Sweepable(Stamp(t)) && Stamp(t) in s.trees;
    }
  }

  lemma Publish(before: Fs, s: Fs, run: Run, keep: nat, s': Fs)
    requires Ready(before, s, run)
    requires s' == s.(trees :=
        (s.trees - {Stamp(run.at)} - {Staging(run.at)})[Stamp(run.at) := s.trees[Staging(run.at)]])
    ensures Undisturbed(before, s', run, keep)
    ensures Published(s') == Published(before) + {run.at}
  {
    IdleUndisturbed(before, s, run, keep);
    PublishedNow(before, s, run.at, s');
    PublishedComplete(before, s, run, s');
  }

  lemma NextElem(l: seq<int>, i: nat)
    requires Descending(l) && 0 < i <= |l|
    ensures Elems(l[..i]) == Elems(l[..i - 1]) + {l[i - 1]} && l[i - 1] !in Elems(l[..i - 1])
  {
    assert l[..i] == l[..i - 1] + [l[i - 1]];
  }

  lemma {:induction false} ElemsCount(l: seq<int>, i: nat)
    requires Descending(l) && i <= |l|
    ensures |Elems(l[..i])| == i
  {
    if i > 0 {
      ElemsCount(l, i - 1);
      NextElem(l, i);
    }
  }

  lemma AboveAt(l: seq<int>, i: nat)
    requires Descending(l) && i < |l|
    ensures Above(Elems(l), l[i]) == Elems(l[..i])
  {
    forall t | t in Above(Elems(l), l[i]) ensures t in l[..i] {
      var j :| 0 <= j < |l| && l[j] == t;
      assert l[..i][j] == t;
    }
  }

  lemma TopIsPrefix(l: seq<int>, keep: nat)
    requires Descending(l)
    ensures Top(Elems(l), keep) == Elems(l[..if keep <= |l| then keep else |l|])
  {
    var cut := if keep <= |l| then keep else |l|;
    forall i | 0 <= i < |l| ensures |Above(Elems(l), l[i])| == i { AboveAt(l, i); ElemsCount(l, i); }
    forall t ensures t in Top(Elems(l), keep) <==> t in Elems(l[..cut]) {
      if t in l { var i :| 0 <= i < |l| && l[i] == t; if i < cut { assert l[..cut][i] == t; } }
    }
  }

  lemma DropOne(before: Fs, s: Fs, run: Run, keep: nat, t: int, s': Fs)
    requires Undisturbed(before, s, run, keep) && t in Published(s)
    requires s' == s.(trees := s.trees - {Stamp(t)})
    requires keep <= |Above(Published(s), t)|
    ensures Published(s') == Published(s) - {t}
    ensures Undisturbed(before, s', run, keep)
  {
    assert Published(s') == Published(s) - {t} by {
      forall u ensures u in Published(s') <==> u in Published(s) - {t} {
        if u != t { assert IsFolder(s', Stamp(u)) == IsFolder(s, Stamp(u)); }
      }
    }
    assert Above(Published(s'), t) == Above(Published(s), t);
    forall u | Stamp(u) in before.trees && Stamp(u) !in s'.trees && u != run.at
      ensures keep <= |Above(Published(s'), u)|
    {
      if u != t {
        if u < t {
          assert Above(Published(s), t) <= Above(Published(s'), u);
          Bigger(Above(Published(s), t), Above(Published(s'), u));
        } else {
          assert Above(Published(s'), u) == Above(Published(s), u);
        }
      }
    }
    forall u | Stamp(u) in s'.trees
      ensures (Stamp(u) in before.trees && s'.trees[Stamp(u)] == before.trees[Stamp(u)])
          || (u == run.at && Complete(before, s', run))
    {
      assert Stamp(u) in s.trees;
    }
  }

  lemma Bigger(a: set<int>, b: set<int>)
    requires a <= b
    ensures |a| <= |b|
  {
    assert b == a + (b - a);
  }

  method DropTree(disk: Disk, t: int, keep: nat, run: Run, ghost before: Fs, ghost from: nat) returns (ok: bool)
    requires Undisturbed(before, disk.fs, run, keep) && t in Published(disk.fs)
    requires from <= |disk.past| && AllUndisturbed(before, disk.past, from, run, keep)
    requires keep <= |Above(Published(disk.fs), t)|
    modifies disk
    ensures Undisturbed(before, disk.fs, run, keep)
    ensures old(disk.past) <= disk.past && AllUndisturbed(before, disk.past, from, run, keep)
    ensures ok ==> Published(disk.fs) == old(Published(disk.fs)) - {t}
    ensures before.faultless ==> ok
    ensures Survives(old(disk.fs), disk.fs)
  {
    ghost var was := disk.fs;
    ok := disk.RemoveAll(Stamp(t));
    if ok {
      DropOne(before, was, run, keep, t, disk.fs);
    }
  }

  /** Every snapshot there is was there before, untouched. */
  ghost predicate Survives(a: Fs, b: Fs) {
    && b.inodes == a.inodes && Published(b) <= Published(a)
    && forall t | t in Published(b) :: b.trees[Stamp(t)] == a.trees[Stamp(t)]
  }

  lemma SplitAt(l: seq<int>, k: nat)
    requires k <= |l|
    ensures Elems(l) == Elems(l[..k]) + Elems(l[k..])
  {
    assert l == l[..k] + l[k..];
  }

  lemma PeelFront(l: seq<int>, keep: nat, i: nat)
    requires Descending(l) && keep <= i < |l|
    ensures Elems(l[i..]) == {l[i]} + Elems(l[i + 1..])
    ensures l[i] !in Elems(l[i + 1..])
    ensures forall u | u in Elems(l[..keep]) :: l[i] < u
  {
    assert l[i..] == [l[i]] + l[i + 1..];
  }

  /** What holds while rotate works through the names from index `i` on. */
  ghost predicate Shedding(start: Fs, fs: Fs, l: seq<int>, keep: nat, i: nat, run: Run, before: Fs)
    requires keep <= i <= |l|
  {
    && Undisturbed(before, fs, run, keep)
    && Published(fs) == Elems(l[..keep]) + Elems(l[i..])
    && Survives(start, fs)
  }

  method DropNext(disk: Disk, l: seq<int>, keep: nat, i: nat, run: Run, ghost start: Fs, ghost before: Fs,
                  ghost from: nat)
    returns (ok: bool)
    requires Descending(l) && keep <= i < |l| && Shedding(start, disk.fs, l, keep, i, run, before)
    requires from <= |disk.past| && AllUndisturbed(before, disk.past, from, run, keep)
    modifies disk
    ensures old(disk.past) <= disk.past && AllUndisturbed(before, disk.past, from, run, keep)
    ensures ok ==> Shedding(start, disk.fs, l, keep, i + 1, run, before)
    ensures before.faultless ==> ok
    ensures Undisturbed(before, disk.fs, run, keep) && Survives(start, disk.fs)
  {
    NextToDrop(Published(disk.fs), l, keep, i);
    ok := DropTree(disk, l[i], keep, run, before, from);
  }

  lemma NextToDrop(s: set<int>, l: seq<int>, keep: nat, i: nat)
    requires Descending(l) && keep <= i < |l| && s == Elems(l[..keep]) + Elems(l[i..])
    ensures l[i] in s && keep <= |Above(s, l[i])|
    ensures s - {l[i]} == Elems(l[..keep]) + Elems(l[i + 1..])
  {
    PeelFront(l, keep, i);
    ElemsCount(l, keep);
    assert Elems(l[..keep]) <= Above(s, l[i]);
    Bigger(Elems(l[..keep]), Above(s, l[i]));
  }

  /** The loop of rotate: everything after the first `keep` names goes. */
  method DropRest(disk: Disk, existing: seq<int>, keep: nat, run: Run, ghost before: Fs, ghost from: nat)
      returns (ok: bool)
    requires keep >= 1 && keep < |existing|
    requires Descending(existing) && Elems(existing) == Published(disk.fs)
    requires Undisturbed(before, disk.fs, run, keep)
    requires from <= |disk.past| && AllUndisturbed(before, disk.past, from, run, keep)
    modifies disk
    ensures Undisturbed(before, disk.fs, run, keep)
    ensures old(disk.past) <= disk.past && AllUndisturbed(before, disk.past, from, run, keep)
    ensures Survives(old(disk.fs), disk.fs)
    ensures ok ==> Published(disk.fs) == Elems(existing[..keep])
    ensures before.faultless ==> ok
  {
    SplitAt(existing, keep);
    var i := keep;
    while i < |existing|
      invariant keep <= i <= |existing|
      invariant Shedding(old(disk.fs), disk.fs, existing, keep, i, run, before)
      invariant old(disk.past) <= disk.past && AllUndisturbed(before, disk.past, from, run, keep)
    {
      ok := DropNext(disk, existing, keep, i, run, old(disk.fs), before, from);
      if !ok { return; }
      i := i + 1;
    }
    assert existing[|existing|..] == [];
    ok := *;
    ok := ok || disk.fs.faultless;
  }

  /** rotate: drop the oldest trees until `keep` remain. */
  method Rotate(disk: Disk, keep: nat, run: Run, ghost before: Fs, ghost from: nat) returns (ok: bool)
    requires keep >= 1 && Undisturbed(before, disk.fs, run, keep)
    requires from <= |disk.past| && AllUndisturbed(before, disk.past, from, run, keep)
    modifies disk
    ensures Undisturbed(before, disk.fs, run, keep)
    ensures old(disk.past) <= disk.past && AllUndisturbed(before, disk.past, from, run, keep)
    ensures Survives(old(disk.fs), disk.fs)
    ensures ok ==> Published(disk.fs) == Top(old(Published(disk.fs)), keep)
    ensures before.faultless ==> ok
  {
    var existing := List(disk);
    TopIsPrefix(existing, keep);
    if |existing| <= keep {
      assert existing[..|existing|] == existing;
      return true;
    }
    ok := DropRest(disk, existing, keep, run, before, from);
  }

  lemma IdleIdle(a: Fs, b: Fs, c: Fs, past: seq<Fs>, from: nat, mid: nat)
    requires Idle(a, b) && Idle(b, c) && mid <= |past|
    requires AllIdle(a, past[..mid], from) && AllIdle(b, past, mid)
    ensures Idle(a, c) && AllIdle(a, past, from)
  {
    forall k | from <= k < |past| ensures Idle(a, past[k]) {
      if k < mid { assert past[k] == past[..mid][k]; }
    }
  }

  lemma AllIdleUndisturbed(before: Fs, past: seq<Fs>, from: nat, run: Run, keep: nat)
    requires AllIdle(before, past, from)
    ensures AllUndisturbed(before, past, from, run, keep)
  {
    forall k | from <= k < |past| ensures Undisturbed(before, past[k], run, keep) {
      IdleUndisturbed(before, past[k], run, keep);
    }
  }

  lemma NewestIsFirst(start: Fs, clean: Fs, existing: seq<int>)
    requires Idle(start, clean) && clean.inodes == start.inodes && Descending(existing)
        && Elems(existing) == Published(clean)
    ensures NewestPlace(start) == if existing == [] then None else Some(Stamp(existing[0]))
    ensures existing != [] ==> Stamp(existing[0]) in clean.trees
    ensures BaseOf(clean, NewestPlace(start)) == BaseOf(start, NewestPlace(start))
  {
    SamePublished(start, clean);
    IdlePlaces(start, clean);
    BaseSame(start, clean, NewestPlace(start));
    if existing != [] {
      assert existing[0] in Published(clean);
      assert MaxOf(Published(start)) in Elems(existing);
      assert !Sweepable(Stamp(existing[0]));
    }
  }

  /** A staging tree that is complete and may be published. */
  ghost predicate Ready(before: Fs, s: Fs, run: Run) {
    && WellFormed(before) && Idle(before, s) && run.source.Some?
    && IsFolder(s, Staging(run.at))
    && Copies(BaseOf(before, NewestPlace(before)), before.next, s.inodes, s.trees[Staging(run.at)],
              Expected(run.source.value.nodes, run.extras))
  }

  /** Publication: the namesake goes and the staging tree takes its name. */
  method Promote(disk: Disk, run: Run, keep: nat, ghost before: Fs, ghost from: nat) returns (renamed: bool)
    requires Ready(before, disk.fs, run)
    requires from <= |disk.past| && AllUndisturbed(before, disk.past, from, run, keep)
    modifies disk
    ensures Undisturbed(before, disk.fs, run, keep) && disk.fs.inodes == old(disk.fs).inodes
    ensures old(disk.past) <= disk.past && AllUndisturbed(before, disk.past, from, run, keep)
    ensures renamed ==> Published(disk.fs) == Published(before) + {run.at}
    ensures renamed ==> disk.fs.trees[Stamp(run.at)] == old(disk.fs).trees[Staging(run.at)]
    ensures before.faultless ==> renamed
  {
    ghost var ready := disk.fs;
    IdleUndisturbed(before, ready, run, keep);
    var cleared := disk.RemoveAll(Stamp(run.at));
    if cleared {
      ClearFinal(before, ready, run, keep, disk.fs);
      renamed := disk.Rename(Staging(run.at), Stamp(run.at));
      if renamed {
        ghost var trees := ready.trees - {Stamp(run.at)} - {Staging(run.at)};
        assert disk.fs.trees == trees[Stamp(run.at) := ready.trees[Staging(run.at)]];
        Publish(before, ready, run, keep, disk.fs);
        return;
      }
    }
    Withdraw(disk, run, keep, cleared, before, ready, from);
    renamed := false;
  }

  /** A staging tree that could not be published goes, if it still can. */
  method Withdraw(disk: Disk, run: Run, keep: nat, ghost cleared: bool, ghost before: Fs, ghost ready: Fs,
                  ghost from: nat)
    requires Idle(before, ready) && Undisturbed(before, disk.fs, run, keep)
    requires disk.fs == if cleared then ready.(trees := ready.trees - {Stamp(run.at)}) else ready
    requires from <= |disk.past| && AllUndisturbed(before, disk.past, from, run, keep)
    modifies disk
    ensures Undisturbed(before, disk.fs, run, keep) && disk.fs.inodes == old(disk.fs).inodes
    ensures old(disk.past) <= disk.past && AllUndisturbed(before, disk.past, from, run, keep)
  {
    var gone := disk.RemoveAll(Staging(run.at));
    if gone && cleared {
      ClearFinal(before, ready.(trees := ready.trees - {Staging(run.at)}), run, keep, disk.fs);
    } else if gone {
      IdleUndisturbed(before, disk.fs, run, keep);
    }
  }

  /** Publication and housekeeping, once the staging tree is complete. */
  method Finish(disk: Disk, run: Run, keep: nat, counters: Counters, ghost before: Fs, ghost from: nat)
      returns (r: Outcome)
    requires keep >= 1 && Ready(before, disk.fs, run)
    requires from <= |disk.past| && AllUndisturbed(before, disk.past, from, run, keep)
    modifies disk
    ensures Undisturbed(before, disk.fs, run, keep)
    ensures old(disk.past) <= disk.past && AllUndisturbed(before, disk.past, from, run, keep)
    ensures !r.Skipped? && disk.fs.inodes == old(disk.fs).inodes
    ensures r.Taken? ==> r.counters == counters
    ensures r.Taken? && run.at in Published(disk.fs) ==>
        disk.fs.trees[Stamp(run.at)] == old(disk.fs).trees[Staging(run.at)]
    ensures r.Taken? && r.rotated ==> Published(disk.fs) == Top(Published(before) + {run.at}, keep)
    ensures before.faultless ==> r.Taken? && r.rotated
  {
    var renamed := Promote(disk, run, keep, before, from);
    if !renamed { return Outcome.Failed; }
    var unsynced: bool := *;
    if unsynced && !disk.fs.faultless { return Outcome.Failed; }
    var rotated := Rotate(disk, keep, run, before, from);
    return Taken(counters, rotated);
  }

  /** Snapshot. `built` is the tree that was published. */
  method Snapshot(disk: Disk, run: Run, keep: nat) returns (r: Outcome, ghost built: Tree)
    requires WellFormed(disk.fs) && keep >= 1
    requires run.source.Some? ==> Walkable(run.source.value)
    modifies disk
    ensures old(disk.past) <= disk.past && AllUndisturbed(old(disk.fs), disk.past, |old(disk.past)|, run, keep)
    ensures Undisturbed(old(disk.fs), disk.fs, run, keep)
    ensures r.Skipped? ==> run.source.None? && disk.fs == old(disk.fs)
    ensures run.source.None? ==> r.Skipped?
    ensures r.Taken? ==>
      && run.source.Some?
      && Copies(BaseOf(old(disk.fs), NewestPlace(old(disk.fs))), old(disk.fs).next, disk.fs.inodes, built,
                Expected(run.source.value.nodes, run.extras))
      && (run.at in Published(disk.fs) ==> disk.fs.trees[Stamp(run.at)] == built)
      && r.counters.files == r.counters.linked + r.counters.copied == |NonDirs(built)|
      && Reconciled(r.counters, BaseOf(old(disk.fs), NewestPlace(old(disk.fs))), built, old(disk.fs).next)
    ensures r.Taken? && r.rotated ==> Published(disk.fs) == Top(old(Published(disk.fs)) + {run.at}, keep)
    ensures old(disk.fs).faultless && run.source.Some? && AllFit(run.source.value.nodes, run.extras) ==>
        r.Taken? && r.rotated
  {
    built := map[];
    if run.source.None? {
      IdleUndisturbed(disk.fs, disk.fs, run, keep);
      return Skipped, map[];
    }
    ghost var start, from := disk.fs, |disk.past|;
    r := Outcome.Failed;
    var trouble: bool := *;
    var swept := Sweep(disk);
    ghost var clean, mark := disk.fs, |disk.past|;
    AllIdleUndisturbed(start, disk.past, from, run, keep);
    IdleUndisturbed(start, clean, run, keep);
    if !swept || (trouble && !disk.fs.faultless) { return; }
    var existing := List(disk);
    var base := if existing == [] then None else Some(Stamp(existing[0]));
    NewestIsFirst(start, clean, existing);
    var counters := Build(disk, run.source.value, run.extras, run.at, base);
    IdleIdle(start, clean, disk.fs, disk.past, from, mark);
    AllIdleUndisturbed(start, disk.past, from, run, keep);
    IdleUndisturbed(start, disk.fs, run, keep);
    if counters.None? { return; }
    built := disk.fs.trees[Staging(run.at)];
    r := Finish(disk, run, keep, counters.value, start, from);
  }
}
