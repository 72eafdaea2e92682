/** Restoring a snapshot, next to a target or over it, and undoing that. */
module Restores {
  import opened Options
  import opened FileSystem
  import opened TreeCopy
  import opened Snapshots

  const PARTIAL := ".atenea-restore.partial"
  const PREVIOUS := ".atenea-previous"
  const CURRENT := ".atenea-current"

  function Partial(t: string): Place { Outside(t + PARTIAL) }
  function Previous(t: string): Place { Outside(t + PREVIOUS) }
  function Current(t: string): Place { Outside(t + CURRENT) }

  /** The names a tree of target `t` may live under. */
  function Family(t: string): set<Place> {
    {Outside(t), Previous(t), Current(t)}
  }

  lemma Distinct(t: string)
    ensures Partial(t) !in Family(t)
    ensures Outside(t) != Previous(t) && Outside(t) != Current(t) && Previous(t) != Current(t)
  {
    assert |t + PARTIAL| == |t| + 23 && |t + PREVIOUS| == |t| + 16 && |t + CURRENT| == |t| + 15;
  }

  function OutsideTrees(fs: Fs): set<Place> {
    set q | q in fs.trees && q.Outside?
  }

  /** `f` says where each tree outside the store is now, whole and under a name of its
      own; only names in `names` are exchanged. */
  ghost predicate Relocates(before: Fs, s: Fs, names: set<Place>, f: map<Place, Place>) {
    && f.Keys == OutsideTrees(before)
    && Injective(f)
    && forall q | q in f :: Lands(before, s, names, q, f[q])
  }

  /** No tree is lost: a machine stopped here still holds every one of them. */
  ghost predicate Conserved(before: Fs, s: Fs, names: set<Place>) {
    && WellFormed(s) && Extends(before.inodes, s.inodes) && before.next <= s.next
    && SameStore(before, s) && Apart(before, s)
    && CanRelocate(before, s, names)
  }

  /** The files of the trees outside the store. */
  function LiveInos(fs: Fs): set<nat> {
    set q, p | q in fs.trees && q.Outside? && p in fs.trees[q] && fs.trees[q][p].File? :: fs.trees[q][p].ino
  }

  /** No tree outside the store has come to share a file with the store. */
  ghost predicate Apart(before: Fs, s: Fs) {
    forall q: Place | q in s.trees && q.Outside? :: Own(before, s.trees[q])
  }

  ghost predicate Own(before: Fs, tree: Tree) {
    forall i | i in Inos(tree) :: before.next <= i || i in LiveInos(before)
  }

  lemma OwnKept(before: Fs, q: Place)
    requires q in before.trees && q.Outside?
    ensures Own(before, before.trees[q])
  {
    forall i | i in Inos(before.trees[q]) ensures i in LiveInos(before) {
      var p :| p in before.trees[q] && before.trees[q][p].File? && before.trees[q][p].ino == i;
    }
  }

  ghost predicate CanRelocate(before: Fs, s: Fs, names: set<Place>) {
    exists f :: Relocates(before, s, names, f)
  }

  ghost predicate SameStore(before: Fs, s: Fs) {
    forall q: Place | !q.Outside? ::
        (q in s.trees <==> q in before.trees) && (q in s.trees ==> s.trees[q] == before.trees[q])
  }

  ghost predicate AllConserved(before: Fs, past: seq<Fs>, from: nat, names: set<Place>) {
    forall k | from <= k < |past| :: Conserved(before, past[k], names)
  }

  function Stay(fs: Fs): map<Place, Place> {
    map q | q in OutsideTrees(fs) :: q
  }

  /** Trees that existed are where they were. */
  lemma Unmoved(before: Fs, s: Fs, target: Place, names: set<Place>)
    requires Quiet(before, s, target, false) && target !in before.trees && target.Outside?
    ensures Conserved(before, s, names)
  {
    forall q: Place | q in before.trees ensures q in s.trees && s.trees[q] == before.trees[q] {
      assert q in before.trees - {target} && q in s.trees - {target};
      assert (s.trees - {target})[q] == (before.trees - {target})[q];
    }
    forall q: Place | !q.Outside? && q in s.trees ensures q in before.trees {
      assert q in s.trees - {target};
    }
    forall q: Place | q in s.trees && q.Outside? ensures Own(before, s.trees[q]) {
      if q == target {
        assert TreeAt(s, q) == s.trees[q];
      } else {
        assert q in s.trees - {target};
        OwnKept(before, q);
      }
    }
    assert Relocates(before, s, names, Stay(before));
  }

  lemma AllUnmoved(before: Fs, past: seq<Fs>, from: nat, target: Place, names: set<Place>)
    requires AllQuiet(before, past, from, target, false) && target !in before.trees && target.Outside?
    ensures AllConserved(before, past, from, names)
  {
    forall k | from <= k < |past| ensures Conserved(before, past[k], names) {
      Unmoved(before, past[k], target, names);
    }
  }

  ghost predicate Injective(f: map<Place, Place>) {
    forall a, b | a in f && b in f && f[a] == f[b] :: a == b
  }

  ghost predicate Lands(before: Fs, s: Fs, names: set<Place>, q: Place, to: Place)
    requires q in before.trees
  {
    to.Outside? && to in s.trees && s.trees[to] == before.trees[q] && if q in names then to in names else to == q
  }

  function Compose(f: map<Place, Place>, g: map<Place, Place>): map<Place, Place> {
    map q | q in f && f[q] in g :: g[f[q]]
  }

  lemma CanRelocateTrans(a: Fs, b: Fs, c: Fs, names: set<Place>)
    requires CanRelocate(a, b, names) && CanRelocate(b, c, names)
    ensures CanRelocate(a, c, names)
  {
    var f :| Relocates(a, b, names, f);
    var g :| Relocates(b, c, names, g);
    RelocatesTrans(a, b, c, names, f, g);
  }

  lemma RelocatesTrans(a: Fs, b: Fs, c: Fs, names: set<Place>, f: map<Place, Place>, g: map<Place, Place>)
    requires Relocates(a, b, names, f) && Relocates(b, c, names, g)
    ensures Relocates(a, c, names, Compose(f, g))
  {
    var h := Compose(f, g);
    forall q | q in f ensures q in h && Lands(a, c, names, q, h[q]) {
      assert Lands(a, b, names, q, f[q]);
      assert f[q] in OutsideTrees(b);
      assert Lands(b, c, names, f[q], g[f[q]]);
    }
    assert h.Keys == f.Keys;
    forall x, y | x in h && y in h && h[x] == h[y] ensures x == y {
      assert f[x] in g && f[y] in g;
    }
  }

  lemma ConservedTrans(a: Fs, b: Fs, c: Fs, names: set<Place>)
    requires Conserved(a, b, names) && Conserved(b, c, names)
    ensures Conserved(a, c, names)
  {
    CanRelocateTrans(a, b, c, names);
    forall q: Place | q in c.trees && q.Outside? ensures Own(a, c.trees[q]) {
      assert Own(b, c.trees[q]);
      forall i | i in Inos(c.trees[q]) ensures a.next <= i || i in LiveInos(a) {
        if i in LiveInos(b) { LiveFrom(a, b, i); }
      }
    }
  }

  lemma LiveFrom(a: Fs, b: Fs, i: nat)
    requires Apart(a, b) && i in LiveInos(b)
    ensures a.next <= i || i in LiveInos(a)
  {
    var q, p :| q in b.trees && q.Outside? && p in b.trees[q] && b.trees[q][p].File? && b.trees[q][p].ino == i;
    assert i in Inos(b.trees[q]);
  }

  /** Promises about few names hold for more. */
  lemma Widen(before: Fs, s: Fs, names: set<Place>, more: set<Place>)
    requires Conserved(before, s, names) && names <= more
    ensures Conserved(before, s, more)
  {
    var f :| Relocates(before, s, names, f);
    assert Relocates(before, s, more, f);
  }

  /** Each state is reached from the one before by a call that finished, failed or was
      stopped, and that exchanged only the names listed for it. */
  ghost predicate Calls(states: seq<Fs>, names: seq<set<Place>>) {
    && |states| == |names| + 1 && WellFormed(states[0])
    && forall i | 0 <= i < |names| :: CallAt(states, names, i)
  }

  ghost predicate CallAt(states: seq<Fs>, names: seq<set<Place>>, i: nat)
    requires i < |names| && |states| == |names| + 1
  {
    Conserved(states[i], states[i + 1], names[i])
  }

  /** Over any number of calls nothing is lost. */
  lemma {:induction false} ConservedRun(states: seq<Fs>, names: seq<set<Place>>, all: set<Place>, k: nat)
    requires Calls(states, names) && k < |states|
    requires forall i | 0 <= i < |names| :: names[i] <= all
    ensures Conserved(states[0], states[k], all)
  {
    if k == 0 {
      assert Relocates(states[0], states[0], all, Stay(states[0]));
    } else {
      ConservedRun(states, names, all, k - 1);
      assert CallAt(states, names, k - 1);
      Widen(states[k - 1], states[k], names[k - 1], all);
      ConservedTrans(states[0], states[k - 1], states[k], all);
    }
  }

  function TreesOf(fs: Fs, fam: set<Place>): set<Place> {
    set q | q in OutsideTrees(fs) && q in fam
  }

  /** `f` says under which name of `fam` each of its trees is now, whole. */
  ghost predicate Houses(before: Fs, s: Fs, fam: set<Place>, f: map<Place, Place>) {
    && f.Keys == TreesOf(before, fam) && Injective(f)
    && forall q | q in f :: f[q] in TreesOf(s, fam) && s.trees[f[q]] == before.trees[q]
  }

  /** Every tree of the family is still under a name of the family, each under its own,
      and reads as it did. */
  ghost predicate KeptWithin(before: Fs, s: Fs, fam: set<Place>) {
    && Extends(before.inodes, s.inodes)
    && exists f :: Houses(before, s, fam, f)
  }

  lemma ConservedWithin(before: Fs, s: Fs, names: set<Place>, fam: set<Place>)
    requires Conserved(before, s, names) && (names <= fam || names !! fam)
    ensures KeptWithin(before, s, fam)
  {
    var f :| Relocates(before, s, names, f);
    var g := map q | q in f && q in fam :: f[q];
    forall q | q in g ensures g[q] in TreesOf(s, fam) && s.trees[g[q]] == before.trees[q] {
      assert Lands(before, s, names, q, f[q]);
    }
    assert g.Keys == TreesOf(before, fam);
    assert Houses(before, s, fam, g);
  }

  lemma WithinTrans(a: Fs, b: Fs, c: Fs, fam: set<Place>)
    requires KeptWithin(a, b, fam) && KeptWithin(b, c, fam)
    ensures KeptWithin(a, c, fam)
  {
    var f :| Houses(a, b, fam, f);
    var g :| Houses(b, c, fam, g);
    HousesTrans(a, b, c, fam, f, g);
  }

  lemma HousesTrans(a: Fs, b: Fs, c: Fs, fam: set<Place>, f: map<Place, Place>, g: map<Place, Place>)
    requires Houses(a, b, fam, f) && Houses(b, c, fam, g)
    ensures Houses(a, c, fam, Compose(f, g))
  {
    var h := Compose(f, g);
    forall q | q in f ensures q in h && h[q] in TreesOf(c, fam) && c.trees[h[q]] == a.trees[q] {
      assert f[q] in g.Keys;
    }
    assert h.Keys == f.Keys;
    forall x, y | x in h && y in h && h[x] == h[y] ensures x == y {
      assert f[x] in g && f[y] in g;
    }
  }

  /** Over any number of calls on any targets, each exchanging names inside the family
      or none of them, no tree of the family ends under another target's name. */
  lemma {:induction false} MixedRun(states: seq<Fs>, names: seq<set<Place>>, fam: set<Place>, k: nat)
    requires Calls(states, names) && k < |states|
    requires forall i | 0 <= i < |names| :: names[i] <= fam || names[i] !! fam
    ensures KeptWithin(states[0], states[k], fam)
  {
    if k == 0 {
      var f := map q | q in TreesOf(states[0], fam) :: q;
      assert Houses(states[0], states[0], fam, f);
    } else {
      MixedRun(states, names, fam, k - 1);
      assert CallAt(states, names, k - 1);
      ConservedWithin(states[k - 1], states[k], names[k - 1], fam);
      WithinTrans(states[0], states[k - 1], states[k], fam);
    }
  }

  /** The walk of a stored tree. */
  method Walk(disk: Disk, q: Place) returns (src: Source)
    requires IsFolder(disk.fs, q)
    ensures Walkable(src) && src.nodes == View(disk.fs.trees[q], disk.fs.inodes)
  {
    var nodes := View(disk.fs.trees[q], disk.fs.inodes);
    var order: seq<Path> := [[]];
    var todo := nodes.Keys - {[]};
    while todo != {}
      invariant order != [] && order[0] == []
      invariant forall p :: p in order <==> p in nodes && p !in todo
      invariant todo <= nodes.Keys && [] !in todo
      invariant forall i, j | 0 <= i < j < |order| :: order[i] != order[j]
    {
      var p :| p in todo;
      order := order + [p];
      todo := todo - {p};
    }
    src := Source(nodes, order);
  }

  /** The restored tree reads exactly as the snapshot and shares no file with it. */
  ghost predicate RestoredFrom(before: Fs, s: Fs, at: int, t: string) {
    && Stamp(at) in before.trees && Outside(t) in s.trees
    && View(s.trees[Outside(t)], s.inodes) == View(before.trees[Stamp(at)], before.inodes)
    && forall i | i in Inos(s.trees[Outside(t)]) :: before.next <= i
  }

  lemma CopyReads(before: Fs, s: Fs, tree: Tree, copy: Tree)
    requires WellFormed(before) && (forall i | i in Inos(tree) :: i in before.inodes)
    requires Copies(BaseOf(before, None), before.next, s.inodes, copy, Kept(View(tree, before.inodes)))
    ensures View(copy, s.inodes) == View(tree, before.inodes)
    ensures forall i | i in Inos(copy) :: before.next <= i
  {
    var v := View(tree, before.inodes);
    forall p | p in v ensures !v[p].SpecialNode? {
      if tree[p].File? { assert tree[p].ino in Inos(tree); }
    }
    assert Kept(v) == v;
    forall p | p in copy ensures NodeOf(copy[p], s.inodes) == v[p] && (copy[p].File? ==> before.next <= copy[p].ino) {
      assert Faithful(BaseOf(before, None), before.next, s.inodes, p, copy[p], v[p]);
      assert !ViaLink(map[], p);
    }
  }

  /** The step both restores share: a full copy of the snapshot under the sidecar name. */
  method CopyOut(disk: Disk, at: int, t: string, ghost names: set<Place>) returns (ok: bool)
    requires WellFormed(disk.fs) && IsFolder(disk.fs, Stamp(at)) && Partial(t) !in disk.fs.trees
    modifies disk
    ensures Quiet(old(disk.fs), disk.fs, Partial(t), false)
    ensures old(disk.past) <= disk.past && AllConserved(old(disk.fs), disk.past, |old(disk.past)|, names)
    ensures ok ==>
      && Partial(t) in disk.fs.trees
      && View(disk.fs.trees[Partial(t)], disk.fs.inodes) == View(old(disk.fs).trees[Stamp(at)], old(disk.fs).inodes)
      && forall i | i in Inos(disk.fs.trees[Partial(t)]) :: old(disk.fs).next <= i
    ensures old(disk.fs).faultless ==> ok
  {
    ghost var before, from := disk.fs, |disk.past|;
    var src := Walk(disk, Stamp(at));
    var r := CopyTree(disk, src, Partial(t), None);
    AllUnmoved(before, disk.past, from, Partial(t), names);
    if r.None? {
      ghost var was := disk.fs;
      Unmoved(before, was, Partial(t), names);
      var gone := disk.RemoveAll(Partial(t));
      assert disk.fs.trees - {Partial(t)} == was.trees - {Partial(t)};
      return false;
    }
    CopyReads(before, disk.fs, before.trees[Stamp(at)], disk.fs.trees[Partial(t)]);
    return true;
  }

  /** Restore: into a target that must not exist yet. */
  method Restore(disk: Disk, name: Option<int>, target: Place) returns (ok: bool)
    requires WellFormed(disk.fs)
    modifies disk
    ensures old(disk.past) <= disk.past && AllConserved(old(disk.fs), disk.past, |old(disk.past)|, {})
    ensures Conserved(old(disk.fs), disk.fs, {})
    ensures ok ==> name.Some? && target.Outside? && target !in old(disk.fs).trees
    ensures ok ==> RestoredFrom(old(disk.fs), disk.fs, name.value, target.path)
    ensures name.None? || name.value !in old(Published(disk.fs)) || !target.Outside? || target in old(disk.fs).trees ==>
      !ok && disk.fs == old(disk.fs)
    ensures old(disk.fs).faultless && name.Some? && name.value in old(Published(disk.fs)) && target.Outside?
            && target !in old(disk.fs).trees
                && Outside(target.path + ".atenea-restore.partial") !in old(disk.fs).trees ==>
      ok
    ensures target.Outside? && target !in old(disk.fs).trees && target in disk.fs.trees ==>
      name.Some? && RestoredFrom(old(disk.fs), disk.fs, name.value, target.path)
  {
    ghost var before, from := disk.fs, |disk.past|;
    assert Relocates(before, before, {}, Stay(before));
    ok := false;
    if name.None? { return; }
    var snapshots := List(disk);
    if name.value !in Elems(snapshots) || !target.Outside? { return; }
    var t := target.path;
    if target in disk.fs.trees { return; }
    var trouble: bool := *;
    if (trouble && !disk.fs.faultless) || Partial(t) in disk.fs.trees { return; }
    Distinct(t);
    var copied := CopyOut(disk, name.value, t, {});
    Unmoved(before, disk.fs, Partial(t), {});
    SameBut(disk.fs.trees, before.trees, Partial(t), target);
    if !copied { return; }
    ok := MoveIn(disk, t, before, from);
  }

  /** The last rename of a restore next to nothing; a copy that cannot be moved goes. */
  method MoveIn(disk: Disk, t: string, ghost before: Fs, ghost from: nat) returns (ok: bool)
    requires WellFormed(before) && Quiet(before, disk.fs, Partial(t), false)
    requires Partial(t) !in before.trees && Outside(t) !in before.trees && Partial(t) in disk.fs.trees
    requires from <= |disk.past| && AllConserved(before, disk.past, from, {})
    modifies disk
    ensures Conserved(before, disk.fs, {})
    ensures old(disk.past) <= disk.past && AllConserved(before, disk.past, from, {})
    ensures disk.fs.inodes == old(disk.fs).inodes
    ensures ok ==> Outside(t) in disk.fs.trees
    ensures Outside(t) in disk.fs.trees ==> disk.fs.trees[Outside(t)] == old(disk.fs).trees[Partial(t)]
    ensures before.faultless ==> ok
  {
    ghost var ready := disk.fs;
    Distinct(t);
    SameBut(ready.trees, before.trees, Partial(t), Outside(t));
    Unmoved(before, ready, Partial(t), {});
    ok := disk.Rename(Partial(t), Outside(t));
    if ok {
      assert disk.fs.trees - {Outside(t)} == before.trees by {
        assert disk.fs.trees - {Outside(t)} == ready.trees - {Partial(t)};
      }
      assert TreeAt(disk.fs, Outside(t)) == TreeAt(ready, Partial(t)) && TreeAt(before, Partial(t)) == map[];
      assert NoneAdopted(before, disk.fs, Outside(t));
      Unmoved(before, disk.fs, Outside(t), {});
      ok := *;
      ok := ok || disk.fs.faultless;
    } else {
      var gone := disk.RemoveAll(Partial(t));
      assert disk.fs.trees - {Partial(t)} == ready.trees - {Partial(t)};
      Unmoved(before, disk.fs, Partial(t), {});
    }
  }

  /** The tree at `a` moved to `b`; everything else stayed. */
  lemma OneMove(before: Fs, s: Fs, a: Place, b: Place, spare: Place, names: set<Place>)
    requires WellFormed(before) && WellFormed(s) && Extends(before.inodes, s.inodes) && before.next <= s.next
        && Apart(before, s)
    requires a in names && b in names && a.Outside? && b.Outside? && spare.Outside? && a != b && spare != a
        && spare != b
    requires a in before.trees && b !in before.trees && spare !in before.trees
    requires s.trees - {spare} == (before.trees - {a})[b := before.trees[a]]
    ensures Conserved(before, s, names)
  {
    var f := Stay(before)[a := b];
    forall q: Place | q != spare ensures q in s.trees <==> q in s.trees - {spare} {}
    forall q | q in f ensures f[q] in s.trees && s.trees[f[q]] == before.trees[q] {
      assert f[q] in s.trees - {spare};
      assert (s.trees - {spare})[f[q]] == s.trees[f[q]];
    }
    assert Relocates(before, s, names, f);
    forall q: Place | !q.Outside?
        ensures (q in s.trees <==> q in before.trees) && (q in s.trees ==> s.trees[q] == before.trees[q]) {
      assert q in s.trees <==> q in s.trees - {spare};
      if q in s.trees { assert (s.trees - {spare})[q] == before.trees[q]; }
    }
  }

  /** Two moves: `a` to `b`, then `c` into the place of `a`. */
  lemma TwoMoves(before: Fs, s: Fs, a: Place, b: Place, c: Place, names: set<Place>)
    requires WellFormed(before) && WellFormed(s) && Extends(before.inodes, s.inodes) && before.next <= s.next
        && Apart(before, s)
    requires {a, b, c} <= names && a.Outside? && b.Outside? && c.Outside? && a != b && b != c && a != c
    requires a in before.trees && b !in before.trees && c in before.trees
    requires s.trees == (before.trees - {a} - {c})[b := before.trees[a]][a := before.trees[c]]
    ensures Conserved(before, s, names)
  {
    var f := Stay(before)[a := b][c := a];
    assert Relocates(before, s, names, f);
  }

  /** The original target is under its sidecar name and the snapshot is in its place. */
  ghost predicate Swapped(before: Fs, s: Fs, at: int, t: string) {
    && Outside(t) in before.trees && Previous(t) in s.trees
    && s.trees[Previous(t)] == before.trees[Outside(t)]
    && RestoredFrom(before, s, at, t)
  }

  /** RestoreInPlace: a reversible swap of two renames. */
  method RestoreInPlace(disk: Disk, name: Option<int>, target: Place) returns (ok: bool)
    requires WellFormed(disk.fs)
    modifies disk
    ensures target.Outside? ==>
      && old(disk.past) <= disk.past && AllConserved(old(disk.fs), disk.past, |old(disk.past)|, Family(target.path))
      && Conserved(old(disk.fs), disk.fs, Family(target.path))
    ensures ok ==> name.Some? && target.Outside? && Swapped(old(disk.fs), disk.fs, name.value, target.path)
    ensures (|| !target.Outside? || !old(IsFolder(disk.fs, target)) || name.None?
        || name.value !in old(Published(disk.fs))
             || Previous(target.path) in old(disk.fs).trees) ==>
      !ok && disk.fs == old(disk.fs)
    ensures old(disk.fs).faultless && target.Outside? && old(IsFolder(disk.fs, target))
            && name.Some? && name.value in old(Published(disk.fs))
            && Outside(target.path + ".atenea-restore.partial") !in old(disk.fs).trees
            && Outside(target.path + ".atenea-previous") !in old(disk.fs).trees ==>
      ok
    ensures ok ==> Previous(target.path) == Outside(target.path + ".atenea-previous")
    ensures ok ==> disk.fs.faultless == old(disk.fs).faultless
                   && (Current(target.path) in disk.fs.trees <==> Current(target.path) in old(disk.fs).trees)
  {
    ok := false;
    if !target.Outside? { return; }
    ghost var before, from := disk.fs, |disk.past|;
    var t := target.path;
    ghost var names := Family(t);
    assert Relocates(before, before, names, Stay(before));
    Distinct(t);
    if !IsFolder(disk.fs, target) { return; }
    var snapshots := List(disk);
    if name.None? || name.value !in Elems(snapshots) { return; }
    if Partial(t) in disk.fs.trees || Previous(t) in disk.fs.trees { return; }
    var copied := CopyOut(disk, name.value, t, names);
    Unmoved(before, disk.fs, Partial(t), names);
    if !copied { return; }
    ok := SwapIn(disk, t, before, from);
    if ok { assert Swapped(before, disk.fs, name.value, t); }
  }

  lemma SameBut(a: map<Place, Tree>, b: map<Place, Tree>, hole: Place, q: Place)
    requires a - {hole} == b - {hole} && q != hole
    ensures (q in a <==> q in b) && (q in a ==> a[q] == b[q])
  {
    assert q in a <==> q in a - {hole};
    assert q in b <==> q in b - {hole};
    if q in a { assert (a - {hole})[q] == (b - {hole})[q]; }
  }

  lemma MoveBut(a: map<Place, Tree>, b: map<Place, Tree>, hole: Place, x: Place, y: Place)
    requires hole !in b && a - {hole} == b && x in b && hole != x && hole != y
    ensures x in a && ((a - {x})[y := a[x]]) - {hole} == (b - {x})[y := b[x]]
  {
    assert b - {hole} == b;
    forall q | q != hole ensures (q in a <==> q in b) && (q in a ==> a[q] == b[q]) { SameBut(a, b, hole, q); }
  }

  lemma OthersStay(a: map<Place, Tree>, b: map<Place, Tree>, hole: Place)
    requires a - {hole} == b - {hole}
    ensures forall q | q != hole :: (q in a <==> q in b) && (q in b ==> a[q] == b[q])
  {
    forall q | q != hole ensures (q in a <==> q in b) && (q in b ==> a[q] == b[q]) { SameBut(a, b, hole, q); }
  }

  /** A rename between states that conserve every tree. */
  method Move(disk: Disk, a: Place, b: Place, ghost before: Fs, ghost from: nat, ghost names: set<Place>)
      returns (ok: bool)
    requires a.Outside?
    requires from <= |disk.past| && AllConserved(before, disk.past, from, names) && Conserved(before, disk.fs, names)
    modifies disk
    ensures old(disk.past) <= disk.past && AllConserved(before, disk.past, from, names)
    ensures WellFormed(disk.fs) && disk.fs.inodes == old(disk.fs).inodes && disk.fs.next == old(disk.fs).next
        && Apart(before, disk.fs)
    ensures disk.fs.links == old(disk.fs).links && disk.fs.faultless == old(disk.fs).faultless
    ensures !ok ==> disk.fs == old(disk.fs)
    ensures ok ==>
      && a in old(disk.fs).trees && b !in old(disk.fs).trees
      && disk.fs.trees == (old(disk.fs).trees - {a})[b := old(disk.fs).trees[a]]
    ensures old(disk.fs).faultless && a in old(disk.fs).trees && b !in old(disk.fs).trees ==> ok
  {
    ok := disk.Rename(a, b);
  }

  method Drop(disk: Disk, q: Place, ghost before: Fs, ghost from: nat, ghost names: set<Place>) returns (ok: bool)
    requires from <= |disk.past| && AllConserved(before, disk.past, from, names) && Conserved(before, disk.fs, names)
    modifies disk
    ensures old(disk.past) <= disk.past && AllConserved(before, disk.past, from, names)
    ensures WellFormed(disk.fs) && disk.fs.inodes == old(disk.fs).inodes && disk.fs.next == old(disk.fs).next
        && Apart(before, disk.fs)
    ensures disk.fs.links == old(disk.fs).links && disk.fs.faultless == old(disk.fs).faultless
    ensures disk.fs == old(disk.fs) || disk.fs.trees == old(disk.fs).trees - {q}
  {
    ok := disk.RemoveAll(q);
  }

  /** The renames of RestoreInPlace, with the rollback. `ok` is false when the final
      directory sync fails too, although the swap has then happened. */
  method SwapIn(disk: Disk, t: string, ghost before: Fs, ghost from: nat) returns (ok: bool)
    requires WellFormed(before) && Quiet(before, disk.fs, Partial(t), false) && Partial(t) !in before.trees
        && Partial(t) in disk.fs.trees
    requires Outside(t) in before.trees && Previous(t) !in before.trees
    requires from <= |disk.past| && AllConserved(before, disk.past, from, Family(t))
    modifies disk
    ensures Conserved(before, disk.fs, Family(t))
    ensures old(disk.past) <= disk.past && AllConserved(before, disk.past, from, Family(t))
    ensures disk.fs.inodes == old(disk.fs).inodes
    ensures ok ==>
      && Outside(t) in disk.fs.trees && disk.fs.trees[Outside(t)] == old(disk.fs).trees[Partial(t)]
      && Previous(t) in disk.fs.trees && disk.fs.trees[Previous(t)] == before.trees[Outside(t)]
      && (forall q | q != Outside(t) && q != Previous(t) && q != Partial(t) ::
            (q in disk.fs.trees <==> q in before.trees) && (q in before.trees ==> disk.fs.trees[q] == before.trees[q]))
      && disk.fs.faultless == before.faultless
    ensures before.faultless ==> ok
  {
    Distinct(t);
    ghost var names, copied := Family(t), disk.fs;
    SameBut(copied.trees, before.trees, Partial(t), Outside(t));
    SameBut(copied.trees, before.trees, Partial(t), Previous(t));
    Unmoved(before, disk.fs, Partial(t), names);
    ok := Move(disk, Outside(t), Previous(t), before, from, names);
    if !ok {
      var gone := Drop(disk, Partial(t), before, from, names);
      assert disk.fs.trees - {Partial(t)} == before.trees - {Partial(t)};
      Unmoved(before, disk.fs, Partial(t), names);
      return;
    }
    MoveBut(copied.trees, before.trees, Partial(t), Outside(t), Previous(t));
    OneMove(before, disk.fs, Outside(t), Previous(t), Partial(t), names);
    ok := Move(disk, Partial(t), Outside(t), before, from, names);
    if ok {
      OneMoveAndNew(before, disk.fs, Outside(t), Previous(t), names);
      OthersStay(copied.trees, before.trees, Partial(t));
      ok := *;
      ok := ok || disk.fs.faultless;
    } else {
      Undo(disk, t, before, from, names);
    }
  }

  /** The second rename failed: try to put the target back, then drop the copy. */
  method Undo(disk: Disk, t: string, ghost before: Fs, ghost from: nat, ghost names: set<Place>)
    requires from <= |disk.past| && AllConserved(before, disk.past, from, names) && Conserved(before, disk.fs, names)
    requires names == Family(t) && WellFormed(before) && NoneAdopted(before, disk.fs, Partial(t))
    requires disk.fs.links == before.links && disk.fs.faultless == before.faultless
    requires Outside(t) in before.trees && Previous(t) !in before.trees && Partial(t) !in before.trees
    requires disk.fs.trees - {Partial(t)} == (before.trees - {Outside(t)})[Previous(t) := before.trees[Outside(t)]]
    modifies disk
    ensures old(disk.past) <= disk.past && AllConserved(before, disk.past, from, names)
        && Conserved(before, disk.fs, names)
    ensures disk.fs.inodes == old(disk.fs).inodes
  {
    Distinct(t);
    ghost var staged := disk.fs;
    var back := Move(disk, Previous(t), Outside(t), before, from, names);
    ghost var rolled := disk.fs;
    if back {
      assert rolled.trees - {Partial(t)}
          == before.trees - {Partial(t)} by { Rollback(staged.trees, before.trees, Partial(t), Outside(t),
          Previous(t)); }
      Unmoved(before, rolled, Partial(t), names);
    }
    var gone := Drop(disk, Partial(t), before, from, names);
    assert disk.fs.trees - {Partial(t)} == rolled.trees - {Partial(t)};
    if back {
      Unmoved(before, disk.fs, Partial(t), names);
    } else {
      OneMove(before, disk.fs, Outside(t), Previous(t), Partial(t), names);
    }
  }

  lemma Rollback(staged: map<Place, Tree>, b: map<Place, Tree>, hole: Place, x: Place, y: Place)
    requires hole !in b && x in b && y !in b && hole != x && hole != y && x != y
    requires staged - {hole} == (b - {x})[y := b[x]]
    ensures y in staged && (staged - {y})[x := staged[y]] - {hole} == b - {hole}
  {
    forall q | q != hole ensures (q in staged <==> q in (b - {x})[y := b[x]])
        && (q in staged ==> staged[q] == (b - {x})[y := b[x]][q]) {
      assert (b - {x})[y := b[x]] - {hole} == (b - {x})[y := b[x]];
      SameBut(staged, (b - {x})[y := b[x]], hole, q);
    }
  }

  lemma OneMoveAndNew(before: Fs, s: Fs, a: Place, b: Place, names: set<Place>)
    requires WellFormed(before) && WellFormed(s) && Extends(before.inodes, s.inodes) && before.next <= s.next
        && Apart(before, s)
    requires a in names && b in names && a.Outside? && b.Outside? && a != b
    requires a in before.trees && b !in before.trees
    requires s.trees - {a} == (before.trees - {a})[b := before.trees[a]]
    ensures Conserved(before, s, names)
  {
    var f := Stay(before)[a := b];
    forall q | q in f ensures f[q] in s.trees && s.trees[f[q]] == before.trees[q] {
      assert f[q] in s.trees - {a};
      assert (s.trees - {a})[f[q]] == s.trees[f[q]];
    }
    assert Relocates(before, s, names, f);
    forall q: Place | !q.Outside?
        ensures (q in s.trees <==> q in before.trees) && (q in s.trees ==> s.trees[q] == before.trees[q]) {
      assert q in s.trees <==> q in s.trees - {a};
      if q in s.trees { assert (s.trees - {a})[q] == before.trees[q]; }
    }
  }

  /** The sidecar is back in place and what was there is kept under another name. */
  ghost predicate Promoted(before: Fs, s: Fs, t: string) {
    && Previous(t) in before.trees && Outside(t) in before.trees
    && Outside(t) in s.trees && s.trees[Outside(t)] == before.trees[Previous(t)]
    && Current(t) in s.trees && s.trees[Current(t)] == before.trees[Outside(t)]
    && Previous(t) !in s.trees
    && Extends(before.inodes, s.inodes)
  }

  /** PromotePrevious: roll the last in-place restore back, reversibly. */
  method PromotePrevious(disk: Disk, target: Place) returns (ok: bool)
    requires WellFormed(disk.fs)
    modifies disk
    ensures target.Outside? ==>
      && old(disk.past) <= disk.past && AllConserved(old(disk.fs), disk.past, |old(disk.past)|, Family(target.path))
      && Conserved(old(disk.fs), disk.fs, Family(target.path))
    ensures ok ==> target.Outside? && Promoted(old(disk.fs), disk.fs, target.path)
    ensures (|| !target.Outside? || !old(IsFolder(disk.fs, target)) || !old(IsFolder(disk.fs, Previous(target.path)))
             || Current(target.path) in old(disk.fs).trees) ==>
      !ok && disk.fs == old(disk.fs)
    ensures old(disk.fs).faultless && target.Outside? && old(IsFolder(disk.fs, target))
            && old(IsFolder(disk.fs, Outside(target.path + ".atenea-previous")))
            && Outside(target.path + ".atenea-current") !in old(disk.fs).trees ==>
      ok
    ensures ok ==> Current(target.path) == Outside(target.path + ".atenea-current")
  {
    ok := false;
    if !target.Outside? { return; }
    ghost var before := disk.fs;
    var t := target.path;
    ghost var names := Family(t);
    assert Relocates(before, before, names, Stay(before));
    Distinct(t);
    if !IsFolder(disk.fs, target) || !IsFolder(disk.fs, Previous(t)) { return; }
    if Current(t) in disk.fs.trees { return; }
    ok := SwapBack(disk, t);
  }

  /** The renames of PromotePrevious, with the rollback. */
  method SwapBack(disk: Disk, t: string) returns (ok: bool)
    requires WellFormed(disk.fs) && Outside(t) in disk.fs.trees && Previous(t) in disk.fs.trees
        && Current(t) !in disk.fs.trees
    modifies disk
    ensures Conserved(old(disk.fs), disk.fs, Family(t))
    ensures old(disk.past) <= disk.past && AllConserved(old(disk.fs), disk.past, |old(disk.past)|, Family(t))
    ensures ok ==> Promoted(old(disk.fs), disk.fs, t)
    ensures old(disk.fs).faultless ==> ok
  {
    Distinct(t);
    ghost var before, names, from := disk.fs, Family(t), |disk.past|;
    assert Relocates(before, before, names, Stay(before));
    ok := Move(disk, Outside(t), Current(t), before, from, names);
    if !ok { return; }
    assert disk.fs.trees - {Outside(t)} == disk.fs.trees;
    OneMoveAndNew(before, disk.fs, Outside(t), Current(t), names);
    ok := SecondMove(disk, t, before, from);
  }

  /** The target is aside: put the sidecar in its place, or the target back. */
  method SecondMove(disk: Disk, t: string, ghost before: Fs, ghost from: nat) returns (ok: bool)
    requires WellFormed(before) && Outside(t) in before.trees && Previous(t) in before.trees
        && Current(t) !in before.trees
    requires disk.fs.inodes == before.inodes
    requires disk.fs.trees == (before.trees - {Outside(t)})[Current(t) := before.trees[Outside(t)]]
    requires Conserved(before, disk.fs, Family(t))
    requires from <= |disk.past| && AllConserved(before, disk.past, from, Family(t))
    requires disk.fs.faultless == before.faultless
    modifies disk
    ensures Conserved(before, disk.fs, Family(t))
    ensures old(disk.past) <= disk.past && AllConserved(before, disk.past, from, Family(t))
    ensures ok ==> Promoted(before, disk.fs, t)
    ensures before.faultless ==> ok
  {
    Distinct(t);
    ghost var names := Family(t);
    ok := Move(disk, Previous(t), Outside(t), before, from, names);
    if ok {
      ghost var aside := (before.trees - {Outside(t)} - {Previous(t)})[Current(t) := before.trees[Outside(t)]];
      assert disk.fs.trees == aside[Outside(t) := before.trees[Previous(t)]];
      TwoMoves(before, disk.fs, Outside(t), Current(t), Previous(t), names);
      ok := *;
      ok := ok || disk.fs.faultless;
    } else {
      var back := Move(disk, Current(t), Outside(t), before, from, names);
      if back { Unchanged(before, disk.fs, names); }
    }
  }

  lemma Unchanged(before: Fs, s: Fs, names: set<Place>)
    requires WellFormed(before) && WellFormed(s) && s.inodes == before.inodes && s.next >= before.next
        && Apart(before, s)
    requires s.trees == before.trees
    ensures Conserved(before, s, names)
  {
    assert Relocates(before, s, names, Stay(before));
  }

  /** DiscardPrevious: the one call that gives a tree up, and only that tree. */
  method DiscardPrevious(disk: Disk, target: Place) returns (ok: bool)
    requires WellFormed(disk.fs)
    modifies disk
    ensures WellFormed(disk.fs) && disk.fs.inodes == old(disk.fs).inodes
    ensures disk.fs == old(disk.fs)
        || (target.Outside? && disk.fs.trees == old(disk.fs).trees - {Previous(target.path)})
    ensures ok ==>
      && target.Outside? && old(IsFolder(disk.fs, Previous(target.path)))
      && Previous(target.path) !in disk.fs.trees
    ensures old(disk.fs).faultless && target.Outside?
            && old(IsFolder(disk.fs, Outside(target.path + ".atenea-previous"))) ==>
      ok
    ensures (!target.Outside? || !old(IsFolder(disk.fs, Outside(target.path + ".atenea-previous")))) ==>
      !ok && disk.fs == old(disk.fs)
  {
    ok := false;
    if !target.Outside? || !IsFolder(disk.fs, Previous(target.path)) { return; }
    ok := disk.RemoveAll(Previous(target.path));
    if ok {
      ok := *;
      ok := ok || disk.fs.faultless;
    }
  }

  /** What the two calls do one after the other, on a machine where nothing is in their
      way: the original is back, bytes and all, and the restored tree is kept. */
  method RestoreThenPromote(disk: Disk, at: int, t: string) returns (ok: bool)
    requires WellFormed(disk.fs) && disk.fs.faultless && at in Published(disk.fs) && IsFolder(disk.fs, Outside(t))
    requires Outside(t + ".atenea-restore.partial") !in disk.fs.trees
    requires Outside(t + ".atenea-previous") !in disk.fs.trees && Outside(t + ".atenea-current") !in disk.fs.trees
    modifies disk
    ensures ok
    ensures Outside(t) in disk.fs.trees && disk.fs.trees[Outside(t)] == old(disk.fs).trees[Outside(t)]
    ensures View(disk.fs.trees[Outside(t)], disk.fs.inodes) == old(View(disk.fs.trees[Outside(t)], disk.fs.inodes))
    ensures Outside(t + ".atenea-current") in disk.fs.trees
    ensures View(disk.fs.trees[Outside(t + ".atenea-current")], disk.fs.inodes)
            == old(View(disk.fs.trees[Stamp(at)], disk.fs.inodes))
  {
    ghost var a := disk.fs;
    ok := RestoreInPlace(disk, Some(at), Outside(t));
    ghost var b := disk.fs;
    RootKept(a, b, at, t);
    ok := PromotePrevious(disk, Outside(t));
    PromoteUndoesRestore(a, b, disk.fs, at, t);
  }

  /** After the swap both trees are real directories. */
  lemma RootKept(a: Fs, b: Fs, at: int, t: string)
    requires WellFormed(a) && Swapped(a, b, at, t) && at in Published(a) && IsFolder(a, Outside(t))
    ensures IsFolder(b, Outside(t)) && IsFolder(b, Previous(t))
  {
    assert IsFolder(a, Stamp(at));
    var v := View(b.trees[Outside(t)], b.inodes);
    assert [] in v && v[[]] == DirNode;
  }

  /** Promoting straight after an in-place restore puts the original tree back and
      keeps the restored one. */
  lemma PromoteUndoesRestore(a: Fs, b: Fs, c: Fs, at: int, t: string)
    requires WellFormed(a) && WellFormed(b) && Extends(a.inodes, b.inodes) && Swapped(a, b, at, t) && Promoted(b, c, t)
    ensures c.trees[Outside(t)] == a.trees[Outside(t)]
    ensures View(c.trees[Outside(t)], c.inodes) == View(a.trees[Outside(t)], a.inodes)
    ensures View(c.trees[Current(t)], c.inodes) == View(a.trees[Stamp(at)], a.inodes)
  {
    ViewKept(b, c, b.trees[Outside(t)]);
    ViewKept(a, c, a.trees[Outside(t)]);
  }

  /** Trees whose files all exist read the same when no older file has changed. */
  lemma ViewKept(a: Fs, b: Fs, tree: Tree)
    requires Extends(a.inodes, b.inodes) && forall p | p in tree && tree[p].File? :: tree[p].ino in a.inodes
    ensures View(tree, b.inodes) == View(tree, a.inodes)
  {
    forall p | p in tree ensures NodeOf(tree[p], b.inodes) == NodeOf(tree[p], a.inodes) {}
  }
}
