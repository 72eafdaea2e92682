/** When a run shares a file with the programs outside the store, and what follows. */
module Capture {
  import opened Options
  import opened FileSystem
  import opened TreeCopy
  import opened Extras
  import opened Snapshots
  import opened Restores
  import opened StoreRuns

  /** On a faultless machine a published run is apart from the live trees exactly when
      none of its lookups led into them. */
  lemma PublishedSeparateIff(a: Fs, b: Fs, run: Run, keep: nat)
    requires Separate(a) && Undisturbed(a, b, run, keep) && Complete(a, b, run) && a.faultless
    ensures Separate(b) <==> !Capturable(a, run)
  {
    if Capturable(a, run) {
      var p :| p in FullCopy(run) && Captures(a, run, p);
      Captured(a, b, run, keep, p);
    } else {
      SeparateStep(a, Took(run, keep), b);
    }
  }

  lemma Captured(a: Fs, b: Fs, run: Run, keep: nat, p: Path)
    requires WellFormed(a) && Undisturbed(a, b, run, keep) && Complete(a, b, run) && a.faultless
    requires Captures(a, run, p)
    ensures !Separate(b)
  {
    var base := BaseOf(a, NewestPlace(a));
    var e := b.trees[Stamp(run.at)][p];
    assert Faithful(base, a.next, b.inodes, p, e, FullCopy(run)[p]);
    LiveInosSame(a, b);
    TreeInos(b, run.at, p);
  }

  /** Snapshot itself on a faultless machine, when nothing in its extras is out of place
      and the new name is among the `keep` greatest: whether it captures a live file can
      be read off beforehand. */
  method SnapshotCaptures(disk: Disk, run: Run, keep: nat) returns (r: Outcome)
    requires Separate(disk.fs) && disk.fs.faultless && keep >= 1
    requires run.source.Some? && Walkable(run.source.value) && AllFit(run.source.value.nodes, run.extras)
    requires run.at in Top(Published(disk.fs) + {run.at}, keep)
    modifies disk
    ensures r.Taken? && run.at in Published(disk.fs)
    ensures Undisturbed(old(disk.fs), disk.fs, run, keep) && Complete(old(disk.fs), disk.fs, run)
    ensures Separate(disk.fs) <==> !old(Capturable(disk.fs, run))
  {
    ghost var before := disk.fs;
    ghost var built;
    r, built := Snapshot(disk, run, keep);
    assert Complete(before, disk.fs, run);
    PublishedSeparateIff(before, disk.fs, run, keep);
  }

  /** The store and the live trees share no file exactly when no edit that programs make
      to their own files can change what a snapshot reads as. */
  lemma SeparateIffEditsHarmless(b: Fs)
    requires WellFormed(b)
    ensures Separate(b) <==> forall c, t | LiveStep(b, c) && Stamp(t) in b.trees :: Reads(c, t) == Reads(b, t)
  {
    if Separate(b) {
      forall c, t | LiveStep(b, c) && Stamp(t) in b.trees ensures Reads(c, t) == Reads(b, t) {
        Unreplaced(b, Lived, c, t);
      }
    } else {
      var i :| i in StoreInos(b) && i in LiveInos(b);
      var q, p :| q in b.trees && q.Stamp? && p in b.trees[q] && b.trees[q][p].File? && b.trees[q][p].ino == i;
      var c := Edited(b, i);
      EditedLives(b, i);
      assert Stamp(q.at) in b.trees;
      assert Reads(c, q.at)[p] == FileNode(b.inodes[i].bytes + [0], b.inodes[i].mtime);
      assert Reads(b, q.at)[p] == FileNode(b.inodes[i].bytes, b.inodes[i].mtime);
      assert |b.inodes[i].bytes + [0]| != |b.inodes[i].bytes|;
    }
  }

  function Reads(fs: Fs, t: int): map<Path, Node> {
    View(TreeAt(fs, Stamp(t)), fs.inodes)
  }

  /** A program appends one byte to a file. */
  function Edited(b: Fs, i: nat): Fs
    requires i in b.inodes
  {
    b.(inodes := b.inodes[i := Inode(b.inodes[i].bytes + [0], b.inodes[i].mtime)])
  }

  lemma EditedLives(b: Fs, i: nat)
    requires WellFormed(b) && i in LiveInos(b) && i in b.inodes
    ensures LiveStep(b, Edited(b, i))
  {
    var c := Edited(b, i);
    forall q: Place | q in c.trees && q.Outside? ensures Own(b, c.trees[q]) { OwnKept(b, q); }
  }

  /** A number for each file of a run: what its lookup finds, or one of its own. */
  ghost predicate Numbered(base: Seen, bound: nat, inodes: map<nat, Inode>, files: map<Path, nat>, p: Path, n: Node) {
    n.FileNode? ==>
      && p in files && files[p] in inodes && Faithful(base, bound, inodes, p, File(files[p]), n)
      && (Shareable(base, p, n.bytes, n.mtime) ==> Look(base, p) == Some(File(files[p])))
  }

  lemma {:induction false} NumberAll(a: Fs, at: Place, nodes: map<Path, Node>, todo: set<Path>)
    returns (inodes: map<nat, Inode>, next: nat, files: map<Path, nat>)
    requires WellFormed(a) && at in a.trees && todo <= nodes.Keys
    ensures Extends(a.inodes, inodes) && a.next <= next && forall i | i in inodes :: i < next
    ensures forall p | p in todo :: Numbered(BaseOf(a, Some(at)), a.next, inodes, files, p, nodes[p])
  {
    if todo == {} {
      return a.inodes, a.next, map[];
    }
    var p :| p in todo;
    var base := BaseOf(a, Some(at));
    inodes, next, files := NumberAll(a, at, nodes, todo - {p});
    var was, had := inodes, files;
    if nodes[p].FileNode? {
      var n := nodes[p];
      LookGrounded(a, at, p);
      if Shareable(base, p, n.bytes, n.mtime) {
        files := files[p := Look(base, p).value.ino];
      } else {
        inodes, next, files := inodes[next := Inode(n.bytes, n.mtime)], next + 1, files[p := next];
      }
    }
    forall q | q in todo ensures Numbered(base, a.next, inodes, files, q, nodes[q]) {
      if q != p { assert Numbered(base, a.next, was, had, q, nodes[q]); }
    }
  }

  lemma {:induction false} ExpectedIsData(nodes: map<Path, Node>, extras: seq<Extra>)
    ensures forall p | p in Expected(nodes, extras) :: !Expected(nodes, extras)[p].SpecialNode?
  {
    if extras != [] { ExpectedIsData(nodes, extras[..|extras| - 1]); }
  }

  function EntryFor(n: Node, files: map<Path, nat>, p: Path): Entry {
    match n
    case DirNode => Dir
    case LinkNode(to) => Symlink(to)
    case _ => File(if p in files then files[p] else 0)
  }

  lemma LinkingUndisturbed(a: Fs, b: Fs, run: Run, keep: nat)
    requires WellFormed(a) && run.source.Some? && Rooted(run)
    requires Extends(a.inodes, b.inodes) && a.next <= b.next && b.links == a.links && b.faultless == a.faultless
    requires forall i | i in b.inodes :: i < b.next
    requires Stamp(run.at) in b.trees && b.trees == a.trees[Stamp(run.at) := b.trees[Stamp(run.at)]]
    requires Copies(BaseOf(a, NewestPlace(a)), a.next, b.inodes, b.trees[Stamp(run.at)], FullCopy(run))
    requires forall p | p in b.trees[Stamp(run.at)] && b.trees[Stamp(run.at)][p].File? ::
        b.trees[Stamp(run.at)][p].ino in b.inodes
    ensures Undisturbed(a, b, run, keep) && Complete(a, b, run)
  {
    var tree, base := b.trees[Stamp(run.at)], BaseOf(a, NewestPlace(a));
    assert Faithful(base, a.next, b.inodes, [], tree[[]], FullCopy(run)[[]]);
    assert Complete(a, b, run);
    forall t | Stamp(t) in b.trees && t != run.at
        ensures Stamp(t) in a.trees && b.trees[Stamp(t)] == a.trees[Stamp(t)] {}
    assert Names(a, b, run);
  }

  /** A state the run may end in, with every file linked that can be. */
  lemma LinkingRun(a: Fs, run: Run, keep: nat) returns (b: Fs)
    requires WellFormed(a) && NewestPlace(a).Some? && run.source.Some? && Rooted(run)
    ensures Undisturbed(a, b, run, keep) && Complete(a, b, run) && b.trees.Keys == a.trees.Keys + {Stamp(run.at)}
    ensures forall p | p in FullCopy(run) && Captures(a, run, p) ::
      b.trees[Stamp(run.at)][p] == Look(BaseOf(a, NewestPlace(a)), p).value
  {
    var nodes, base := FullCopy(run), BaseOf(a, NewestPlace(a));
    var inodes, next, files := NumberAll(a, NewestPlace(a).value, nodes, nodes.Keys);
    var tree := map p | p in nodes :: EntryFor(nodes[p], files, p);
    ExpectedIsData(run.source.value.nodes, run.extras);
    forall p | p in tree ensures Faithful(base, a.next, inodes, p, tree[p], nodes[p]) {
      assert Numbered(base, a.next, inodes, files, p, nodes[p]);
    }
    forall p | p in nodes && Captures(a, run, p) ensures tree[p] == Look(base, p).value {
      assert Numbered(base, a.next, inodes, files, p, nodes[p]);
    }
    b := Fs(a.trees[Stamp(run.at) := tree], inodes, next, a.links, a.faultless);
    assert Copies(base, a.next, inodes, tree, nodes);
    LinkingUndisturbed(a, b, run, keep);
  }

  /** The walk's own directory is what the run publishes. */
  ghost predicate Rooted(run: Run)
    requires run.source.Some?
  {
    [] in FullCopy(run) && FullCopy(run)[[]].DirNode?
  }

  /** From a store that is apart from the live trees, every state a run may leave is
      apart from them, exactly when no lookup of the run leads to a live file that
      matches; a run whose data has no directory at its root publishes nothing. */
  lemma RunSeparateIff(a: Fs, run: Run, keep: nat)
    requires Separate(a)
    ensures (forall b | Undisturbed(a, b, run, keep) :: Separate(b)) <==> !(Capturable(a, run) && Rooted(run))
  {
    if Capturable(a, run) && Rooted(run) {
      var p :| p in FullCopy(run) && Captures(a, run, p);
      var b := LinkingRun(a, run, keep);
      LiveInosSame(a, b);
      TreeInos(b, run.at, p);
      assert !Separate(b);
    } else {
      forall b | Undisturbed(a, b, run, keep) ensures Separate(b) {
        if Complete(a, b, run) { RootIsData(a, b, run); }
        SeparateStep(a, Took(run, keep), b);
      }
    }
  }

  lemma RootIsData(a: Fs, b: Fs, run: Run)
    requires Complete(a, b, run)
    ensures Rooted(run)
  {
    var tree, base := b.trees[Stamp(run.at)], BaseOf(a, NewestPlace(a));
    assert Faithful(base, a.next, b.inodes, [], tree[[]], FullCopy(run)[[]]);
  }

  const LIVE: Place := Outside("/live")

  /** A link to a live tree inside the newest snapshot, and a run in which a directory
      with a copy of that tree has taken the place of the link. */
  function LinkedBefore(): Fs {
    Fs(map[LIVE := map[[] := Dir, ["f"] := File(0)],
           Stamp(1) := map[[] := Dir, ["d"] := Symlink("/live")]],
       map[0 := Inode([7], 5)], 1,
       (q: Place, p: Path) => if q == Stamp(1) && p != [] && p[0] == "d" then Some((LIVE, p[1..])) else None,
       true)
  }

  function LinkedSource(): map<Path, Node> {
    map[[] := DirNode, ["d"] := DirNode, ["d", "f"] := FileNode([7], 5)]
  }

  function LinkedRun(): Run {
    Run(Some(Source(LinkedSource(), [[], ["d"], ["d", "f"]])), [], 2)
  }

  /** Looking `d/f` up in the newest snapshot follows its link `d` to the live file,
      whose size and time match. */
  lemma LinkedParentCapturesLiveFile()
    ensures Separate(LinkedBefore()) && Published(LinkedBefore()) == {1} && FullCopy(LinkedRun()) == LinkedSource()
    ensures Captures(LinkedBefore(), LinkedRun(), ["d", "f"]) && Capturable(LinkedBefore(), LinkedRun())
  {
    var a, p := LinkedBefore(), ["d", "f"];
    assert StoreInos(a) == {};
    assert Published(a) == {1} by { assert IsFolder(a, Stamp(1)); }
    assert FullCopy(LinkedRun()) == LinkedSource();
    assert ViaLink(a.trees[Stamp(1)], p) by { assert p[..1] == ["d"]; }
    assert p[1..] == ["f"];
    LookIsFound(a, Stamp(1), p);
    assert Found(a, Stamp(1), p) == Some(File(0));
    LiveTreeInos(a, LIVE, ["f"]);
    assert Captures(a, LinkedRun(), p);
  }

  /** The second snapshot is there, and its `d/f` is the live file. */
  predicate NamesLiveFile(b: Fs) {
    && 2 in Published(b) && ["f"] in TreeAt(b, LIVE) && TreeAt(b, LIVE)[["f"]] == File(0) && 0 in b.inodes
    && ["d", "f"] in TreeAt(b, Stamp(2)) && TreeAt(b, Stamp(2))[["d", "f"]] == File(0)
  }

  lemma LinkedPublished(b: Fs)
    requires Undisturbed(LinkedBefore(), b, LinkedRun(), 5) && Complete(LinkedBefore(), b, LinkedRun())
    ensures NamesLiveFile(b)
  {
    LinkedParentCapturesLiveFile();
    var a, run, p := LinkedBefore(), LinkedRun(), ["d", "f"];
    assert NewestPlace(a) == Some(Stamp(1));
    assert Faithful(BaseOf(a, Some(Stamp(1))), a.next, b.inodes, p, b.trees[Stamp(2)][p], FullCopy(run)[p]);
    LookIsFound(a, Stamp(1), p);
    assert p[1..] == ["f"];
    assert ViaLink(a.trees[Stamp(1)], p) by { assert p[..1] == ["d"]; }
    assert !Sweepable(LIVE) && LIVE in b.trees && b.trees[LIVE] == a.trees[LIVE];
  }

  lemma NamedIsRewritten(b: Fs)
    requires WellFormed(b) && NamesLiveFile(b)
    ensures LiveStep(b, Edited(b, 0)) && Reads(Edited(b, 0), 2) != Reads(b, 2)
  {
    var p := ["d", "f"];
    LiveTreeInos(b, LIVE, ["f"]);
    EditedLives(b, 0);
    assert Reads(Edited(b, 0), 2)[p] == FileNode(b.inodes[0].bytes + [0], b.inodes[0].mtime);
    assert Reads(b, 2)[p] == FileNode(b.inodes[0].bytes, b.inodes[0].mtime);
    assert |b.inodes[0].bytes + [0]| != |b.inodes[0].bytes|;
  }

  /** The run itself: the snapshot it publishes names the live file, and appending a
      byte to that file afterwards changes what the snapshot reads as. */
  method LinkedRunCaptures(disk: Disk) returns (r: Outcome)
    requires disk.fs == LinkedBefore()
    modifies disk
    ensures r.Taken? && NamesLiveFile(disk.fs) && !Separate(disk.fs)
    ensures LiveStep(disk.fs, Edited(disk.fs, 0)) && Reads(Edited(disk.fs, 0), 2) != Reads(disk.fs, 2)
  {
    LinkedParentCapturesLiveFile();
    assert |Above({1, 2}, 2)| == 0 by { assert Above({1, 2}, 2) == {}; }
    assert Published(disk.fs) + {2} == {1, 2};
    LinkedFits();
    r := SnapshotCaptures(disk, LinkedRun(), 5);
    LinkedPublished(disk.fs);
    NamedIsRewritten(disk.fs);
  }

  lemma LinkedFits()
    ensures Walkable(LinkedRun().source.value) && AllFit(LinkedSource(), [])
  {
  }
}
