/** Whole histories of the machine: snapshots that finish, fail or are killed,
    restores and rollbacks, and programs that go on editing the live trees. */
module StoreRuns {
  import opened Options
  import opened FileSystem
  import opened TreeCopy
  import opened Extras
  import opened Snapshots
  import opened Restores

  /** `Took` is a call of Snapshot in any of its outcomes; `Swapped` any of the restore
      calls, `Discarded` the one that gives a sidecar up; `Lived` is whatever programs
      did to their own files in between. */
  datatype Step = Took(run: Run, keep: nat) | Moved(names: set<Place>) | Discarded(t: string) | Lived

  /** Programs write only the files their own trees name, and new ones. */
  ghost predicate LiveStep(a: Fs, b: Fs) {
    && WellFormed(b) && a.next <= b.next && SameStore(a, b) && Apart(a, b)
    && forall i | i in a.inodes && i !in LiveInos(a) :: i in b.inodes && b.inodes[i] == a.inodes[i]
  }

  ghost predicate Link(a: Fs, step: Step, b: Fs) {
    match step
    case Took(run, keep) => Undisturbed(a, b, run, keep)
    case Moved(names) => Conserved(a, b, names)
    case Discarded(t) => b == a.(trees := a.trees - {Previous(t)})
    case Lived => LiveStep(a, b)
  }

  /** The plain full copy a run stands for. */
  function FullCopy(run: Run): map<Path, Node>
    requires run.source.Some?
  {
    Expected(run.source.value.nodes, run.extras)
  }

  /** Looking `p` up in the newest snapshot leads to a file some program is using, of the
      size and the time the run has for `p`. */
  ghost predicate Captures(a: Fs, run: Run, p: Path)
    requires run.source.Some?
  {
    var base := BaseOf(a, NewestPlace(a));
    && p in FullCopy(run) && FullCopy(run)[p].FileNode?
    && Shareable(base, p, FullCopy(run)[p].bytes, FullCopy(run)[p].mtime)
    && Look(base, p).value.ino in LiveInos(a)
  }

  ghost predicate Capturable(a: Fs, run: Run) {
    run.source.Some? && exists p | p in FullCopy(run) :: Captures(a, run, p)
  }

  /** No file of the run has a path that meets a link inside the newest snapshot. */
  ghost predicate Unlinked(a: Fs, run: Run) {
    run.source.Some? ==>
      forall p | p in FullCopy(run) && FullCopy(run)[p].FileNode? :: !ViaLink(BaseOf(a, NewestPlace(a)).tree, p)
  }

  ghost predicate Chain(states: seq<Fs>, steps: seq<Step>) {
    && |states| == |steps| + 1 && WellFormed(states[0])
    && forall k | 0 <= k < |steps| :: LinkAt(states, steps, k)
  }

  ghost predicate LinkAt(states: seq<Fs>, steps: seq<Step>, k: nat)
    requires k < |steps| && |states| == |steps| + 1
  {
    Link(states[k], steps[k], states[k + 1])
  }

  /** A history in which no run finds a live file where it looks for an older one. */
  ghost predicate History(states: seq<Fs>, steps: seq<Step>) {
    && Chain(states, steps)
    && forall k | 0 <= k < |steps| && steps[k].Took? :: !Capturable(states[k], steps[k].run)
  }

  /** A history in which no run looks through a link at all. */
  ghost predicate PlainHistory(states: seq<Fs>, steps: seq<Step>) {
    && Chain(states, steps)
    && forall k | 0 <= k < |steps| && steps[k].Took? :: Unlinked(states[k], steps[k].run)
  }

  /** Inodes the snapshots name. */
  function StoreInos(fs: Fs): set<nat> {
    set q, p | q in fs.trees && q.Stamp? && p in fs.trees[q] && fs.trees[q][p].File? :: fs.trees[q][p].ino
  }

  /** No file is shared between the store and the live trees. */
  ghost predicate Separate(fs: Fs) {
    WellFormed(fs) && StoreInos(fs) !! LiveInos(fs)
  }

  lemma TreeInos(fs: Fs, t: int, p: Path)
    requires Stamp(t) in fs.trees && p in fs.trees[Stamp(t)] && fs.trees[Stamp(t)][p].File?
    ensures fs.trees[Stamp(t)][p].ino in StoreInos(fs)
  {
  }

  lemma LiveTreeInos(fs: Fs, q: Place, p: Path)
    requires q in fs.trees && q.Outside? && p in fs.trees[q] && fs.trees[q][p].File?
    ensures fs.trees[q][p].ino in LiveInos(fs)
  {
  }

  /** What a lookup in a snapshot finds is a file of the store or a live one. */
  lemma FoundWhere(a: Fs, t: int, p: Path, i: nat)
    requires Found(a, Stamp(t), p) == Some(File(i))
    ensures i in StoreInos(a) || i in LiveInos(a)
  {
    if ViaLink(a.trees[Stamp(t)], p) {
      var (q, r) := a.links(Stamp(t), p).value;
      if q.Stamp? { TreeInos(a, q.at, r); } else { LiveTreeInos(a, q, r); }
    } else {
      TreeInos(a, t, p);
    }
  }

  /** A file of the new tree is new, or a file the store already named. */
  lemma NewTreeInos(a: Fs, b: Fs, run: Run, p: Path)
    requires WellFormed(a) && Complete(a, b, run) && !Capturable(a, run)
    requires p in b.trees[Stamp(run.at)] && b.trees[Stamp(run.at)][p].File?
    ensures a.next <= b.trees[Stamp(run.at)][p].ino || b.trees[Stamp(run.at)][p].ino in StoreInos(a)
  {
    var base := BaseOf(a, NewestPlace(a));
    var e := b.trees[Stamp(run.at)][p];
    assert Faithful(base, a.next, b.inodes, p, e, FullCopy(run)[p]);
    if e.ino < a.next {
      LookIsFound(a, NewestPlace(a).value, p);
      FoundWhere(a, NewestPlace(a).value.at, p, e.ino);
      assert !Captures(a, run, p);
    }
  }

  lemma StoreInosGrow(a: Fs, b: Fs, run: Run, keep: nat, i: nat)
    requires WellFormed(a) && Undisturbed(a, b, run, keep) && i in StoreInos(b)
    requires Complete(a, b, run) ==> !Capturable(a, run)
    ensures a.next <= i || i in StoreInos(a)
  {
    var q, p :| q in b.trees && q.Stamp? && p in b.trees[q] && b.trees[q][p].File? && b.trees[q][p].ino == i;
    var t := q.at;
    assert Stamp(t) in b.trees;
    if Stamp(t) in a.trees && b.trees[Stamp(t)] == a.trees[Stamp(t)] {
      TreeInos(a, t, p);
    } else {
      NewTreeInos(a, b, run, p);
    }
  }

  lemma LiveInosSame(a: Fs, b: Fs)
    requires OthersKept(a, b)
    ensures LiveInos(b) == LiveInos(a)
  {
    forall q: Place | q.Outside? ensures !q.Stamp? && !Sweepable(q) {}
    forall i ensures i in LiveInos(a) <==> i in LiveInos(b) {
      if i in LiveInos(a) {
        var q, p :| q in a.trees && q.Outside? && p in a.trees[q] && a.trees[q][p].File? && a.trees[q][p].ino == i;
        assert q in b.trees && b.trees[q] == a.trees[q];
      }
      if i in LiveInos(b) {
        var q, p :| q in b.trees && q.Outside? && p in b.trees[q] && b.trees[q][p].File? && b.trees[q][p].ino == i;
        assert q in a.trees && b.trees[q] == a.trees[q];
      }
    }
  }

  lemma StoreInosSame(a: Fs, b: Fs)
    requires SameStore(a, b)
    ensures StoreInos(b) == StoreInos(a)
  {
    forall i ensures i in StoreInos(a) <==> i in StoreInos(b) {
      if i in StoreInos(a) {
        var q, p :| q in a.trees && q.Stamp? && p in a.trees[q] && a.trees[q][p].File? && a.trees[q][p].ino == i;
        assert q in b.trees && b.trees[q] == a.trees[q];
      }
      if i in StoreInos(b) {
        var q, p :| q in b.trees && q.Stamp? && p in b.trees[q] && b.trees[q][p].File? && b.trees[q][p].ino == i;
        assert q in a.trees && b.trees[q] == a.trees[q];
      }
    }
  }

  lemma DiscardInos(a: Fs, b: Fs, t: string)
    requires b == a.(trees := a.trees - {Previous(t)})
    ensures StoreInos(b) <= StoreInos(a) && LiveInos(b) <= LiveInos(a)
  {
    forall i | i in StoreInos(b) ensures i in StoreInos(a) {
      var q, p :| q in b.trees && q.Stamp? && p in b.trees[q] && b.trees[q][p].File? && b.trees[q][p].ino == i;
      assert q in a.trees && a.trees[q] == b.trees[q];
    }
    forall i | i in LiveInos(b) ensures i in LiveInos(a) {
      var q, p :| q in b.trees && q.Outside? && p in b.trees[q] && b.trees[q][p].File? && b.trees[q][p].ino == i;
      assert q in a.trees && a.trees[q] == b.trees[q];
    }
  }

  /** Every step keeps the store and the live trees apart. */
  lemma SeparateStep(a: Fs, step: Step, b: Fs)
    requires Separate(a) && Link(a, step, b)
    requires step.Took? && Complete(a, b, step.run) ==> !Capturable(a, step.run)
    ensures Separate(b)
  {
    match step
    case Took(run, keep) =>
      LiveInosSame(a, b);
      forall i | i in StoreInos(b) ensures i !in LiveInos(b) {
        StoreInosGrow(a, b, run, keep, i);
        if i in LiveInos(a) { LiveBelow(a, i); }
      }
    case Moved(names) =>
      LiveApart(a, b);
    case Discarded(t) =>
      DiscardInos(a, b, t);
    case Lived =>
      LiveApart(a, b);
  }

  lemma LiveApart(a: Fs, b: Fs)
    requires Separate(a) && WellFormed(b) && SameStore(a, b) && Apart(a, b)
    ensures Separate(b)
  {
    StoreInosSame(a, b);
    forall i | i in LiveInos(b) ensures i !in StoreInos(b) {
      LiveFrom(a, b, i);
      if i in StoreInos(a) { StoreBelow(a, i); }
    }
  }

  lemma LiveBelow(a: Fs, i: nat)
    requires WellFormed(a) && i in LiveInos(a)
    ensures i < a.next
  {
    var q, p :| q in a.trees && q.Outside? && p in a.trees[q] && a.trees[q][p].File? && a.trees[q][p].ino == i;
  }

  lemma StoreBelow(a: Fs, i: nat)
    requires WellFormed(a) && i in StoreInos(a)
    ensures i < a.next
  {
    var q, p :| q in a.trees && q.Stamp? && p in a.trees[q] && a.trees[q][p].File? && a.trees[q][p].ino == i;
  }

  lemma {:induction false} SeparateAlways(states: seq<Fs>, steps: seq<Step>, k: nat)
    requires History(states, steps) && Separate(states[0]) && k < |states|
    ensures Separate(states[k])
  {
    if k > 0 {
      SeparateAlways(states, steps, k - 1);
      assert LinkAt(states, steps, k - 1);
      SeparateStep(states[k - 1], steps[k - 1], states[k]);
    }
  }

  /** One step leaves a snapshot alone, to the byte, unless it replaced it. */
  lemma Unreplaced(a: Fs, step: Step, b: Fs, t: int)
    requires Separate(a) && Link(a, step, b)
    requires Stamp(t) in a.trees && Stamp(t) in b.trees && !(step.Took? && step.run.at == t && Complete(a, b, step.run))
    ensures b.trees[Stamp(t)] == a.trees[Stamp(t)]
    ensures View(b.trees[Stamp(t)], b.inodes) == View(a.trees[Stamp(t)], a.inodes)
  {
    var tree := a.trees[Stamp(t)];
    assert b.trees[Stamp(t)] == tree;
    forall p | p in tree ensures NodeOf(tree[p], b.inodes) == NodeOf(tree[p], a.inodes) {
      if tree[p].File? { TreeInos(a, t, p); }
    }
  }

  /** A published snapshot never changes: whatever happens between two moments at which
      it exists, short of being taken again in the same second, its paths, bytes, links
      and times are the same. */
  lemma {:induction false} SnapshotsFrozen(states: seq<Fs>, steps: seq<Step>, t: int, i: nat, j: nat)
    requires History(states, steps) && Separate(states[0]) && i <= j < |states|
    requires forall k | i <= k <= j :: Stamp(t) in states[k].trees
    requires forall k | i <= k < j :: !(steps[k].Took? && steps[k].run.at == t)
    ensures View(states[j].trees[Stamp(t)], states[j].inodes) == View(states[i].trees[Stamp(t)], states[i].inodes)
  {
    if i < j {
      SnapshotsFrozen(states, steps, t, i, j - 1);
      SeparateAlways(states, steps, j - 1);
      assert LinkAt(states, steps, j - 1);
      Unreplaced(states[j - 1], steps[j - 1], states[j], t);
    }
  }

  /** Two runs that see the same size and time at a path see the same bytes there. */
  ghost predicate Agree(r: Run, s: Run) {
    r.source.Some? && s.source.Some? ==>
      forall p | p in FullCopy(r) && p in FullCopy(s) && FullCopy(r)[p].FileNode? && FullCopy(s)[p].FileNode?
        && |FullCopy(r)[p].bytes| == |FullCopy(s)[p].bytes| && FullCopy(r)[p].mtime == FullCopy(s)[p].mtime ::
        FullCopy(r)[p].bytes == FullCopy(s)[p].bytes
  }

  ghost predicate Honest(steps: seq<Step>) {
    forall k, l | 0 <= k < |steps| && 0 <= l < |steps| && steps[k].Took? && steps[l].Took? ::
        Agree(steps[k].run, steps[l].run)
  }

  /** The snapshot at `t` reads as the full copy of the run that took it. */
  ghost predicate ReadsAs(fs: Fs, t: int, run: Run) {
    && run.source.Some? && run.at == t && Stamp(t) in fs.trees
    && View(fs.trees[Stamp(t)], fs.inodes) == FullCopy(run)
  }

  ghost predicate TakenBy(fs: Fs, t: int, steps: seq<Step>) {
    exists j | 0 <= j < |steps| :: steps[j].Took? && ReadsAs(fs, t, steps[j].run)
  }

  /** A tree built on an honest base reads as the full copy. */
  lemma IncrementalIsFull(a: Fs, b: Fs, run: Run, older: Run)
    requires WellFormed(a) && Complete(a, b, run) && Unlinked(a, run) && Extends(a.inodes, b.inodes)
    requires NewestPlace(a).Some? ==> ReadsAs(a, NewestPlace(a).value.at, older) && Agree(run, older)
    ensures ReadsAs(b, run.at, run)
  {
    var base := BaseOf(a, NewestPlace(a));
    var tree := b.trees[Stamp(run.at)];
    forall p | p in tree ensures NodeOf(tree[p], b.inodes) == FullCopy(run)[p] {
      assert Faithful(base, a.next, b.inodes, p, tree[p], FullCopy(run)[p]);
      if tree[p].File? && Look(base, p) == Some(tree[p])
        && Shareable(base, p, FullCopy(run)[p].bytes, FullCopy(run)[p].mtime) {
        assert !ViaLink(base.tree, p);
        assert base.tree == a.trees[NewestPlace(a).value];
        assert p in View(base.tree, a.inodes) && View(base.tree, a.inodes)[p] == NodeOf(base.tree[p], a.inodes);
      }
    }
    assert View(tree, b.inodes).Keys == FullCopy(run).Keys;
  }

  lemma UnlinkedSafe(a: Fs, run: Run)
    requires Separate(a) && Unlinked(a, run)
    ensures !Capturable(a, run)
  {
    if Capturable(a, run) {
      var p :| p in FullCopy(run) && Captures(a, run, p);
      TreeInos(a, NewestPlace(a).value.at, p);
      assert false;
    }
  }

  lemma {:induction false} PlainSeparate(states: seq<Fs>, steps: seq<Step>, k: nat)
    requires PlainHistory(states, steps) && Separate(states[0]) && k < |states|
    ensures Separate(states[k])
  {
    if k > 0 {
      PlainSeparate(states, steps, k - 1);
      assert LinkAt(states, steps, k - 1);
      if steps[k - 1].Took? { UnlinkedSafe(states[k - 1], steps[k - 1].run); }
      SeparateStep(states[k - 1], steps[k - 1], states[k]);
    }
  }

  /** Over every history that starts with an empty store, every snapshot equals the
      plain full copy of its source overlaid with its extras. */
  lemma {:induction false} EverySnapshotIsFull(states: seq<Fs>, steps: seq<Step>, k: nat, t: int)
    requires PlainHistory(states, steps) && Separate(states[0]) && Honest(steps) && k < |states|
    requires forall u :: Stamp(u) !in states[0].trees
    requires Stamp(t) in states[k].trees
    ensures TakenBy(states[k], t, steps)
  {
    if k > 0 {
      var a, step, b := states[k - 1], steps[k - 1], states[k];
      assert LinkAt(states, steps, k - 1);
      PlainSeparate(states, steps, k - 1);
      if Stamp(t) in a.trees && !(step.Took? && step.run.at == t && Complete(a, b, step.run)) {
        EverySnapshotIsFull(states, steps, k - 1, t);
        var j :| 0 <= j < |steps| && steps[j].Took? && ReadsAs(a, t, steps[j].run);
        Unreplaced(a, step, b, t);
        assert ReadsAs(b, t, steps[j].run);
      } else {
        var run := step.run;
        if NewestPlace(a).Some? {
          var u := NewestPlace(a).value.at;
          EverySnapshotIsFull(states, steps, k - 1, u);
          var j :| 0 <= j < |steps| && steps[j].Took? && ReadsAs(a, u, steps[j].run);
          assert Agree(steps[k - 1].run, steps[j].run);
          IncrementalIsFull(a, b, run, steps[j].run);
        } else {
          IncrementalIsFull(a, b, run, run);
        }
        assert steps[k - 1].Took? && ReadsAs(b, t, steps[k - 1].run);
      }
    }
  }

  /** What a restore of any snapshot of such a history hands back is the full copy some
      run was asked for. */
  lemma RestoreIsFull(states: seq<Fs>, steps: seq<Step>, k: nat, at: int, target: string, s: Fs)
    requires PlainHistory(states, steps) && Separate(states[0]) && Honest(steps) && k < |states|
    requires forall u :: Stamp(u) !in states[0].trees
    requires RestoredFrom(states[k], s, at, target)
    ensures exists j | 0 <= j < |steps| && steps[j].Took? :: && steps[j].run.source.Some? && steps[j].run.at == at
              && View(s.trees[Outside(target)], s.inodes) == FullCopy(steps[j].run)
  {
    EverySnapshotIsFull(states, steps, k, at);
    var j :| 0 <= j < |steps| && steps[j].Took? && ReadsAs(states[k], at, steps[j].run);
    assert View(s.trees[Outside(target)], s.inodes) == FullCopy(steps[j].run);
  }

}
