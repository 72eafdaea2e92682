/** When a copy is due, and what a rotation has kept after any number of them. */
module Rhythm {
  import opened Options
  import opened FileSystem
  import opened TreeCopy
  import opened Extras
  import opened Snapshots

  /** Nanoseconds in a second; a snapshot's name keeps only whole seconds. */
  const SECOND := 1_000_000_000

  function Min(a: int, b: int): int {
    if a < b then a else b
  }

  /** The newest copy on disk is younger than the interval. */
  predicate TooSoon(newest: int, now: int, every: int) {
    now - newest * SECOND < every
  }

  /** A copy may be taken: none on disk is younger than the interval. */
  ghost predicate Due(fs: Fs, now: int, every: int) {
    forall t | t in Published(fs) :: !TooSoon(t, now, every)
  }

  /** What a call leaves behind when it finishes, fails or is stopped. */
  ghost predicate Turn(a: Fs, b: Fs, run: Run, now: int, every: int, keep: nat) {
    Undisturbed(a, b, run, keep) && run.at == now / SECOND && (b == a || Due(a, now, every))
  }

  ghost predicate AllTurns(a: Fs, past: seq<Fs>, from: nat, run: Run, now: int, every: int, keep: nat) {
    forall k | from <= k < |past| :: Turn(a, past[k], run, now, every, keep)
  }

  /** The totals a call reports about the tree it has published. */
  ghost predicate Counts(c: Counters, before: Fs, tree: Tree) {
    && c.files == c.linked + c.copied == |set p | p in tree && !tree[p].Dir?|
    && Reconciled(c, BaseOf(before, NewestPlace(before)), tree, before.next)
  }

  /** SnapshotIfDue, for an interval in nanoseconds. `taken` is the call's result. */
  method SnapshotIfDue(disk: Disk, source: Option<Source>, extras: seq<Extra>, now: int, every: int, keep: nat,
                       ready: bool)
    returns (taken: Option<Counters>, failed: bool)
    requires WellFormed(disk.fs) && keep >= 1
    requires source.Some? ==> Walkable(source.value)
    modifies disk
    ensures Turn(old(disk.fs), disk.fs, Run(source, extras, now / SECOND), now, every, keep)
    ensures old(disk.past) <= disk.past
    ensures AllTurns(old(disk.fs), disk.past, |old(disk.past)|, Run(source, extras, now / SECOND), now, every, keep)
    ensures (|| every <= 0 || (exists t :: t in old(Published(disk.fs)) && TooSoon(t, now, every))
             || !ready || source.None?) ==>
      taken.None? && disk.fs == old(disk.fs)
    ensures taken.Some? ==> !failed
    ensures old(disk.fs).faultless && every > 0 && ready && source.Some? && AllFit(source.value.nodes, extras)
            && (forall t | t in old(Published(disk.fs)) :: now - t * 1_000_000_000 >= every) ==>
      taken.Some?
    ensures every > 0 && (exists t | t in old(Published(disk.fs)) :: now - t * 1_000_000_000 < every) ==> !failed
    ensures every <= 0 ==> failed
    ensures every > 0 && (forall t | t in old(Published(disk.fs)) :: now - t * 1_000_000_000 >= every) ==>
      (!ready ==> failed) && (ready && source.None? ==> !failed)
      && (ready && source.Some? ==> failed == taken.None?)
    ensures taken.Some? ==>
      forall t | t in old(Published(disk.fs)) :: !TooSoon(t, now, every) && (every >= SECOND ==> t < now / SECOND)
    ensures taken.Some? ==> Published(disk.fs) == Top(old(Published(disk.fs)) + {now / SECOND}, keep)
    ensures taken.Some? && every >= SECOND ==>
      && now / SECOND in Published(disk.fs)
      && |Published(disk.fs)| == Min(|old(Published(disk.fs))| + 1, keep)
      && forall t | t in Published(disk.fs) && t != now / SECOND ::
           t in old(Published(disk.fs)) && disk.fs.trees[Stamp(t)] == old(disk.fs).trees[Stamp(t)]
    ensures taken.Some? && every >= SECOND ==>
      && Complete(old(disk.fs), disk.fs, Run(source, extras, now / SECOND))
      && Counts(taken.value, old(disk.fs), disk.fs.trees[Stamp(now / SECOND)])
  {
    taken, failed := None, true;
    ghost var run := Run(source, extras, now / SECOND);
    IdleUndisturbed(disk.fs, disk.fs, run, keep);
    if every <= 0 { return; }
    var existing := List(disk);
    ghost var was := disk.fs;
    if existing != [] {
      assert existing[0] in Elems(existing);
      if TooSoon(existing[0], now, every) { return None, false; }
    }
    OlderAll(existing, now, every);
    if !ready { return; }
    assert Due(was, now, every);
    var r, built := Snapshot(disk, Run(source, extras, now / SECOND), keep);
    if !r.Taken? || !r.rotated { return None, !r.Skipped?; }
    taken, failed := Some(r.counters), false;
    if every >= SECOND { NewestKept(Published(was), now / SECOND, keep); }
  }

  lemma NewestKept(s: set<int>, now: int, keep: nat)
    requires keep >= 1 && forall t | t in s :: t < now
    ensures now in Top(s + {now}, keep) && |Top(s + {now}, keep)| == Min(|s| + 1, keep)
  {
    assert Above(s + {now}, now) == {};
    TopCount(s + {now}, keep);
    assert now !in s;
  }

  /** If the newest is old enough, all are. */
  lemma OlderAll(l: seq<int>, now: int, every: int)
    requires Descending(l) && (l != [] ==> !TooSoon(l[0], now, every))
    ensures forall t | t in Elems(l) :: !TooSoon(t, now, every) && (every >= SECOND ==> t < now / SECOND)
  {
    forall t | t in Elems(l) ensures !TooSoon(t, now, every) && (every >= SECOND ==> t < now / SECOND) {
      var i :| 0 <= i < |l| && l[i] == t;
      assert i > 0 ==> l[0] > l[i];
      if every >= SECOND { LaterSecond(t, now, every); }
    }
  }

  lemma LaterSecond(t: int, now: int, every: int)
    requires !TooSoon(t, now, every) && every >= SECOND
    ensures t < now / SECOND
  {
  }

  lemma AboveAdd(s: set<int>, a: int, t: int)
    ensures Above(s + {a}, t) == Above(s, t) + if t < a then {a} else {}
  {
  }

  lemma {:induction false} Sorted(s: set<int>) returns (l: seq<int>)
    ensures Descending(l) && Elems(l) == s
  {
    if s == {} {
      l := [];
    } else {
      var m := MaxOf(s);
      var rest := Sorted(s - {m});
      l := [m] + rest;
      Headed(l, rest, m);
    }
  }

  lemma Headed(l: seq<int>, rest: seq<int>, m: int)
    requires l == [m] + rest && Descending(rest) && forall t | t in Elems(rest) :: t < m
    ensures Descending(l) && Elems(l) == Elems(rest) + {m}
  {
    forall i | 0 < i < |l| ensures l[i] == rest[i - 1] && l[i] in Elems(rest) {}
  }

  lemma TopCount(s: set<int>, keep: nat)
    ensures |Top(s, keep)| == Min(|s|, keep)
  {
    var l := Sorted(s);
    TopIsPrefix(l, keep);
    ElemsCount(l, Min(|l|, keep));
    ElemsCount(l, |l|);
    assert l[..|l|] == l;
  }

  /** The copy an interval of at least one second lets through always gets a strictly
      newer name, whatever the clock does; a shorter interval can lose that. */
  lemma NewNameIffWholeSecond(every: int)
    requires every > 0
    ensures (forall newest, now | !TooSoon(newest, now, every) :: newest < now / SECOND) <==> every >= SECOND
  {
    if every < SECOND {
      assert !TooSoon(0, every, every) && !(0 < every / SECOND);
    } else {
      forall newest, now | !TooSoon(newest, now, every) ensures newest < now / SECOND {
        LaterSecond(newest, now, every);
      }
    }
  }

  /** Names above a kept name are kept. */
  lemma TopClosed(s: set<int>, keep: nat, t: int)
    requires t in Top(s, keep)
    ensures Above(s, t) == Above(Top(s, keep), t)
  {
    forall u | u in Above(s, t) ensures u in Top(s, keep) {
      Bigger(Above(s, u), Above(s, t));
    }
  }

  /** Rotating after every copy keeps what one rotation of all copies would. */
  lemma RotateOnce(s: set<int>, a: int, keep: nat)
    ensures Top(Top(s, keep) + {a}, keep) == Top(s + {a}, keep)
  {
    var kept := Top(s, keep);
    forall t ensures t in Top(kept + {a}, keep) <==> t in Top(s + {a}, keep) {
      if t in kept {
        TopClosed(s, keep, t);
        AboveAdd(s, a, t);
        AboveAdd(kept, a, t);
      } else if t == a {
        SameAbove(s, a, keep);
      } else if t in s {
        Bigger(Above(s, t), Above(s + {a}, t));
      }
    }
  }

  lemma SameAbove(s: set<int>, a: int, keep: nat)
    requires a !in Top(s, keep)
    ensures |Above(Top(s, keep) + {a}, a)| < keep <==> |Above(s + {a}, a)| < keep
  {
    var kept := Top(s, keep);
    assert Above(s + {a}, a) == Above(s, a) && Above(kept + {a}, a) == Above(kept, a);
    Bigger(Above(kept, a), Above(s, a));
    if keep <= |Above(s, a)| {
      TopCount(s, keep);
      Bigger(Above(s, a), s);
      forall t | t in kept ensures a < t {
        if t <= a { Bigger(Above(s, a), Above(s, t)); }
      }
      assert Above(kept, a) == kept;
    } else {
      forall u | u in Above(s, a) ensures u in kept {
        Bigger(Above(s, u), Above(s, a));
      }
      assert Above(kept, a) == Above(s, a);
    }
  }

  function Taken(names: seq<int>): set<int> {
    set t | t in names
  }

  /** The folder after each of `names` was published and rotated in turn. */
  function Folder(first: set<int>, names: seq<int>, keep: nat): set<int> {
    if names == [] then first
    else Top(Folder(first, names[..|names| - 1], keep) + {names[|names| - 1]}, keep)
  }

  /** After any number of copies, in any order of names, exactly the newest `keep` of
      everything ever held remain. */
  lemma {:induction false} FolderIsTop(first: set<int>, names: seq<int>, keep: nat)
    requires names != []
    ensures Folder(first, names, keep) == Top(first + Taken(names), keep)
    ensures |Folder(first, names, keep)| == Min(|first + Taken(names)|, keep)
  {
    var front, a := names[..|names| - 1], names[|names| - 1];
    TakenLast(first, names);
    if front == [] {
      assert first + Taken(front) == first;
    } else {
      FolderIsTop(first, front, keep);
      RotateOnce(first + Taken(front), a, keep);
    }
    TopCount(first + Taken(names), keep);
  }

  lemma TakenLast(first: set<int>, names: seq<int>)
    requires names != []
    ensures first + Taken(names) == (first + Taken(names[..|names| - 1])) + {names[|names| - 1]}
    ensures Taken([]) == {}
  {
    assert names == names[..|names| - 1] + [names[|names| - 1]];
  }
}
