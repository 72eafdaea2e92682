/** Runs of SnapshotIfDue over any clock, in every outcome, with whatever else happens to
    the machine in between. */
module RhythmRuns {
  import opened Options
  import opened FileSystem
  import opened TreeCopy
  import opened Extras
  import opened Snapshots
  import opened Rhythm
  import opened Restores

  /** A `Beat` is one call, `back` when it has returned and `taken` when it has reported a
      copy; `Elsewhere` is anything that leaves the snapshot folder alone. */
  datatype Event = Beat(run: Run, now: int, ready: bool, back: bool, taken: bool) | Elsewhere

  ghost predicate Happens(a: Fs, e: Event, b: Fs, every: int, keep: nat) {
    match e
    case Beat(run, now, ready, back, taken) =>
      && Turn(a, b, run, now, every, keep)
      && (taken ==> Due(a, now, every) && Published(b) == Top(Published(a) + {run.at}, keep))
      && (back && ready && Feasible(a, run) && Due(a, now, every) ==> taken)
    case Elsewhere => SameStore(a, b)
  }

  /** Nothing keeps the machine from taking this copy. */
  ghost predicate Feasible(a: Fs, run: Run) {
    a.faultless && run.source.Some? && AllFit(run.source.value.nodes, run.extras)
  }

  /** A rhythm of at least a second, and at least one copy to keep. */
  ghost predicate Beats(states: seq<Fs>, events: seq<Event>, every: int, keep: nat) {
    && |states| == |events| + 1 && every >= SECOND && keep >= 1
    && forall i | 0 <= i < |events| :: Follows(states, events, i, every, keep)
  }

  ghost predicate Follows(states: seq<Fs>, events: seq<Event>, i: nat, every: int, keep: nat)
    requires i < |events| && |states| == |events| + 1
  {
    Happens(states[i], events[i], states[i + 1], every, keep)
  }

  /** Every name published up to the `k`-th state. */
  ghost function Ever(states: seq<Fs>, k: nat): set<int>
    requires k < |states|
  {
    if k == 0 then Published(states[0]) else Ever(states, k - 1) + Published(states[k])
  }

  lemma {:induction false} EverHas(states: seq<Fs>, i: nat, k: nat)
    requires i <= k < |states|
    ensures Published(states[i]) <= Ever(states, k)
  {
    if i < k { EverHas(states, i, k - 1); }
  }

  /** What one event can do to the names: one is added above all others, and each that
      goes has `keep` newer ones left; what stays is the very same tree. */
  ghost predicate Advances(a: Fs, b: Fs, keep: nat) {
    && (forall t, u | t in Published(b) && t !in Published(a) && u in Published(a) :: u < t)
    && (forall t, u | t in Published(b) - Published(a) && u in Published(b) - Published(a) :: t == u)
    && (forall t | t in Published(a) && t !in Published(b) :: keep <= |Above(Published(b), t)|)
    && (forall t | t in Published(a) && t in Published(b) :: b.trees[Stamp(t)] == a.trees[Stamp(t)])
  }

  lemma EventAdvances(a: Fs, e: Event, b: Fs, every: int, keep: nat)
    requires Happens(a, e, b, every, keep) && every >= SECOND
    ensures Advances(a, b, keep)
  {
    match e
    case Beat(run, now, _, _, _) => if b != a { BeatAdvances(a, b, run, now, every, keep); }
    case Elsewhere => SameNames(a, b);
  }

  lemma SameNames(a: Fs, b: Fs)
    requires SameStore(a, b)
    ensures Published(a) == Published(b)
  {
    forall t ensures t in Published(a) <==> t in Published(b) {
      assert Stamp(t) in a.trees <==> Stamp(t) in b.trees;
      if t in Published(a) { assert IsFolder(b, Stamp(t)); }
      if t in Published(b) { assert IsFolder(a, Stamp(t)); }
    }
  }

  lemma BeatAdvances(a: Fs, b: Fs, run: Run, now: int, every: int, keep: nat)
    requires Turn(a, b, run, now, every, keep) && Due(a, now, every) && every >= SECOND
    ensures Advances(a, b, keep)
  {
    forall u | u in Published(a) ensures u < run.at { LaterSecond(u, now, every); }
    forall t | t in Published(b) && t != run.at ensures t in Published(a) {
      assert Stamp(t) in b.trees;
      assert IsFolder(a, Stamp(t));
    }
    forall t | t in Published(a) && Stamp(t) in b.trees
        ensures b.trees[Stamp(t)] == a.trees[Stamp(t)] && t in Published(b) {
      assert IsFolder(b, Stamp(t));
    }
  }

  /** The newest `keep` of all names are among `s`, and `s` holds no others. */
  ghost predicate Newest(s: set<int>, all: set<int>, keep: nat) {
    s <= all && Top(all, keep) <= s
  }

  /** A set that holds the newest of all has them for its own newest. */
  lemma NewestTop(s: set<int>, all: set<int>, keep: nat)
    requires Newest(s, all, keep)
    ensures Top(s, keep) == Top(all, keep)
  {
    forall t | t in Top(all, keep) ensures t in Top(s, keep) { Bigger(Above(s, t), Above(all, t)); }
    forall t | t in Top(s, keep) ensures t in Top(all, keep) {
      if keep <= |Above(all, t)| { Crowded(s, all, keep, t); }
    }
  }

  lemma Crowded(s: set<int>, all: set<int>, keep: nat, t: int)
    requires Newest(s, all, keep) && keep <= |Above(all, t)|
    ensures keep <= |Above(s, t)|
  {
    TopCount(all, keep);
    Bigger(Above(all, t), all);
    forall u | u in Top(all, keep) ensures u in Above(s, t) {
      if u <= t { Bigger(Above(all, t), Above(all, u)); }
    }
    Bigger(Top(all, keep), Above(s, t));
  }

  /** A new name above all of `s` is above everything there ever was. */
  lemma AboveAll(s: set<int>, all: set<int>, keep: nat, t: int)
    requires Newest(s, all, keep) && keep >= 1 && forall u | u in s :: u < t
    ensures forall u | u in all :: u < t
  {
    if all != {} {
      var m := MaxOf(all);
      assert Above(all, m) == {};
      assert m in Top(all, keep);
    }
  }

  lemma NewestNext(a: Fs, b: Fs, all: set<int>, keep: nat)
    requires Advances(a, b, keep) && Newest(Published(a), all, keep)
    ensures Newest(Published(b), all + Published(b), keep)
  {
    var s, next := Published(b), all + Published(b);
    forall t | t in Top(next, keep) ensures t in s {
      if t !in s {
        Bigger(Above(all, t), Above(next, t));
        Bigger(Above(s, t), Above(next, t));
      }
    }
  }

  /** In every state, the newest `keep` of all names ever published are there. */
  lemma {:induction false} NewestStay(states: seq<Fs>, events: seq<Event>, every: int, keep: nat, k: nat)
    requires Beats(states, events, every, keep) && k < |states|
    ensures Newest(Published(states[k]), Ever(states, k), keep)
  {
    if k > 0 {
      NewestStay(states, events, every, keep, k - 1);
      assert Follows(states, events, k - 1, every, keep);
      EventAdvances(states[k - 1], events[k - 1], states[k], every, keep);
      NewestNext(states[k - 1], states[k], Ever(states, k - 1), keep);
    }
  }

  /** Names only ever increase: one that appears is newer than all there ever were. */
  lemma NamesIncrease(states: seq<Fs>, events: seq<Event>, every: int, keep: nat, k: nat, t: int)
    requires Beats(states, events, every, keep) && k < |events|
    requires t in Published(states[k + 1]) && t !in Published(states[k])
    ensures forall u | u in Ever(states, k) :: u < t
  {
    NewestStay(states, events, every, keep, k);
    assert Follows(states, events, k, every, keep);
    EventAdvances(states[k], events[k], states[k + 1], every, keep);
    AboveAll(Published(states[k]), Ever(states, k), keep, t);
  }

  /** A name that is there, and was there before, was there all along. */
  lemma StillThere(states: seq<Fs>, events: seq<Event>, every: int, keep: nat, i: nat, k: nat, t: int)
    requires Beats(states, events, every, keep) && i < k < |states|
    requires t in Published(states[i]) && t in Published(states[k])
    ensures t in Published(states[k - 1])
  {
    if t !in Published(states[k - 1]) {
      NamesIncrease(states, events, every, keep, k - 1, t);
      EverHas(states, i, k - 1);
      assert false;
    }
  }

  lemma SameTree(states: seq<Fs>, events: seq<Event>, every: int, keep: nat, k: nat, t: int)
    requires Beats(states, events, every, keep) && k < |events|
    requires t in Published(states[k]) && t in Published(states[k + 1])
    ensures states[k + 1].trees[Stamp(t)] == states[k].trees[Stamp(t)]
  {
    assert Follows(states, events, k, every, keep);
    EventAdvances(states[k], events[k], states[k + 1], every, keep);
  }

  /** A name stands for one tree for good: no copy ever takes the place of another, and
      one that has gone does not come back. */
  lemma {:induction false} NeverReplaced(states: seq<Fs>, events: seq<Event>, every: int, keep: nat, i: nat, j: nat,
                                         k: nat, t: int)
    requires Beats(states, events, every, keep) && i <= j <= k < |states|
    requires t in Published(states[i]) && t in Published(states[k])
    ensures t in Published(states[j]) && states[k].trees[Stamp(t)] == states[j].trees[Stamp(t)]
    decreases k
  {
    if j < k {
      StillThere(states, events, every, keep, i, k, t);
      NeverReplaced(states, events, every, keep, i, j, k - 1, t);
      SameTree(states, events, every, keep, k - 1, t);
    }
  }

  /** Whenever a call has reported a copy, exactly the newest `keep` of all names ever
      published are in the folder, its own among them. */
  lemma TakenLeavesNewest(states: seq<Fs>, events: seq<Event>, every: int, keep: nat, k: nat)
    requires Beats(states, events, every, keep) && 0 < k < |states| && events[k - 1].Beat? && events[k - 1].taken
    ensures Published(states[k]) == Top(Ever(states, k), keep)
    ensures |Published(states[k])| == Min(|Ever(states, k)|, keep)
    ensures events[k - 1].run.at in Published(states[k])
  {
    var a, b, e := states[k - 1], states[k], events[k - 1];
    assert Follows(states, events, k - 1, every, keep);
    forall u | u in Published(a) ensures u < e.run.at { LaterSecond(u, e.now, every); }
    NewestKept(Published(a), e.run.at, keep);
    NewestStay(states, events, every, keep, k);
    NewestTop(Published(b), Ever(states, k), keep);
    TopTwice(Published(a) + {e.run.at}, keep);
    TopCount(Ever(states, k), keep);
  }

  lemma TopTwice(s: set<int>, keep: nat)
    ensures Top(Top(s, keep), keep) == Top(s, keep)
  {
    forall t | t in Top(s, keep) ensures t in Top(Top(s, keep), keep) {
      Bigger(Above(Top(s, keep), t), Above(s, t));
    }
  }

  /** A beat that finds every copy old enough leaves one under its own second, in the
      folder and newer than all there ever were, when nothing is in its way. */
  lemma DueBeatPublishes(states: seq<Fs>, events: seq<Event>, every: int, keep: nat, k: nat)
    requires Beats(states, events, every, keep) && k < |events| && events[k].Beat?
    requires events[k].back && events[k].ready && Feasible(states[k], events[k].run)
    requires forall t | t in Published(states[k]) :: events[k].now - t * 1_000_000_000 >= every
    ensures events[k].now / 1_000_000_000 in Published(states[k + 1])
    ensures forall u | u in Ever(states, k) :: u < events[k].now / 1_000_000_000
    ensures Published(states[k + 1]) == Top(Ever(states, k + 1), keep)
  {
    DueBeatTaken(states, events, every, keep, k);
    TakenLeavesNewest(states, events, every, keep, k + 1);
    NewestStay(states, events, every, keep, k);
    OlderSeconds(states[k], events[k].now, every);
    AboveAll(Published(states[k]), Ever(states, k), keep, events[k].run.at);
  }

  lemma OlderSeconds(a: Fs, now: int, every: int)
    requires every >= SECOND && forall t | t in Published(a) :: now - t * 1_000_000_000 >= every
    ensures Due(a, now, every) && forall t | t in Published(a) :: t < now / SECOND
  {
    forall t | t in Published(a) ensures t < now / SECOND { LaterSecond(t, now, every); }
  }

  lemma DueBeatTaken(states: seq<Fs>, events: seq<Event>, every: int, keep: nat, k: nat)
    requires Beats(states, events, every, keep) && k < |events| && events[k].Beat?
    requires events[k].back && events[k].ready && Feasible(states[k], events[k].run)
    requires forall t | t in Published(states[k]) :: events[k].now - t * 1_000_000_000 >= every
    ensures events[k].taken && events[k].run.at == events[k].now / SECOND
  {
    assert Follows(states, events, k, every, keep);
    OlderSeconds(states[k], events[k].now, every);
  }

  /** One such call: a step of a run. */
  method Beating(disk: Disk, source: Option<Source>, extras: seq<Extra>, now: int, every: int, keep: nat, ready: bool)
    returns (e: Event)
    requires WellFormed(disk.fs) && keep >= 1 && every >= SECOND
    requires source.Some? ==> Walkable(source.value)
    modifies disk
    ensures e.Beat? && e.run == Run(source, extras, now / 1_000_000_000) && e.now == now && e.ready == ready && e.back
    ensures Happens(old(disk.fs), e, disk.fs, every, keep)
  {
    ghost var was := disk.fs;
    var taken, failed := SnapshotIfDue(disk, source, extras, now, every, keep, ready);
    e := Beat(Run(source, extras, now / SECOND), now, ready, true, taken.Some?);
    assert Due(was, now, every) ==> forall t | t in Published(was) :: now - t * 1_000_000_000 >= every;
  }
}
