/** One receipt under calls of Save, Prune and Recover that overlap, in any number of
    processes. A call's step is one file operation on the receipt; Prune and Recover judge
    the receipt in one step and act on it in a later one. */
module Races {
  import opened Options
  import opened Receipts

  /** A file that does not read, or a whole run: the rename in Save leaves nothing else. */
  datatype Content = Unread | Whole(run: Run)

  /** How far a call has come. */
  datatype Call =
    | Saving(run: Run)
    // Prune: to load, to lock, to remove, to unlock
    | Judging(cutoff: int)
    | Judged(cutoff: int)
    | Holding(cutoff: int)
    | Releasing
    // Recover: to read, to set aside
    | Reading
    | Distrusting
    | Over

  /** The receipt, who holds its lock, and the calls begun. */
  datatype State = State(receipt: Option<Content>, lock: Option<nat>, calls: map<nat, Call>)

  /** `c` is the call. A stopped call has failed or died; the kernel takes its lock back. */
  datatype Act =
    | Begin(c: nat, call: Call)
    | Place(c: nat)
    | Judge(c: nat)
    | Claim(c: nat)
    | Remove(c: nat)
    | Release(c: nat)
    | Read(c: nat)
    | SetAside(c: nat)
    | Stop(c: nat)

  function Go(s: State, c: nat, call: Call): State {
    s.(calls := s.calls[c := call])
  }

  /** A closed run that was last updated before the cutoff. */
  predicate IsOld(content: Option<Content>, cutoff: int) {
    content.Some? && content.value.Whole? && content.value.run.closed && content.value.run.updated < cutoff
  }

  predicate IsTorn(content: Option<Content>) {
    content == Some(Unread)
  }

  ghost predicate Step(s: State, act: Act, t: State) {
    match act
    case Begin(c, call) =>
      c !in s.calls && (call.Saving? || call.Judging? || call.Reading?) && t == Go(s, c, call)
    case Stop(c) =>
      && c in s.calls
      && t == Go(s, c, Over).(lock := if s.lock == Some(c) then None else s.lock)
    case Place(c) =>
      c in s.calls && s.calls[c].Saving? && t == Go(s, c, Over).(receipt := Some(Whole(s.calls[c].run)))
    case Judge(c) =>
      && c in s.calls && s.calls[c].Judging?
      && t == Go(s, c, if IsOld(s.receipt, s.calls[c].cutoff) then Judged(s.calls[c].cutoff) else Over)
    case Claim(c) =>
      && c in s.calls && s.calls[c].Judged? && s.lock.None?
      && t == Go(s, c, Holding(s.calls[c].cutoff)).(lock := Some(c))
    case Remove(c) =>
      c in s.calls && s.calls[c].Holding? && s.receipt.Some? && t == Go(s, c, Releasing).(receipt := None)
    case Release(c) =>
      c in s.calls && s.calls[c].Releasing? && t == Go(s, c, Over).(lock := None)
    case Read(c) =>
      && c in s.calls && s.calls[c].Reading?
      && t == Go(s, c, if s.receipt.None? || IsTorn(s.receipt) then Distrusting else Over)
    case SetAside(c) =>
      c in s.calls && s.calls[c].Distrusting? && s.receipt.Some? && t == Go(s, c, Over).(receipt := None)
  }

  /** Nothing is under way; the receipt is absent, torn or whole. */
  ghost predicate Fresh(s: State) {
    s.lock.None? && s.calls == map[]
  }

  ghost predicate Follows(states: seq<State>, acts: seq<Act>, i: nat)
    requires i < |acts| && |states| == |acts| + 1
  {
    Step(states[i], acts[i], states[i + 1])
  }

  ghost predicate Interleaving(states: seq<State>, acts: seq<Act>) {
    |states| == |acts| + 1 && Fresh(states[0]) && forall i | 0 <= i < |acts| :: Follows(states, acts, i)
  }

  /** The call has judged the receipt and not yet acted on it. */
  predicate Convinced(s: State, c: nat) {
    c in s.calls && (s.calls[c].Judged? || s.calls[c].Holding? || s.calls[c].Distrusting?)
  }

  /** What the call's judgement says of a receipt. */
  predicate Fair(call: Call, receipt: Option<Content>) {
    match call
    case Judged(cutoff) => IsOld(receipt, cutoff)
    case Holding(cutoff) => IsOld(receipt, cutoff)
    case Distrusting => IsTorn(receipt)
    case _ => true
  }

  /** The last run that was put in place while `c` was convinced, between then and
      moment `k`, is one that `c` would not have judged so. */
  ghost predicate Overtaken(states: seq<State>, acts: seq<Act>, c: nat, k: nat)
    requires |states| == |acts| + 1 && k < |states| && c in states[k].calls
  {
    exists i | 0 <= i < k :: Overtakes(states, acts, c, i, k)
  }

  ghost predicate Overtakes(states: seq<State>, acts: seq<Act>, c: nat, i: nat, k: nat)
    requires |states| == |acts| + 1 && i < k < |states| && c in states[k].calls
  {
    && acts[i].Place? && !Fair(states[k].calls[c], states[i + 1].receipt)
    && (forall l | i <= l <= k :: Convinced(states[l], c))
    && (forall l | i < l < k :: !acts[l].Place?)
  }

  lemma EarlierRace(states: seq<State>, acts: seq<Act>, c: nat, k: nat)
    requires |states| == |acts| + 1 && k + 1 < |states| && Convinced(states[k], c) && Convinced(states[k + 1], c)
    requires !acts[k].Place?
    requires forall r :: Fair(states[k + 1].calls[c], r) <==> Fair(states[k].calls[c], r)
    ensures Overtaken(states, acts, c, k + 1) <==> Overtaken(states, acts, c, k)
  {
    if Overtaken(states, acts, c, k + 1) {
      var i :| 0 <= i < k + 1 && Overtakes(states, acts, c, i, k + 1);
      assert Overtakes(states, acts, c, i, k);
    }
    if Overtaken(states, acts, c, k) {
      var i :| 0 <= i < k && Overtakes(states, acts, c, i, k);
      assert Overtakes(states, acts, c, i, k + 1);
    }
  }

  /** A run put in place decides alone. */
  lemma LatestRace(states: seq<State>, acts: seq<Act>, c: nat, k: nat)
    requires |states| == |acts| + 1 && k + 1 < |states| && Convinced(states[k], c) && Convinced(states[k + 1], c)
    requires acts[k].Place?
    ensures Overtaken(states, acts, c, k + 1) <==> !Fair(states[k + 1].calls[c], states[k + 1].receipt)
  {
    if !Fair(states[k + 1].calls[c], states[k + 1].receipt) { assert Overtakes(states, acts, c, k, k + 1); }
  }

  /** A step of whatever call leaves a convinced one convinced of the same, or ends it. */
  lemma StaysConvinced(s: State, act: Act, t: State, c: nat)
    requires Step(s, act, t) && Convinced(t, c)
    ensures Convinced(s, c) ==> forall r :: Fair(t.calls[c], r) <==> Fair(s.calls[c], r)
    ensures !Convinced(s, c) ==> t.receipt == s.receipt && (t.receipt.Some? ==> Fair(t.calls[c], t.receipt))
    ensures act.Place? || t.receipt == s.receipt || t.receipt.None?
  {
  }

  lemma OvertakenBefore(states: seq<State>, acts: seq<Act>, c: nat, k: nat)
    requires |states| == |acts| + 1 && 0 < k < |states| && Convinced(states[k], c) && Overtaken(states, acts, c, k)
    ensures Convinced(states[k - 1], c)
  {
    var i :| 0 <= i < k && Overtakes(states, acts, c, i, k);
    assert i <= k - 1 <= k;
  }

  /** While a judgement is pending, the receipt is as judged unless it was overtaken. */
  lemma {:induction false} FairUnlessOvertaken(states: seq<State>, acts: seq<Act>, c: nat, k: nat)
    requires Interleaving(states, acts) && k < |states| && Convinced(states[k], c) && states[k].receipt.Some?
    ensures Fair(states[k].calls[c], states[k].receipt) <==> !Overtaken(states, acts, c, k)
  {
    if k > 0 {
      var s, t := states[k - 1], states[k];
      assert Follows(states, acts, k - 1);
      StaysConvinced(s, acts[k - 1], t, c);
      if !Convinced(s, c) {
        if Overtaken(states, acts, c, k) { OvertakenBefore(states, acts, c, k); }
      } else if acts[k - 1].Place? {
        LatestRace(states, acts, c, k - 1);
      } else {
        FairUnlessOvertaken(states, acts, c, k - 1);
        EarlierRace(states, acts, c, k - 1);
      }
    }
  }

  /** A whole run, closed, and last updated before the cutoff. */
  ghost predicate Closed(receipt: Option<Content>, cutoff: int) {
    exists r: Run :: receipt == Some(Whole(r)) && r.closed && r.updated < cutoff
  }

  /** What Prune removes is a closed run last updated before its cutoff, exactly when it
      was not overtaken between the judgement and the removal. */
  lemma RemovedIff(states: seq<State>, acts: seq<Act>, k: nat, c: nat)
    requires Interleaving(states, acts) && k < |acts| && acts[k] == Remove(c)
    ensures c in states[k].calls && states[k].calls[c].Holding?
    ensures Closed(states[k].receipt, states[k].calls[c].cutoff) <==> !Overtaken(states, acts, c, k)
  {
    assert Follows(states, acts, k);
    FairUnlessOvertaken(states, acts, c, k);
  }

  /** What Recover sets aside does not read, exactly when no run was put in place between
      its reading and the renaming. */
  lemma SetAsideIff(states: seq<State>, acts: seq<Act>, k: nat, c: nat)
    requires Interleaving(states, acts) && k < |acts| && acts[k] == SetAside(c)
    ensures c in states[k].calls && states[k].calls[c].Distrusting?
    ensures states[k].receipt == Some(Unread) <==> !Overtaken(states, acts, c, k)
  {
    assert Follows(states, acts, k);
    FairUnlessOvertaken(states, acts, c, k);
  }

  predicate IsClosed(content: Option<Content>) {
    content.Some? && content.value.Whole? && content.value.run.closed
  }

  /** Nothing is put in place under a name that has held a closed run. */
  ghost predicate ClosingIsLast(states: seq<State>, acts: seq<Act>) {
    |states| == |acts| + 1 && forall l, i | 0 <= l <= i < |acts| && acts[i].Place? :: !IsClosed(states[l].receipt)
  }

  lemma {:induction false} SawClosed(states: seq<State>, acts: seq<Act>, c: nat, k: nat) returns (j: nat)
    requires Interleaving(states, acts) && k < |states|
    requires c in states[k].calls && (states[k].calls[c].Judged? || states[k].calls[c].Holding?)
    ensures j <= k && IsClosed(states[j].receipt)
  {
    assert Follows(states, acts, k - 1);
    var s := states[k - 1];
    if c in s.calls && (s.calls[c].Judged? || s.calls[c].Holding?) {
      j := SawClosed(states, acts, c, k - 1);
    } else {
      j := k - 1;
    }
  }

  /** When closing a run is the last that is saved of it, an open receipt never goes, and
      no closed one before its time, however the calls overlap. */
  lemma OpenNeverGoes(states: seq<State>, acts: seq<Act>, k: nat, c: nat)
    requires Interleaving(states, acts) && ClosingIsLast(states, acts) && k < |acts| && acts[k] == Remove(c)
    ensures c in states[k].calls && states[k].calls[c].Holding?
    ensures Closed(states[k].receipt, states[k].calls[c].cutoff)
  {
    RemovedIff(states, acts, k, c);
    if Overtaken(states, acts, c, k) { OvertakenReopens(states, acts, c, k); }
  }

  lemma OvertakenReopens(states: seq<State>, acts: seq<Act>, c: nat, k: nat)
    requires Interleaving(states, acts) && k < |states|
    requires c in states[k].calls && states[k].calls[c].Holding? && Overtaken(states, acts, c, k)
    ensures !ClosingIsLast(states, acts)
  {
    var i :| 0 <= i < k && Overtakes(states, acts, c, i, k);
    StillPruning(states, acts, c, i, k);
    var j := SawClosed(states, acts, c, i);
    assert j <= i < |acts| && acts[i].Place?;
  }

  /** A call that is convinced all the while is convinced of the same. */
  lemma {:induction false} StillPruning(states: seq<State>, acts: seq<Act>, c: nat, i: nat, k: nat)
    requires Interleaving(states, acts) && i <= k < |states| && (forall l | i <= l <= k :: Convinced(states[l], c))
    requires c in states[k].calls && states[k].calls[c].Holding?
    ensures c in states[i].calls && (states[i].calls[c].Judged? || states[i].calls[c].Holding?)
    decreases k - i
  {
    if i < k {
      assert Convinced(states[i + 1], c) && Convinced(states[i], c);
      StillPruning(states, acts, c, i + 1, k);
      assert Follows(states, acts, i);
      StaysConvinced(states[i], acts[i], states[i + 1], c);
    }
  }

  const CLOSED := Run("r", 1, true, [])
  const OPEN := Run("r", 2, false, [])

  /** Prune judges a closed run, Save puts an open one in its place, Prune goes on. */
  const RACE: seq<Act> :=
    [Begin(0, Saving(CLOSED)), Place(0), Begin(1, Judging(2)), Judge(1), Begin(2, Saving(OPEN)), Place(2), Claim(1),
        Remove(1)]

  function Racing(i: nat): State {
    if i == 0 then State(None, None, map[])
    else if i == 1 then State(None, None, map[0 := Saving(CLOSED)])
    else if i == 2 then State(Some(Whole(CLOSED)), None, map[0 := Over])
    else if i == 3 then State(Some(Whole(CLOSED)), None, map[0 := Over, 1 := Judging(2)])
    else if i == 4 then State(Some(Whole(CLOSED)), None, map[0 := Over, 1 := Judged(2)])
    else if i == 5 then State(Some(Whole(CLOSED)), None, map[0 := Over, 1 := Judged(2), 2 := Saving(OPEN)])
    else if i == 6 then State(Some(Whole(OPEN)), None, map[0 := Over, 1 := Judged(2), 2 := Over])
    else if i == 7 then State(Some(Whole(OPEN)), Some(1), map[0 := Over, 1 := Holding(2), 2 := Over])
    else State(None, Some(1), map[0 := Over, 1 := Releasing, 2 := Over])
  }

  ghost predicate OpenGoes(states: seq<State>, acts: seq<Act>, k: nat, c: nat) {
    && Interleaving(states, acts) && k < |acts| && acts[k] == Remove(c)
    && states[k].receipt == Some(Whole(OPEN)) && !OPEN.closed && states[k + 1].receipt.None?
  }

  /** Without that, an open receipt can go. The save is over before Prune takes the lock:
      a lock held by the writer for the length of its save would not have helped. */
  lemma OpenReceiptGoes()
    ensures exists states: seq<State>, acts: seq<Act>, k: nat, c: nat :: OpenGoes(states, acts, k, c)
  {
    var states := seq(9, i requires 0 <= i < 9 => Racing(i));
    forall i: nat | i < 8 ensures Follows(states, RACE, i) {
      RaceStep(i);
    }
    assert OpenGoes(states, RACE, 7, 1);
  }

  lemma RaceStep(i: nat)
    requires i < 8
    ensures Step(Racing(i), RACE[i], Racing(i + 1))
  {
    if i < 4 {
      assert i == 0 || i == 1 || i == 2 || i == 3;
    } else {
      assert i == 4 || i == 5 || i == 6 || i == 7;
    }
  }

  /** Recover finds the receipt unreadable, Save puts a whole one in its place, Recover
      goes on. */
  const LATE: seq<Act> := [Begin(0, Reading), Read(0), Begin(1, Saving(OPEN)), Place(1), SetAside(0)]

  function Repairing(i: nat): State {
    if i == 0 then State(Some(Unread), None, map[])
    else if i == 1 then State(Some(Unread), None, map[0 := Reading])
    else if i == 2 then State(Some(Unread), None, map[0 := Distrusting])
    else if i == 3 then State(Some(Unread), None, map[0 := Distrusting, 1 := Saving(OPEN)])
    else if i == 4 then State(Some(Whole(OPEN)), None, map[0 := Distrusting, 1 := Over])
    else State(None, None, map[0 := Over, 1 := Over])
  }

  ghost predicate WholeGoes(states: seq<State>, acts: seq<Act>, k: nat, c: nat) {
    && Interleaving(states, acts) && k < |acts| && acts[k] == SetAside(c)
    && states[k].receipt == Some(Whole(OPEN)) && states[k + 1].receipt.None?
  }

  /** A whole receipt can be set aside. */
  lemma WholeReceiptSetAside()
    ensures exists states: seq<State>, acts: seq<Act>, k: nat, c: nat :: WholeGoes(states, acts, k, c)
  {
    var states := seq(6, i requires 0 <= i < 6 => Repairing(i));
    forall i: nat | i < 5 ensures Follows(states, LATE, i) { LateStep(i); }
    assert WholeGoes(states, LATE, 4, 0);
  }

  lemma LateStep(i: nat)
    requires i < 5
    ensures Step(Repairing(i), LATE[i], Repairing(i + 1))
  {
    assert i == 0 || i == 1 || i == 2 || i == 3 || i == 4;
  }
}
