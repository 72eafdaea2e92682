/** Exactly when a cursor-1 call can still be granted. */
module Grants {
  import opened Options
  import opened Markers

  /** What stands between a cursor-1 call and its grant, at each point of the call. */
  ghost predicate Gate(s: State, c: nat)
    requires c in s.calls
  {
    match s.calls[c].at
    case Reconnect => s.cursor.Some? && HoldsLine(s, s.cursor.value, c) && s.reconnect.None?
    case Reading(ino, got) => HoldsLine(s, ino, c) && s.reconnect.None?
    case Matched(_) => s.reconnect.None?
    case Closing(_) => true
    case Reconnected(_) => true
    case _ => false
  }

  /** The file holds the whole line of the call's challenge. */
  predicate HoldsLine(s: State, ino: nat, c: nat)
    requires c in s.calls
  {
    ino in s.inodes && s.inodes[ino].bytes == s.calls[c].line
  }

  ghost predicate SoloStep(states: seq<State>, i: nat, c: nat)
    requires 0 < i < |states|
  {
    c in states[i - 1].calls && Reconnects(states[i - 1], c, states[i])
  }

  /** From state `from` on only call `c` takes steps. */
  ghost predicate Solo(states: seq<State>, from: nat, c: nat) {
    forall i | from < i < |states| :: SoloStep(states, i, c)
  }

  /** Nothing but call `c` going on needs to happen for its grant. */
  ghost predicate CanBeGranted(s: State, c: nat) {
    exists states: seq<State> ::
      && |states| > 0 && states[0] == s && Solo(states, 0, c)
      && Granted(states[|states| - 1], c)
  }

  predicate Granted(s: State, c: nat) {
    c in s.calls && s.calls[c].at.Reconnected?
  }

  /** No step of the call opens its own gate. */
  lemma GateWasOpen(s: State, c: nat, t: State)
    requires Sound(s) && c in s.calls && Reconnects(s, c, t) && Gate(t, c)
    ensures Gate(s, c)
  {
    assert CallSound(s, c);
    ReconnectMoves(s, c, t);
  }

  ghost predicate Gated(s: State, c: nat) {
    c in s.calls && Gate(s, c)
  }

  lemma {:induction false} SoloSound(states: seq<State>, c: nat, i: nat)
    requires i < |states| && Sound(states[0]) && Solo(states, 0, c)
    ensures Sound(states[i])
  {
    if i > 0 {
      SoloSound(states, c, i - 1);
      assert SoloStep(states, i, c);
      ReconnectKeeps(states[i - 1], c, states[i]);
    }
  }

  lemma {:induction false} GateHeld(states: seq<State>, c: nat, i: nat)
    requires i < |states| && Sound(states[0]) && Solo(states, 0, c) && Gated(states[i], c)
    ensures Gated(states[0], c)
  {
    if i > 0 {
      SoloSound(states, c, i - 1);
      assert SoloStep(states, i, c);
      GateWasOpen(states[i - 1], c, states[i]);
      GateHeld(states, c, i - 1);
    }
  }

  /** How many steps the call still needs. */
  function Left(s: State, c: nat): nat
    requires c in s.calls
  {
    match s.calls[c].at
    case Reconnect => 5
    case Reading(_, got) => if got == s.calls[c].line then 3 else 4
    case Matched(_) => 2
    case Closing(_) => 1
    case _ => 0
  }

  /** Through an open gate the call can go one step nearer. */
  lemma Advance(s: State, c: nat) returns (t: State)
    requires Sound(s) && Gated(s, c) && !Granted(s, c)
    ensures Reconnects(s, c, t) && Gated(t, c) && Left(t, c) < Left(s, c)
  {
    assert CallSound(s, c);
    match s.calls[c].at
    case Reconnect => t := Go(s, c, Reading(s.cursor.value, ""));
    case Reading(ino, got) =>
      var line := s.calls[c].line;
      if got == line {
        t := Go(s, c, Matched(ino));
      } else {
        ReadOn(line, got, |line|);
        assert line[..|line|] == line;
        t := Go(s, c, Reading(ino, got + line[|got|..|line|]));
      }
    case Matched(ino) => t := Go(s, c, Closing(ino)).(reconnect := Some(c));
    case Closing(ino) => t := Go(s, c, Reconnected(ino));
  }

  lemma {:induction false} GrantRun(s: State, c: nat) returns (states: seq<State>)
    requires Sound(s) && Gated(s, c)
    ensures |states| > 0 && states[0] == s && Solo(states, 0, c) && Granted(states[|states| - 1], c)
    decreases Left(s, c)
  {
    if Granted(s, c) { return [s]; }
    var t := Advance(s, c);
    ReconnectKeeps(s, c, t);
    var rest := GrantRun(t, c);
    states := [s] + rest;
    forall i | 0 < i < |states| ensures SoloStep(states, i, c) {
      if i > 1 { assert SoloStep(rest, i - 1, c); }
    }
  }

  /** A cursor-1 call can be granted without any other call moving exactly when its
      gate is open; for one that has done nothing yet, exactly when the file at the path
      holds its whole line and no reconnect marker exists. */
  lemma GrantIff(s: State, c: nat)
    requires Sound(s) && c in s.calls
    ensures CanBeGranted(s, c) <==> Gate(s, c)
  {
    if CanBeGranted(s, c) {
      var states: seq<State> :| |states| > 0 && states[0] == s && Solo(states, 0, c)
          && Granted(states[|states| - 1], c);
      GateHeld(states, c, |states| - 1);
    }
    if Gate(s, c) {
      var states := GrantRun(s, c);
    }
  }

  /** Some cursor-0 call has written the very same line, whole, to the file now at the
      path, and has not succeeded: it is still on its way, or it has failed and its
      marker is still there. */
  ghost predicate Pending(s: State, c: nat)
    requires c in s.calls
  {
    exists w | w in s.calls ::
      && s.calls[w].line == s.calls[c].line
      && s.cursor.Some? && s.cursor.value in s.inodes && s.inodes[s.cursor.value].creator == w
      && Unfinished(s.calls[w].at, s.cursor.value, |s.inodes[s.cursor.value].bytes|)
  }

  predicate Unfinished(at: Progress, ino: nat, size: nat) {
    || at == Writing(ino, LINE_LENGTH) || at == Synced(ino)
    || ((at == Removing(ino) || at.EstablishFailed?) && size == LINE_LENGTH)
  }

  ghost predicate NoneEstablished(s: State) {
    forall d | d in s.calls :: !s.calls[d].at.Established?
  }

  lemma GatePending(s: State, c: nat)
    requires Sound(s) && NoneEstablished(s) && c in s.calls && s.calls[c].at.Reconnect?
    ensures Gate(s, c) <==> Pending(s, c) && s.reconnect.None?
  {
    assert CallSound(s, c);
    if Gate(s, c) {
      var ino := s.cursor.value;
      var w := s.inodes[ino].creator;
      assert FileSound(s, ino) && CallSound(s, w);
      assert s.calls[c].line <= s.calls[w].line;
      assert Unfinished(s.calls[w].at, ino, LINE_LENGTH);
    }
    if Pending(s, c) {
      var w :| && w in s.calls && s.calls[w].line == s.calls[c].line
               && s.cursor.Some? && s.cursor.value in s.inodes && s.inodes[s.cursor.value].creator == w
               && Unfinished(s.calls[w].at, s.cursor.value, |s.inodes[s.cursor.value].bytes|);
      assert FileSound(s, s.cursor.value) && CallSound(s, w);
      assert s.calls[w].line[..LINE_LENGTH] == s.calls[w].line;
    }
  }

  ghost predicate NoCursorZero(states: seq<State>) {
    forall d :: !Succeeded(states, d, CursorZero)
  }

  /** The run goes on by steps of call `c` alone. */
  ghost predicate Continues(states: seq<State>, whole: seq<State>, c: nat) {
    && 0 < |states| <= |whole| && whole[..|states|] == states
    && Run(whole) && Solo(whole, |states| - 1, c)
  }

  /** The run can go on to grant `c` with no cursor-0 call having succeeded. */
  ghost predicate GrantPrecedes(states: seq<State>, c: nat) {
    exists whole :: Continues(states, whole, c) && Granted(whole[|whole| - 1], c) && NoCursorZero(whole)
  }

  lemma NoneYet(states: seq<State>, i: nat)
    requires Run(states) && NoCursorZero(states) && i < |states|
    ensures NoneEstablished(states[i])
  {
    forall d | d in states[i].calls ensures !states[i].calls[d].at.Established? {
      assert !Succeeded(states, d, CursorZero);
    }
  }

  lemma {:induction false} SoloEstablishesNone(states: seq<State>, c: nat, i: nat)
    requires i < |states| && Solo(states, 0, c) && NoneEstablished(states[0])
    ensures NoneEstablished(states[i])
  {
    if i > 0 {
      SoloEstablishesNone(states, c, i - 1);
      assert SoloStep(states, i, c);
      ReconnectMoves(states[i - 1], c, states[i]);
    }
  }

  lemma Appended(states: seq<State>, rest: seq<State>, c: nat) returns (whole: seq<State>)
    requires Run(states) && NoCursorZero(states)
    requires |rest| > 0 && rest[0] == states[|states| - 1] && Solo(rest, 0, c)
    ensures Continues(states, whole, c) && NoCursorZero(whole) && whole[|whole| - 1] == rest[|rest| - 1]
  {
    var n := |states|;
    whole := states[..n - 1] + rest;
    forall i | n - 1 < i < |whole| ensures SoloStep(whole, i, c) {
      assert SoloStep(rest, i - n + 1, c);
    }
    forall i | 0 < i < |whole| ensures Follows(whole, i) {
      if i < n {
        assert Follows(states, i);
      } else {
        assert SoloStep(whole, i, c) && StepOf(whole[i - 1], c, whole[i]);
      }
    }
    NoneYet(states, n - 1);
    forall d ensures !Succeeded(whole, d, CursorZero) {
      forall i | 0 <= i < |whole| && d in whole[i].calls ensures !whole[i].calls[d].at.Established? {
        if i < n { NoneYet(states, i); } else { SoloEstablishesNone(rest, c, i - n + 1); }
      }
    }
  }

  lemma SucceededLater(states: seq<State>, whole: seq<State>, d: nat, kind: Success)
    requires states <= whole && Succeeded(states, d, kind)
    ensures Succeeded(whole, d, kind)
  {
    var i :| 0 <= i < |states| && d in states[i].calls && Succeeds(states[i].calls[d].at, kind);
    assert whole[i] == states[i];
  }

  lemma NoCursorZeroBefore(states: seq<State>, whole: seq<State>)
    requires states <= whole && NoCursorZero(whole)
    ensures NoCursorZero(states)
  {
    forall d | Succeeded(states, d, CursorZero) ensures Succeeded(whole, d, CursorZero) {
      SucceededLater(states, whole, d, CursorZero);
    }
  }

  /** A waiting cursor-1 call can be granted before any cursor-0 call has succeeded
      exactly when none has succeeded so far, no reconnect marker exists, and the
      writer of the file at the path is done with its line but not with its call, or
      has failed and left the file there. */
  lemma GrantPrecedesIff(states: seq<State>, c: nat)
    requires Run(states) && c in states[|states| - 1].calls && states[|states| - 1].calls[c].at.Reconnect?
    ensures var s := states[|states| - 1];
            GrantPrecedes(states, c) <==> NoCursorZero(states) && s.reconnect.None? && Pending(s, c)
  {
    var n, s := |states|, states[|states| - 1];
    RunSound(states, n - 1);
    if GrantPrecedes(states, c) {
      var whole :| Continues(states, whole, c) && Granted(whole[|whole| - 1], c) && NoCursorZero(whole);
      var rest := whole[n - 1..];
      assert rest[0] == s;
      forall i | 0 < i < |rest| ensures SoloStep(rest, i, c) { assert SoloStep(whole, i + n - 1, c); }
      GateHeld(rest, c, |rest| - 1);
      NoCursorZeroBefore(states, whole);
      NoneYet(states, n - 1);
      GatePending(s, c);
    } else if NoCursorZero(states) && s.reconnect.None? && Pending(s, c) {
      NoneYet(states, n - 1);
      GatePending(s, c);
      var rest := GrantRun(s, c);
      var whole := Appended(states, rest, c);
    }
  }
}
