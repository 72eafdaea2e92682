/** The marker files of one certification challenge, shared by any number of processes
    that start and stop at will. Every file-system call is one step; a process that dies
    takes no further step. */
module Markers {
  import opened Options

  /** How far a call has come. `ino` is the file it holds open. */
  datatype Progress =
    // cursor 0: establishCursor
    | Establish
    | Writing(ino: nat, written: nat)
    | Synced(ino: nat)
    | Removing(ino: nat)
    | Established(ino: nat)
    | EstablishFailed
    // cursor 1: consumeReconnectCursor
    | Reconnect
    | Reading(ino: nat, got: string)
    | Matched(ino: nat)
    | Closing(ino: nat)
    | Reconnected(ino: nat)
    // ConsumeChallenge
    | Consume
    | Unused
    | Marked
    | Saving
    | Consumed
    | Refused

  /** A SHA-256 digest in hexadecimal and a newline. */
  const LINE_LENGTH := 65

  /** A call and the line its challenge makes: the digest and a newline. */
  datatype Call = Call(line: string, at: Progress)

  /** A marker file, its creator and the bytes written so far. */
  datatype Inode = Inode(creator: nat, bytes: string)

  /** The directory entries of the challenge; for the empty markers, who made them. */
  datatype State = State(calls: map<nat, Call>, inodes: map<nat, Inode>, cursor: Option<nat>,
                         reconnect: Option<nat>, used: Option<nat>, usedAt: bool)

  function Go(s: State, c: nat, at: Progress): State
    requires c in s.calls
  {
    s.(calls := s.calls[c := s.calls[c].(at := at)])
  }

  ghost predicate Starts(s: State, c: nat, t: State) {
    && c !in s.calls && c in t.calls && t == s.(calls := s.calls[c := t.calls[c]])
    && t.calls[c].at in {Establish, Reconnect, Consume} && |t.calls[c].line| == LINE_LENGTH
  }

  /** One step of establishCursor. Any file-system call may fail; a failure after the
      exclusive create removes the path, which may fail as well. */
  ghost predicate Establishes(s: State, c: nat, t: State)
    requires c in s.calls
  {
    var line := s.calls[c].line;
    match s.calls[c].at
    case Establish =>
      || t == Go(s, c, EstablishFailed)
      || (s.cursor.None? && exists ino | ino !in s.inodes ::
            t == Go(s, c, Writing(ino, 0)).(cursor := Some(ino), inodes := s.inodes[ino := Inode(c, "")]))
    case Writing(ino, written) =>
      || t == Go(s, c, Removing(ino))
      || (written == |line| && t == Go(s, c, Synced(ino)))
      || (ino in s.inodes && exists n | written < n <= |line| ::
            t == Go(s, c, Writing(ino, n)).(inodes := s.inodes[ino := s.inodes[ino].(bytes := line[..n])]))
    case Synced(ino) => t == Go(s, c, Established(ino)) || t == Go(s, c, Removing(ino))
    case Removing(_) => t == Go(s, c, EstablishFailed).(cursor := None) || t == Go(s, c, EstablishFailed)
    case _ => false
  }

  /** One step of consumeReconnectCursor. The file is read in pieces, up to its end. */
  ghost predicate Reconnects(s: State, c: nat, t: State)
    requires c in s.calls
  {
    match s.calls[c].at
    case Reconnect => t == Go(s, c, Refused) || (s.cursor.Some? && t == Go(s, c, Reading(s.cursor.value, "")))
    case Reading(ino, got) =>
      || t == Go(s, c, Refused)
      || (ino in s.inodes && exists n | |got| <= n <= |s.inodes[ino].bytes| ::
            t == Go(s, c, Reading(ino, got + s.inodes[ino].bytes[|got|..n])))
      || (ino in s.inodes && |got| == |s.inodes[ino].bytes| && got == s.calls[c].line && t == Go(s, c, Matched(ino)))
    case Matched(ino) =>
      || t == Go(s, c, Refused)
      || (s.reconnect.None? && t == Go(s, c, Closing(ino)).(reconnect := Some(c)))
    case Closing(ino) => t == Go(s, c, Refused) || t == Go(s, c, Reconnected(ino))
    case _ => false
  }

  /** One step of ConsumeChallenge. Closing the marker and saving may fail. */
  ghost predicate Consumes(s: State, c: nat, t: State)
    requires c in s.calls
  {
    match s.calls[c].at
    case Consume => t == Go(s, c, Refused) || (!s.usedAt && t == Go(s, c, Unused))
    case Unused => t == Go(s, c, Refused) || (s.used.None? && t == Go(s, c, Marked).(used := Some(c)))
    case Marked => t == Go(s, c, Refused) || t == Go(s, c, Saving)
    case Saving => t == Go(s, c, Refused) || t == Go(s, c, Consumed).(usedAt := true)
    case _ => false
  }

  /** One step of call `c`. */
  ghost predicate StepOf(s: State, c: nat, t: State) {
    Starts(s, c, t) || (c in s.calls && (Establishes(s, c, t) || Reconnects(s, c, t) || Consumes(s, c, t)))
  }

  ghost predicate Step(s: State, t: State) {
    exists c: nat :: StepOf(s, c, t)
  }

  /** A fresh challenge: no marker yet. */
  ghost predicate Fresh(s: State) {
    s == State(map[], map[], None, None, None, false)
  }

  ghost predicate Follows(states: seq<State>, i: nat)
    requires 0 < i < |states|
  {
    Step(states[i - 1], states[i])
  }

  ghost predicate Run(states: seq<State>) {
    |states| > 0 && Fresh(states[0]) && forall i | 0 < i < |states| :: Follows(states, i)
  }

  /** The call created the marker that is at the path now, and answers for it. */
  predicate Holds(at: Progress) {
    at.Writing? || at.Synced? || at.Removing? || at.Established?
  }

  /** A holder's file is the one at the path, it is its own, and holds what it wrote. */
  ghost predicate HolderSound(s: State, c: nat)
    requires c in s.calls
  {
    var at := s.calls[c].at;
    Holds(at) ==>
      && s.cursor == Some(at.ino) && at.ino in s.inodes && s.inodes[at.ino].creator == c
      && (at.Writing? ==> at.written <= |s.calls[c].line| && s.inodes[at.ino].bytes == s.calls[c].line[..at.written])
      && (at.Synced? || at.Established? ==> s.inodes[at.ino].bytes == s.calls[c].line)
  }

  ghost predicate ReaderSound(s: State, c: nat)
    requires c in s.calls
  {
    var at := s.calls[c].at;
    && (at.Reading? ==> at.ino in s.inodes && at.got <= s.inodes[at.ino].bytes)
    && (at.Matched? || at.Closing? || at.Reconnected? ==>
        at.ino in s.inodes && s.inodes[at.ino].bytes == s.calls[c].line)
    && (at.Closing? || at.Reconnected? ==> s.reconnect == Some(c))
  }

  ghost predicate ConsumerSound(s: State, c: nat)
    requires c in s.calls
  {
    var at := s.calls[c].at;
    (at.Marked? || at.Saving? || at.Consumed? ==> s.used == Some(c)) && (at.Consumed? ==> s.usedAt)
  }

  predicate AfterWrite(at: Progress) {
    at.Writing? || at.Synced? || at.Removing? || at.Established? || at.EstablishFailed?
  }

  /** Every marker ever made holds a beginning of its creator's line. */
  ghost predicate FileSound(s: State, ino: nat)
    requires ino in s.inodes
  {
    var file := s.inodes[ino];
    file.creator in s.calls && file.bytes <= s.calls[file.creator].line && AfterWrite(s.calls[file.creator].at)
  }

  ghost predicate CallSound(s: State, c: nat)
    requires c in s.calls
  {
    |s.calls[c].line| == LINE_LENGTH && HolderSound(s, c) && ReaderSound(s, c) && ConsumerSound(s, c)
  }

  ghost predicate Sound(s: State) {
    && (forall c | c in s.calls :: CallSound(s, c))
    && (forall ino | ino in s.inodes :: FileSound(s, ino))
    && (s.cursor.Some? ==> s.cursor.value in s.inodes)
  }

  /** Files only grow, only their creator writes to them, and a whole line stays. */
  ghost predicate FilesGrow(s: State, c: nat, t: State) {
    forall ino | ino in s.inodes ::
      && ino in t.inodes && t.inodes[ino].creator == s.inodes[ino].creator && s.inodes[ino].bytes <= t.inodes[ino].bytes
      && (s.inodes[ino].creator != c || |s.inodes[ino].bytes| == LINE_LENGTH ==> t.inodes[ino] == s.inodes[ino])
  }

  lemma StartKeeps(s: State, c: nat, t: State)
    requires Sound(s) && Starts(s, c, t)
    ensures Sound(t)
  {
    forall d | d in t.calls ensures CallSound(t, d) {
      if d != c { assert CallSound(s, d); }
    }
    forall ino | ino in t.inodes ensures FileSound(t, ino) { assert FileSound(s, ino); }
  }

  /** Nothing but call `c`, a file it made and a marker it alone answers for differ. */
  ghost predicate Changes(s: State, c: nat, t: State)
    requires c in s.calls
  {
    && FilesGrow(s, c, t) && c in t.calls && t.calls == s.calls[c := s.calls[c].(at := t.calls[c].at)]
    && (t.cursor == s.cursor || s.cursor.None? || (t.cursor.None? && Holds(s.calls[c].at)))
    && (t.reconnect == s.reconnect || s.reconnect.None?)
    && (t.used == s.used || s.used.None?)
    && (s.usedAt ==> t.usedAt)
  }

  lemma PrefixLonger(line: string, m: nat, n: nat)
    requires m <= n <= |line|
    ensures line[..m] <= line[..n]
  {
  }

  lemma OthersKept(s: State, c: nat, t: State, d: nat)
    requires Sound(s) && c in s.calls && d in s.calls && d != c
    requires Changes(s, c, t)
    ensures CallSound(t, d)
  {
    assert CallSound(s, d) && CallSound(s, c);
  }

  ghost predicate FilesSound(s: State) {
    forall ino | ino in s.inodes :: FileSound(s, ino)
  }

  lemma ChangeKeeps(s: State, c: nat, t: State)
    requires Sound(s) && c in s.calls && Changes(s, c, t) && CallSound(t, c) && FilesSound(t)
    requires t.cursor.Some? ==> t.cursor.value in t.inodes
    ensures Sound(t)
  {
    forall d | d in t.calls ensures CallSound(t, d) {
      if d != c { OthersKept(s, c, t, d); }
    }
  }

  /** Files stay as they are. */
  lemma FilesStay(s: State, c: nat, t: State)
    requires Sound(s) && c in s.calls && c in t.calls && t.inodes == s.inodes
    requires t.calls == s.calls[c := s.calls[c].(at := t.calls[c].at)]
    requires AfterWrite(s.calls[c].at) ==> AfterWrite(t.calls[c].at)
    ensures FilesSound(t)
  {
    forall ino | ino in t.inodes ensures FileSound(t, ino) { assert FileSound(s, ino); }
  }

  /** A step that touches no marker. */
  lemma GoKeeps(s: State, c: nat, at: Progress)
    requires Sound(s) && c in s.calls && CallSound(Go(s, c, at), c)
    requires AfterWrite(s.calls[c].at) ==> AfterWrite(at)
    ensures Sound(Go(s, c, at))
  {
    FilesStay(s, c, Go(s, c, at));
    ChangeKeeps(s, c, Go(s, c, at));
  }

  lemma CreateKeeps(s: State, c: nat, ino: nat, t: State)
    requires Sound(s) && c in s.calls && s.calls[c].at.Establish? && s.cursor.None? && ino !in s.inodes
    requires t == Go(s, c, Writing(ino, 0)).(cursor := Some(ino), inodes := s.inodes[ino := Inode(c, "")])
    ensures Sound(t)
  {
    assert CallSound(s, c);
    forall i | i in t.inodes ensures FileSound(t, i) {
      if i != ino { assert FileSound(s, i); }
    }
    ChangeKeeps(s, c, t);
  }

  lemma WriteKeeps(s: State, c: nat, ino: nat, n: nat, t: State)
    requires Sound(s) && c in s.calls && s.calls[c].at.Writing? && s.calls[c].at.ino == ino
    requires s.calls[c].at.written < n <= |s.calls[c].line| && ino in s.inodes
    requires t == Go(s, c, Writing(ino, n)).(inodes := s.inodes[ino := s.inodes[ino].(bytes := s.calls[c].line[..n])])
    ensures Sound(t)
  {
    assert CallSound(s, c);
    PrefixLonger(s.calls[c].line, s.calls[c].at.written, n);
    forall i | i in t.inodes ensures FileSound(t, i) { assert FileSound(s, i); }
    ChangeKeeps(s, c, t);
  }

  /** A failed call takes its marker away. */
  lemma DropKeeps(s: State, c: nat, t: State)
    requires Sound(s) && c in s.calls && s.calls[c].at.Removing? && t == Go(s, c, EstablishFailed).(cursor := None)
    ensures Sound(t)
  {
    assert CallSound(s, c);
    FilesStay(s, c, t);
    ChangeKeeps(s, c, t);
  }

  lemma EstablishKeeps(s: State, c: nat, t: State)
    requires Sound(s) && c in s.calls && Establishes(s, c, t)
    ensures Sound(t)
  {
    assert CallSound(s, c);
    match s.calls[c].at
    case Establish =>
      if t == Go(s, c, EstablishFailed) {
        GoKeeps(s, c, EstablishFailed);
      } else {
        var ino :| ino !in s.inodes
            && t == Go(s, c, Writing(ino, 0)).(cursor := Some(ino), inodes := s.inodes[ino := Inode(c, "")]);
        CreateKeeps(s, c, ino, t);
      }
    case Writing(ino, written) => WritingKeeps(s, c, ino, written, t);
    case Synced(ino) =>
      if t == Go(s, c, Established(ino)) { GoKeeps(s, c, Established(ino)); } else { GoKeeps(s, c, Removing(ino)); }
    case Removing(_) =>
      if t == Go(s, c, EstablishFailed) { GoKeeps(s, c, EstablishFailed); } else { DropKeeps(s, c, t); }
  }

  lemma WritingKeeps(s: State, c: nat, ino: nat, written: nat, t: State)
    requires Sound(s) && c in s.calls && s.calls[c].at == Writing(ino, written) && Establishes(s, c, t)
    ensures Sound(t)
  {
    assert CallSound(s, c);
    if t == Go(s, c, Removing(ino)) {
      GoKeeps(s, c, Removing(ino));
    } else if t == Go(s, c, Synced(ino)) {
      assert s.calls[c].line[..|s.calls[c].line|] == s.calls[c].line;
      GoKeeps(s, c, Synced(ino));
    } else {
      var n :| written < n <= |s.calls[c].line|
               && t == Go(s, c, Writing(ino, n)).(inodes :=
                   s.inodes[ino := s.inodes[ino].(bytes := s.calls[c].line[..n])]);
      WriteKeeps(s, c, ino, n, t);
    }
  }

  /** The exclusive create of the reconnect marker. */
  lemma GrantKeeps(s: State, c: nat, ino: nat, t: State)
    requires Sound(s) && c in s.calls && s.calls[c].at == Matched(ino) && s.reconnect.None?
    requires t == Go(s, c, Closing(ino)).(reconnect := Some(c))
    ensures Sound(t)
  {
    assert CallSound(s, c);
    FilesStay(s, c, t);
    ChangeKeeps(s, c, t);
  }

  lemma ReadKeeps(s: State, c: nat, ino: nat, got: string, t: State)
    requires Sound(s) && c in s.calls && s.calls[c].at == Reading(ino, got) && Reconnects(s, c, t)
    ensures Sound(t)
  {
    assert CallSound(s, c);
    if t == Go(s, c, Refused) {
      GoKeeps(s, c, Refused);
    } else if t == Go(s, c, Matched(ino)) {
      assert got == s.inodes[ino].bytes;
      GoKeeps(s, c, Matched(ino));
    } else {
      var bytes := s.inodes[ino].bytes;
      var n :| |got| <= n <= |bytes| && t == Go(s, c, Reading(ino, got + bytes[|got|..n]));
      ReadOn(bytes, got, n);
      GoKeeps(s, c, Reading(ino, got + bytes[|got|..n]));
    }
  }

  /** Reading on keeps what was read a beginning of the file. */
  lemma ReadOn(bytes: string, got: string, n: nat)
    requires got <= bytes && |got| <= n <= |bytes|
    ensures got + bytes[|got|..n] == bytes[..n] <= bytes
  {
    assert bytes[..n] == bytes[..|got|] + bytes[|got|..n];
  }

  lemma ReconnectKeeps(s: State, c: nat, t: State)
    requires Sound(s) && c in s.calls && Reconnects(s, c, t)
    ensures Sound(t)
  {
    assert CallSound(s, c);
    match s.calls[c].at
    case Reading(ino, got) => ReadKeeps(s, c, ino, got, t);
    case Matched(ino) =>
      if t == Go(s, c, Refused) { GoKeeps(s, c, Refused); } else { GrantKeeps(s, c, ino, t); }
    case Reconnect => GoKeeps(s, c, t.calls[c].at);
    case Closing(_) => GoKeeps(s, c, t.calls[c].at);
  }

  /** The exclusive create of the marker of a used challenge. */
  lemma MarkKeeps(s: State, c: nat, t: State)
    requires Sound(s) && c in s.calls && s.calls[c].at.Unused? && s.used.None?
    requires t == Go(s, c, Marked).(used := Some(c))
    ensures Sound(t)
  {
    assert CallSound(s, c);
    FilesStay(s, c, t);
    ChangeKeeps(s, c, t);
  }

  lemma SaveKeeps(s: State, c: nat, t: State)
    requires Sound(s) && c in s.calls && s.calls[c].at.Saving? && t == Go(s, c, Consumed).(usedAt := true)
    ensures Sound(t)
  {
    assert CallSound(s, c);
    FilesStay(s, c, t);
    ChangeKeeps(s, c, t);
  }

  lemma ConsumeKeeps(s: State, c: nat, t: State)
    requires Sound(s) && c in s.calls && Consumes(s, c, t)
    ensures Sound(t)
  {
    assert CallSound(s, c);
    var at := t.calls[c].at;
    if t == Go(s, c, at) {
      GoKeeps(s, c, at);
    } else if at.Marked? {
      MarkKeeps(s, c, t);
    } else {
      SaveKeeps(s, c, t);
    }
  }

  lemma StepKeeps(s: State, t: State)
    requires Sound(s) && Step(s, t)
    ensures Sound(t)
  {
    var c: nat :| StepOf(s, c, t);
    if Starts(s, c, t) { StartKeeps(s, c, t); }
    else if Establishes(s, c, t) { EstablishKeeps(s, c, t); }
    else if Reconnects(s, c, t) { ReconnectKeeps(s, c, t); }
    else { ConsumeKeeps(s, c, t); }
  }

  lemma FreshSound(s: State)
    requires Fresh(s)
    ensures Sound(s)
  {
  }

  lemma NextSound(states: seq<State>, i: nat)
    requires 0 < i < |states| && Follows(states, i) && Sound(states[i - 1])
    ensures Sound(states[i])
  {
    StepKeeps(states[i - 1], states[i]);
  }

  lemma {:induction false} RunSound(states: seq<State>, i: nat)
    requires Run(states) && i < |states|
    ensures Sound(states[i])
  {
    if i == 0 {
      FreshSound(states[0]);
    } else {
      RunSound(states, i - 1);
      NextSound(states, i);
    }
  }

  predicate Final(at: Progress) {
    at.Established? || at.EstablishFailed? || at.Reconnected? || at.Consumed? || at.Refused?
  }

  /** A call that has returned stays as it is. */
  lemma {:induction false} FinalStays(states: seq<State>, i: nat, j: nat, c: nat)
    requires Run(states) && i <= j < |states| && c in states[i].calls && Final(states[i].calls[c].at)
    ensures c in states[j].calls && states[j].calls[c] == states[i].calls[c]
    decreases j
  {
    if i < j {
      FinalStays(states, i, j - 1, c);
      assert Follows(states, j);
      FinalStep(states[j - 1], states[j], c);
    }
  }

  lemma FinalStep(s: State, t: State, c: nat)
    requires Step(s, t) && c in s.calls && Final(s.calls[c].at)
    ensures c in t.calls && t.calls[c] == s.calls[c]
  {
    var d: nat :| StepOf(s, d, t);
    if !Starts(s, d, t) {
      if Establishes(s, d, t) { EstablishMoves(s, d, t); }
      else if Reconnects(s, d, t) { ReconnectMoves(s, d, t); }
      else { ConsumeMoves(s, d, t); }
    }
  }

  /** Only the caller moves, and only one that has not returned. */
  ghost predicate Moves(s: State, c: nat, t: State) {
    && c in s.calls && c in t.calls && t.calls == s.calls[c := s.calls[c].(at := t.calls[c].at)]
    && !Final(s.calls[c].at)
  }

  lemma EstablishMoves(s: State, c: nat, t: State)
    requires c in s.calls && Establishes(s, c, t)
    ensures Moves(s, c, t)
  {
  }

  lemma ReconnectMoves(s: State, c: nat, t: State)
    requires c in s.calls && Reconnects(s, c, t)
    ensures Moves(s, c, t)
  {
  }

  lemma ConsumeMoves(s: State, c: nat, t: State)
    requires c in s.calls && Consumes(s, c, t)
    ensures Moves(s, c, t)
  {
  }

  datatype Success = CursorZero | CursorOne | Desktop

  predicate Succeeds(at: Progress, kind: Success) {
    match kind
    case CursorZero => at.Established?
    case CursorOne => at.Reconnected?
    case Desktop => at.Consumed?
  }

  /** Call `c` succeeds somewhere in the run. */
  ghost predicate Succeeded(states: seq<State>, c: nat, kind: Success) {
    exists i | 0 <= i < |states| :: c in states[i].calls && Succeeds(states[i].calls[c].at, kind)
  }

  lemma EverIsLast(states: seq<State>, c: nat, kind: Success)
    requires Run(states) && Succeeded(states, c, kind)
    ensures var last := states[|states| - 1]; c in last.calls && Succeeds(last.calls[c].at, kind)
  {
    var i :| 0 <= i < |states| && c in states[i].calls && Succeeds(states[i].calls[c].at, kind);
    FinalStays(states, i, |states| - 1, c);
  }

  /** However the processes interleave and whichever of their calls fail, at most one
      cursor-0 call ever succeeds, */
  lemma CursorZeroOnce(states: seq<State>, c: nat, d: nat)
    requires Run(states) && Succeeded(states, c, CursorZero) && Succeeded(states, d, CursorZero)
    ensures c == d
  {
    EverIsLast(states, c, CursorZero);
    EverIsLast(states, d, CursorZero);
    RunSound(states, |states| - 1);
    var last := states[|states| - 1];
    assert CallSound(last, c) && CallSound(last, d);
  }

  /** at most one cursor-1 call, */
  lemma CursorOneOnce(states: seq<State>, c: nat, d: nat)
    requires Run(states) && Succeeded(states, c, CursorOne) && Succeeded(states, d, CursorOne)
    ensures c == d
  {
    EverIsLast(states, c, CursorOne);
    EverIsLast(states, d, CursorOne);
    RunSound(states, |states| - 1);
    var last := states[|states| - 1];
    assert CallSound(last, c) && CallSound(last, d);
  }

  /** and at most one Desktop consumption. */
  lemma ConsumedOnce(states: seq<State>, c: nat, d: nat)
    requires Run(states) && Succeeded(states, c, Desktop) && Succeeded(states, d, Desktop)
    ensures c == d && states[|states| - 1].usedAt
  {
    EverIsLast(states, c, Desktop);
    EverIsLast(states, d, Desktop);
    RunSound(states, |states| - 1);
    var last := states[|states| - 1];
    assert CallSound(last, c) && CallSound(last, d);
  }

  /** Cursor 1 is granted only after some cursor-0 call of the very same challenge has
      written its whole line, even if that call goes on to fail and remove its marker. */
  lemma CursorOneAfterWrite(states: seq<State>, j: nat, c: nat) returns (writer: nat)
    requires Run(states) && j < |states| && c in states[j].calls && states[j].calls[c].at.Reconnected?
    ensures var s := states[j];
            && writer in s.calls && s.calls[writer].line == s.calls[c].line && AfterWrite(s.calls[writer].at)
            && s.calls[c].at.ino in s.inodes && s.inodes[s.calls[c].at.ino] == Inode(writer, s.calls[c].line)
  {
    RunSound(states, j);
    var s := states[j];
    assert CallSound(s, c);
    writer := s.inodes[s.calls[c].at.ino].creator;
    assert FileSound(s, s.calls[c].at.ino) && CallSound(s, writer);
    assert s.calls[c].line <= s.calls[writer].line;
  }

  /** The stronger reading, that a cursor-0 call has succeeded, does not hold: between
      the write and a failing sync the line is already there to be read. */
  lemma CursorOneWithoutCursorZero(line: string)
    requires |line| == LINE_LENGTH
    ensures exists states: seq<State> ::
      && Run(states)
      && Succeeded(states, 1, CursorOne)
      && (forall c :: !Succeeded(states, c, CursorZero))
      && 0 in states[|states| - 1].calls && states[|states| - 1].calls[0] == Call(line, EstablishFailed)
  {
    var states := seq(12, i requires 0 <= i < 12 => Early(line, i));
    forall i | 0 < i < 12 ensures Follows(states, i) {
      if i < 4 { EarlyWrites(line, i); } else if i < 8 { EarlyReads(line, i); } else { EarlyEnds(line, i); }
    }
    assert states[9].calls[1].at.Reconnected?;
    assert Succeeded(states, 1, CursorOne);
    assert states[11].calls[0] == Call(line, EstablishFailed);
    forall c ensures !Succeeded(states, c, CursorZero) {
      if Succeeded(states, c, CursorZero) { EverIsLast(states, c, CursorZero); }
    }
  }

  function Both(line: string, writer: Progress, reader: Progress, cursor: Option<nat>, reconnect: Option<nat>): State {
    State(map[0 := Call(line, writer), 1 := Call(line, reader)], map[0 := Inode(0, line)], cursor, reconnect, None,
        false)
  }

  function Alone(line: string, writer: Progress, inodes: map<nat, Inode>, cursor: Option<nat>): State {
    State(map[0 := Call(line, writer)], inodes, cursor, None, None, false)
  }

  /** Call 0 writes its line, call 1 reads it and is granted, call 0 fails to sync. */
  function Early(line: string, i: nat): State {
    if i < 4 then
      if i == 0 then State(map[], map[], None, None, None, false)
      else if i == 1 then Alone(line, Establish, map[], None)
      else if i == 2 then Alone(line, Writing(0, 0), map[0 := Inode(0, "")], Some(0))
      else Alone(line, Writing(0, LINE_LENGTH), map[0 := Inode(0, line)], Some(0))
    else if i < 8 then
      if i == 4 then Both(line, Writing(0, LINE_LENGTH), Reconnect, Some(0), None)
      else if i == 5 then Both(line, Writing(0, LINE_LENGTH), Reading(0, ""), Some(0), None)
      else if i == 6 then Both(line, Writing(0, LINE_LENGTH), Reading(0, line), Some(0), None)
      else Both(line, Writing(0, LINE_LENGTH), Matched(0), Some(0), None)
    else if i == 8 then Both(line, Writing(0, LINE_LENGTH), Closing(0), Some(0), Some(1))
    else if i == 9 then Both(line, Writing(0, LINE_LENGTH), Reconnected(0), Some(0), Some(1))
    else if i == 10 then Both(line, Removing(0), Reconnected(0), Some(0), Some(1))
    else Both(line, EstablishFailed, Reconnected(0), None, Some(1))
  }

  lemma EarlyWrites(line: string, i: nat)
    requires |line| == LINE_LENGTH && 0 < i < 4
    ensures Step(Early(line, i - 1), Early(line, i))
  {
    var s, t := Early(line, i - 1), Early(line, i);
    if i == 1 {
      assert Starts(s, 0, t) && StepOf(s, 0, t);
    } else if i == 2 {
      assert 0 !in s.inodes && t == Go(s, 0, Writing(0, 0)).(cursor := Some(0), inodes := s.inodes[0 := Inode(0, "")]);
      assert Establishes(s, 0, t) && StepOf(s, 0, t);
    } else {
      assert line[..LINE_LENGTH] == line;
      assert t == Go(s, 0, Writing(0, LINE_LENGTH)).(inodes :=
          s.inodes[0 := s.inodes[0].(bytes := line[..LINE_LENGTH])]);
      assert Establishes(s, 0, t) && StepOf(s, 0, t);
    }
  }

  lemma EarlyReads(line: string, i: nat)
    requires |line| == LINE_LENGTH && 4 <= i < 8
    ensures Step(Early(line, i - 1), Early(line, i))
  {
    var s, t := Early(line, i - 1), Early(line, i);
    if i == 4 {
      assert Starts(s, 1, t) && StepOf(s, 1, t);
    } else if i == 6 {
      assert "" + line[0..LINE_LENGTH] == line;
      assert t == Go(s, 1, Reading(0, "" + s.inodes[0].bytes[0..LINE_LENGTH]));
      assert Reconnects(s, 1, t) && StepOf(s, 1, t);
    } else {
      assert t == Go(s, 1, t.calls[1].at);
      assert Reconnects(s, 1, t) && StepOf(s, 1, t);
    }
  }

  lemma EarlyEnds(line: string, i: nat)
    requires |line| == LINE_LENGTH && 8 <= i < 12
    ensures Step(Early(line, i - 1), Early(line, i))
  {
    var s, t := Early(line, i - 1), Early(line, i);
    if i < 10 {
      assert t == Go(s, 1, t.calls[1].at).(reconnect := Some(1));
      assert Reconnects(s, 1, t) && StepOf(s, 1, t);
    } else {
      assert t == Go(s, 0, t.calls[0].at).(cursor := t.cursor);
      assert Establishes(s, 0, t) && StepOf(s, 0, t);
    }
  }

  /** Nothing keeps the three from succeeding one after the other: cursor 0, cursor 1, and
      the Desktop consumption. */
  lemma AllCanSucceed(line: string)
    requires |line| == 65
    ensures exists states: seq<State> ::
      Run(states) && Succeeded(states, 0, CursorZero) && Succeeded(states, 1, CursorOne)
          && Succeeded(states, 2, Desktop)
  {
    var states := seq(17, i requires 0 <= i < 17 => Smooth(line, i));
    forall i | 0 < i < 17 ensures Follows(states, i) {
      if i < 6 { SmoothWrites(line, i); } else if i < 12 { SmoothReads(line, i); } else { SmoothUses(line, i); }
    }
    assert states[5].calls[0].at.Established? && states[11].calls[1].at.Reconnected?
        && states[16].calls[2].at.Consumed?;
    assert Run(states);
    assert Succeeded(states, 0, CursorZero) && Succeeded(states, 1, CursorOne) && Succeeded(states, 2, Desktop);
  }

  function Smooth(line: string, i: nat): State {
    if i < 6 then
      if i == 0 then State(map[], map[], None, None, None, false)
      else if i == 1 then Alone(line, Establish, map[], None)
      else if i == 2 then Alone(line, Writing(0, 0), map[0 := Inode(0, "")], Some(0))
      else if i == 3 then Alone(line, Writing(0, LINE_LENGTH), map[0 := Inode(0, line)], Some(0))
      else if i == 4 then Alone(line, Synced(0), map[0 := Inode(0, line)], Some(0))
      else Alone(line, Established(0), map[0 := Inode(0, line)], Some(0))
    else if i < 12 then
      if i == 6 then Both(line, Established(0), Reconnect, Some(0), None)
      else if i == 7 then Both(line, Established(0), Reading(0, ""), Some(0), None)
      else if i == 8 then Both(line, Established(0), Reading(0, line), Some(0), None)
      else if i == 9 then Both(line, Established(0), Matched(0), Some(0), None)
      else if i == 10 then Both(line, Established(0), Closing(0), Some(0), Some(1))
      else Both(line, Established(0), Reconnected(0), Some(0), Some(1))
    else if i == 12 then Three(line, Consume, None, false)
    else if i == 13 then Three(line, Unused, None, false)
    else if i == 14 then Three(line, Marked, Some(2), false)
    else if i == 15 then Three(line, Saving, Some(2), false)
    else Three(line, Consumed, Some(2), true)
  }

  function Three(line: string, consumer: Progress, used: Option<nat>, usedAt: bool): State {
    State(map[0 := Call(line, Established(0)), 1 := Call(line, Reconnected(0)), 2 := Call(line, consumer)],
          map[0 := Inode(0, line)], Some(0), Some(1), used, usedAt)
  }

  lemma SmoothWrites(line: string, i: nat)
    requires |line| == LINE_LENGTH && 0 < i < 6
    ensures Step(Smooth(line, i - 1), Smooth(line, i))
  {
    var s, t := Smooth(line, i - 1), Smooth(line, i);
    if i < 4 {
      EarlyWrites(line, i);
    } else {
      assert t == Go(s, 0, t.calls[0].at);
      assert Establishes(s, 0, t) && StepOf(s, 0, t);
    }
  }

  lemma SmoothReads(line: string, i: nat)
    requires |line| == LINE_LENGTH && 6 <= i < 12
    ensures Step(Smooth(line, i - 1), Smooth(line, i))
  {
    var s, t := Smooth(line, i - 1), Smooth(line, i);
    if i == 6 {
      assert Starts(s, 1, t) && StepOf(s, 1, t);
    } else {
      if i == 8 {
        assert "" + line[0..LINE_LENGTH] == line;
        assert t == Go(s, 1, Reading(0, "" + s.inodes[0].bytes[0..LINE_LENGTH]));
      }
      assert t == Go(s, 1, t.calls[1].at).(reconnect := t.reconnect);
      assert Reconnects(s, 1, t) && StepOf(s, 1, t);
    }
  }

  lemma SmoothUses(line: string, i: nat)
    requires |line| == LINE_LENGTH && 12 <= i < 17
    ensures Step(Smooth(line, i - 1), Smooth(line, i))
  {
    var s, t := Smooth(line, i - 1), Smooth(line, i);
    if i == 12 {
      assert Starts(s, 2, t) && StepOf(s, 2, t);
    } else {
      assert t == Go(s, 2, t.calls[2].at).(used := t.used, usedAt := t.usedAt);
      assert Consumes(s, 2, t) && StepOf(s, 2, t);
    }
  }

  /** A call that fails after it has made the marker takes it away, so that another can
      still succeed. */
  lemma AnotherCanTry(line: string)
    requires |line| == LINE_LENGTH
    ensures exists states: seq<State> ::
      && Run(states) && Succeeded(states, 1, CursorZero)
      && 0 in states[|states| - 1].calls && states[|states| - 1].calls[0] == Call(line, EstablishFailed)
  {
    var states := seq(10, i requires 0 <= i < 10 => Again(line, i));
    forall i | 0 < i < 10 ensures Follows(states, i) {
      if i < 5 { AgainFails(line, i); } else { AgainWrites(line, i); }
    }
    assert states[9].calls[1].at.Established?;
    assert Run(states) && Succeeded(states, 1, CursorZero);
  }

  function Again(line: string, i: nat): State {
    if i < 5 then
      if i == 0 then State(map[], map[], None, None, None, false)
      else if i == 1 then Alone(line, Establish, map[], None)
      else if i == 2 then Alone(line, Writing(0, 0), map[0 := Inode(0, "")], Some(0))
      else if i == 3 then Alone(line, Removing(0), map[0 := Inode(0, "")], Some(0))
      else Alone(line, EstablishFailed, map[0 := Inode(0, "")], None)
    else if i == 5 then Second(line, Establish, map[0 := Inode(0, "")], None)
    else if i == 6 then Second(line, Writing(1, 0), map[0 := Inode(0, ""), 1 := Inode(1, "")], Some(1))
    else if i == 7 then Second(line, Writing(1, LINE_LENGTH), map[0 := Inode(0, ""), 1 := Inode(1, line)], Some(1))
    else if i == 8 then Second(line, Synced(1), map[0 := Inode(0, ""), 1 := Inode(1, line)], Some(1))
    else Second(line, Established(1), map[0 := Inode(0, ""), 1 := Inode(1, line)], Some(1))
  }

  function Second(line: string, writer: Progress, inodes: map<nat, Inode>, cursor: Option<nat>): State {
    State(map[0 := Call(line, EstablishFailed), 1 := Call(line, writer)], inodes, cursor, None, None, false)
  }

  lemma AgainFails(line: string, i: nat)
    requires |line| == LINE_LENGTH && 0 < i < 5
    ensures Step(Again(line, i - 1), Again(line, i))
  {
    var s, t := Again(line, i - 1), Again(line, i);
    if i < 3 {
      EarlyWrites(line, i);
    } else {
      assert t == Go(s, 0, t.calls[0].at).(cursor := t.cursor);
      assert Establishes(s, 0, t) && StepOf(s, 0, t);
    }
  }

  lemma AgainWrites(line: string, i: nat)
    requires |line| == LINE_LENGTH && 5 <= i < 10
    ensures Step(Again(line, i - 1), Again(line, i))
  {
    var s, t := Again(line, i - 1), Again(line, i);
    if i == 5 {
      assert Starts(s, 1, t) && StepOf(s, 1, t);
    } else {
      if i == 6 {
        assert 1 !in s.inodes;
        assert t == Go(s, 1, Writing(1, 0)).(cursor := Some(1), inodes := s.inodes[1 := Inode(1, "")]);
      } else if i == 7 {
        assert line[..LINE_LENGTH] == line;
        assert t == Go(s, 1, Writing(1, LINE_LENGTH)).(inodes :=
            s.inodes[1 := s.inodes[1].(bytes := line[..LINE_LENGTH])]);
      } else {
        assert t == Go(s, 1, t.calls[1].at);
      }
      assert Establishes(s, 1, t) && StepOf(s, 1, t);
    }
  }
}
