/** The maintenance clock: one ticker and any number of direct callers share one lane.
    A step is what one goroutine does between two points at which another may run. */
module Clock {
  import opened Options

  /** The goroutine of tick. `beat` is the time the ticker delivered. */
  datatype Ticker =
    | Off
    | Idle
    | Sweeping(beat: int, next: nat)
    | Checked(beat: int, next: nat)
    | Executing(beat: int, next: nat)

  /** A call of Do, waiting for the lane, holding it, or back. */
  datatype Caller = Waiting(job: nat) | Holding(job: nat) | Returned(job: nat)

  /** Stop has signalled the ticker, then waits for the lane. */
  datatype Stopping = NotStopping | Signalled | Draining

  datatype Phase = Running | Ended(at: int) | Booked

  datatype Holder = ByTicker | ByCaller(caller: nat)

  /** Who holds the lane, for which job, and how far the execution is. */
  datatype Lane = Lane(holder: Holder, job: nat, phase: Phase)

  datatype Event = Begin(job: nat, at: int) | End(job: nat, at: int)

  /** `log` is every execution so far; it decides nothing. */
  datatype State = State(now: int, every: seq<int>, due: seq<int>, runs: seq<nat>, lane: Option<Lane>, ticker: Ticker,
                         callers: map<nat, Caller>, started: bool, stopping: Stopping, log: seq<Event>)

  /** New: every job is due at once. */
  predicate Fresh(s: State) {
    && |s.due| == |s.every| && |s.runs| == |s.every|
    && (forall j | 0 <= j < |s.every| :: s.every[j] > 0 && s.due[j] == s.now && s.runs[j] == 0)
    && s.lane.None? && s.ticker.Off? && s.callers == map[] && !s.started && s.stopping.NotStopping? && s.log == []
  }

  /** Start and Stop, which the caller keeps from overlapping. A canceled context ends the
      ticker as well. */
  ghost predicate Switches(s: State, t: State) {
    || (!s.started && s.ticker.Off? && s.stopping.NotStopping? && |s.every| > 0
        && t == s.(started := true, ticker := Idle))
    || (s.started && s.stopping.NotStopping? && t == s.(started := false, stopping := Signalled))
    || (s.ticker.Idle? && t == s.(ticker := Off))
    || (s.stopping.Signalled? && s.ticker.Off? && t == s.(stopping := Draining))
    || (s.stopping.Draining? && s.lane.None? && t == s.(stopping := NotStopping))
  }

  /** One step of a sweep. A beat is taken off the channel some time after it was sent. */
  ghost predicate Sweeps(s: State, t: State) {
    match s.ticker
    case Idle => exists beat | beat <= s.now :: t == s.(ticker := Sweeping(beat, 0))
    case Sweeping(beat, j) =>
      || t == s.(ticker := Idle)
      || (j < |s.every| && j < |s.due|
          && t == s.(ticker := if beat < s.due[j] then Sweeping(beat, j + 1) else Checked(beat, j)))
    case Checked(beat, j) =>
      if s.lane.Some? then t == s.(ticker := Idle)
      else t == s.(ticker := Executing(beat, j), lane := Some(Lane(ByTicker, j, Running)),
          log := s.log + [Begin(j, s.now)])
    case _ => false
  }

  /** A call of Do for a known job, and its turn in the lane. */
  ghost predicate Calls(s: State, c: nat, t: State) {
    if c !in s.callers then exists j | 0 <= j < |s.every| :: t == s.(callers := s.callers[c := Waiting(j)])
    else
      && s.callers[c].Waiting? && s.lane.None?
      && var j := s.callers[c].job;
         t == s.(callers := s.callers[c := Holding(j)], lane := Some(Lane(ByCaller(c), j, Running)),
             log := s.log + [Begin(j, s.now)])
  }

  /** The holder of the lane goes on: the job returns, the result is booked, the lane is
      given back. */
  ghost predicate Works(s: State, t: State) {
    && s.lane.Some? && s.lane.value.job < |s.every| == |s.due| == |s.runs|
    && var l, j := s.lane.value, s.lane.value.job;
       match l.phase
       case Running => t == s.(lane := Some(l.(phase := Ended(s.now))), log := s.log + [End(j, s.now)])
       case Ended(at) => t == s.(lane := Some(l.(phase := Booked)), due := s.due[j := at + s.every[j]],
           runs := s.runs[j := s.runs[j] + 1])
       case Booked => t == Released(s, l)
  }

  function Released(s: State, l: Lane): State {
    match l.holder
    case ByTicker =>
      s.(lane := None, ticker := if s.ticker.Executing? then Sweeping(s.ticker.beat, s.ticker.next + 1) else s.ticker)
    case ByCaller(c) => s.(lane := None, callers := s.callers[c := Returned(l.job)])
  }

  ghost predicate Step(s: State, t: State) {
    || (exists later | later >= s.now :: t == s.(now := later))
    || Switches(s, t) || Sweeps(s, t) || Works(s, t)
    || exists c :: Calls(s, c, t)
  }

  ghost predicate Follows(states: seq<State>, i: nat)
    requires 0 < i < |states|
  {
    Step(states[i - 1], states[i])
  }

  ghost predicate Run(states: seq<State>) {
    |states| > 0 && Fresh(states[0]) && forall i | 0 < i < |states| :: Follows(states, i)
  }

  // What every step keeps.

  predicate Sized(s: State) {
    && |s.due| == |s.every| && |s.runs| == |s.every| && (forall j | 0 <= j < |s.every| :: s.every[j] > 0)
    && (s.ticker.Sweeping? || s.ticker.Checked? || s.ticker.Executing? ==> s.ticker.beat <= s.now)
    && (s.ticker.Checked? || s.ticker.Executing? ==> s.ticker.next < |s.every|)
    && (forall c | c in s.callers :: s.callers[c].job < |s.every|)
    && (s.stopping.Draining? ==> s.ticker.Off?)
  }

  /** The lane is held exactly by the one that executes. */
  predicate Laned(s: State) {
    && (s.ticker.Executing? <==> s.lane.Some? && s.lane.value.holder.ByTicker?)
    && (forall c | c in s.callers :: s.callers[c].Holding? <==> s.lane.Some? && s.lane.value.holder == ByCaller(c))
    && (s.lane.Some? ==>
          && s.lane.value.job < |s.every|
          && match s.lane.value.holder
             case ByTicker => s.ticker.Executing? && s.ticker.next == s.lane.value.job
             case ByCaller(c) => c in s.callers && s.callers[c] == Holding(s.lane.value.job))
  }

  /** A begin comes after an end, and an end after its own begin. */
  predicate Paired(log: seq<Event>, k: nat)
    requires k < |log|
  {
    if log[k].Begin? then k == 0 || log[k - 1].End? else k > 0 && log[k - 1].Begin? && log[k - 1].job == log[k].job
  }

  /** Executions follow one another. */
  predicate Alternates(log: seq<Event>) {
    forall k | 0 <= k < |log| :: Paired(log, k)
  }

  lemma AlternatesNext(log: seq<Event>, e: Event)
    requires Alternates(log)
    requires if e.Begin? then |log| == 0 || log[|log| - 1].End?
             else |log| > 0 && log[|log| - 1].Begin? && log[|log| - 1].job == e.job
    ensures Alternates(log + [e])
  {
    forall k | 0 <= k < |log + [e]| ensures Paired(log + [e], k) {
      if k < |log| { assert Paired(log, k); }
    }
  }

  predicate Logged(s: State) {
    && Alternates(s.log)
    && (if s.lane.Some? && s.lane.value.phase.Running?
        then |s.log| > 0 && s.log[|s.log| - 1].Begin? && s.log[|s.log| - 1].job == s.lane.value.job
        else |s.log| == 0 || s.log[|s.log| - 1].End?)
    && (forall k | 0 <= k < |s.log| :: s.log[k].at <= s.now)
  }

  function Ends(log: seq<Event>, j: nat): nat {
    if |log| == 0 then 0
    else Ends(log[..|log| - 1], j) + if log[|log| - 1].End? && log[|log| - 1].job == j then 1 else 0
  }

  predicate Pending(s: State, j: nat) {
    s.lane.Some? && s.lane.value.job == j && s.lane.value.phase.Ended?
  }

  /** Every finished execution is counted, but for one that is about to be. */
  predicate Counted(s: State)
    requires |s.runs| == |s.every|
  {
    forall j | 0 <= j < |s.every| :: s.runs[j] + (if Pending(s, j) then 1 else 0) == Ends(s.log, j)
  }

  /** A job is not due before its rhythm has passed since any of its ends. */
  predicate Spaced(s: State)
    requires |s.due| == |s.every|
  {
    && (s.lane.Some? && s.lane.value.phase.Ended? ==> s.lane.value.phase.at <= s.now)
    && forall k | 0 <= k < |s.log| && s.log[k].End? ::
         && s.log[k].job < |s.every|
         && if Pending(s, s.log[k].job) then s.log[k].at <= s.lane.value.phase.at
            else s.log[k].at + s.every[s.log[k].job] <= s.due[s.log[k].job]
  }

  ghost predicate Requested(s: State, j: nat) {
    exists c | c in s.callers :: s.callers[c].job == j
  }

  /** Without a direct caller, what the ticker has checked is still due when it gets the
      lane, and each of its starts was late enough. */
  ghost predicate Paced(s: State)
    requires |s.due| == |s.every|
  {
    && (s.ticker.Checked? && s.ticker.next < |s.due| && !Requested(s, s.ticker.next) ==>
        s.due[s.ticker.next] <= s.ticker.beat)
    && Apart(s, s.log)
  }

  ghost predicate Sound(s: State) {
    Sized(s) && Laned(s) && Logged(s) && Counted(s) && Spaced(s) && Paced(s)
  }

  lemma EndsNext(log: seq<Event>, e: Event, j: nat)
    ensures Ends(log + [e], j) == Ends(log, j) + if e.End? && e.job == j then 1 else 0
  {
    assert (log + [e])[..|log|] == log;
  }

  lemma LaterKeeps(s: State, t: State)
    requires Sound(s) && t == s.(now := t.now) && t.now >= s.now
    ensures Sound(t)
  {
  }

  /** The ticker moves on without taking the lane. */
  lemma TickerMoves(s: State, t: State)
    requires Sound(s) && t == s.(ticker := t.ticker, started := t.started, stopping := t.stopping)
    requires t.ticker == s.ticker || (!s.ticker.Executing? && !t.ticker.Executing?)
    requires t.ticker == s.ticker || t.ticker.Off? || t.ticker.Idle?
             || (t.ticker.Sweeping? && t.ticker.beat <= s.now)
             || (t.ticker.Checked? && t.ticker.beat <= s.now && t.ticker.next < |s.every|
                 && s.due[t.ticker.next] <= t.ticker.beat)
    requires t.stopping.Draining? ==> t.ticker.Off?
    ensures Sound(t)
  {
    assert Sized(t);
    assert Laned(t);
    assert Counted(t);
    assert Spaced(t);
  }

  lemma RequestedStays(s: State, t: State, j: nat)
    requires Requested(s, j)
    requires forall c | c in s.callers :: c in t.callers && t.callers[c].job == s.callers[c].job
    ensures Requested(t, j)
  {
    var c :| c in s.callers && s.callers[c].job == j;
    assert c in t.callers && t.callers[c].job == j;
  }

  /** An execution begins. */
  lemma BeginLogs(s: State, t: State, j: nat)
    requires Sound(s) && s.lane.None? && j < |s.every| && t.lane.Some? && t.lane.value.job == j
        && t.lane.value.phase.Running?
    requires t.log == s.log + [Begin(j, s.now)] && t.now == s.now && t.every == s.every && t.due == s.due
        && t.runs == s.runs
    ensures Logged(t) && Counted(t) && Spaced(t)
  {
    forall i | 0 <= i < |s.every| ensures Ends(t.log, i) == Ends(s.log, i) { EndsNext(s.log, Begin(j, s.now), i); }
    assert forall k | 0 <= k < |s.log| :: t.log[k] == s.log[k];
    AlternatesNext(s.log, Begin(j, s.now));
  }

  /** The starts of a job nobody asks for directly are all late enough. */
  ghost predicate Apart(s: State, log: seq<Event>) {
    forall k, l | 0 <= l < k < |log| && log[k].Begin? && log[l].End? && log[k].job == log[l].job
                  && log[k].job < |s.every| && !Requested(s, log[k].job) ::
      log[k].at >= log[l].at + s.every[log[k].job]
  }

  lemma ApartNext(s: State, t: State, e: Event)
    requires Apart(s, s.log) && t.every == s.every
    requires forall j: nat | Requested(s, j) :: Requested(t, j)
    requires e.Begin? && e.job < |s.every| && !Requested(t, e.job) ==>
               forall l | 0 <= l < |s.log| && s.log[l].End? && s.log[l].job == e.job ::
                   e.at >= s.log[l].at + s.every[e.job]
    ensures Apart(t, s.log + [e])
  {
  }

  lemma SwitchKeeps(s: State, t: State)
    requires Sound(s) && Switches(s, t)
    ensures Sound(t)
  {
    TickerMoves(s, t);
  }

  lemma SweepKeeps(s: State, t: State)
    requires Sound(s) && Sweeps(s, t)
    ensures Sound(t)
  {
    match s.ticker
    case Checked(beat, j) => if s.lane.Some? { TickerMoves(s, t); } else { SweepBegins(s, t); }
    case _ => TickerMoves(s, t);
  }

  lemma SweepBegins(s: State, t: State)
    requires Sound(s) && Sweeps(s, t) && s.ticker.Checked? && s.lane.None?
    ensures Sound(t)
  {
    var j := s.ticker.next;
    BeginLogs(s, t, j);
    assert Sized(t) && Laned(t);
    assert forall i: nat | Requested(s, i) :: Requested(t, i);
    ApartNext(s, t, Begin(j, s.now));
  }

  lemma CallKeeps(s: State, c: nat, t: State)
    requires Sound(s) && Calls(s, c, t)
    ensures Sound(t)
  {
    forall j: nat | Requested(s, j) ensures Requested(t, j) { RequestedStays(s, t, j); }
    if c in s.callers { CallBegins(s, c, t); } else { CallWaits(s, c, t); }
  }

  lemma CallWaits(s: State, c: nat, t: State)
    requires Sound(s) && Calls(s, c, t) && c !in s.callers && forall j: nat | Requested(s, j) :: Requested(t, j)
    ensures Sound(t)
  {
    assert Sized(t) && Laned(t);
    assert Logged(t) && Counted(t) && Spaced(t);
    assert Apart(t, t.log);
  }

  lemma CallBegins(s: State, c: nat, t: State)
    requires Sound(s) && Calls(s, c, t) && c in s.callers && forall j: nat | Requested(s, j) :: Requested(t, j)
    ensures Sound(t)
  {
    var j := s.callers[c].job;
    assert Sized(t) && Laned(t);
    BeginLogs(s, t, j);
    assert c in t.callers && Requested(t, j);
    ApartNext(s, t, Begin(j, s.now));
  }

  lemma WorkKeeps(s: State, t: State)
    requires Sound(s) && Works(s, t)
    ensures Sound(t)
  {
    match s.lane.value.phase
    case Running => EndKeeps(s, t);
    case Ended(_) => BookKeeps(s, t);
    case Booked => ReleaseKeeps(s, t);
  }

  lemma EndKeeps(s: State, t: State)
    requires Sound(s) && Works(s, t) && s.lane.value.phase.Running?
    ensures Sound(t)
  {
    var e := End(s.lane.value.job, s.now);
    assert Sized(t) && Laned(t);
    forall i | 0 <= i < |s.every|
        ensures Ends(t.log, i) == Ends(s.log, i) + if i == e.job then 1 else 0 { EndsNext(s.log, e, i); }
    assert Counted(t);
    assert forall k | 0 <= k < |s.log| :: t.log[k] == s.log[k];
    AlternatesNext(s.log, e);
    assert Logged(t) && Spaced(t);
    assert forall j: nat | Requested(s, j) :: Requested(t, j);
    ApartNext(s, t, e);
  }

  lemma BookKeeps(s: State, t: State)
    requires Sound(s) && Works(s, t) && s.lane.value.phase.Ended?
    ensures Sound(t)
  {
    assert Sized(t) && Laned(t) && Logged(t);
    assert Counted(t);
    assert Spaced(t);
    assert forall j: nat | Requested(s, j) :: Requested(t, j);
    if s.ticker.Checked? { HolderAsked(s); }
  }

  /** While the ticker is elsewhere, the lane is held for a direct caller. */
  lemma HolderAsked(s: State)
    requires Laned(s) && s.lane.Some? && !s.ticker.Executing?
    ensures Requested(s, s.lane.value.job)
  {
    assert s.lane.value.holder.caller in s.callers;
  }

  lemma ReleaseKeeps(s: State, t: State)
    requires Sound(s) && Works(s, t) && s.lane.value.phase.Booked?
    ensures Sound(t)
  {
    ReleaseLane(s, s.lane.value, t);
    ReleaseBooks(s, t);
    forall j: nat | Requested(s, j) ensures Requested(t, j) { RequestedStays(s, t, j); }
  }

  lemma ReleaseLane(s: State, l: Lane, t: State)
    requires Sized(s) && Laned(s) && s.lane == Some(l) && t == Released(s, l)
    ensures Sized(t) && Laned(t)
  {
  }

  /** Giving back a lane whose execution is booked changes no account of it. */
  lemma ReleaseBooks(s: State, t: State)
    requires Sized(s) && Logged(s) && Counted(s) && Spaced(s) && s.lane.Some? && s.lane.value.phase.Booked?
        && t.lane.None?
    requires t.log == s.log && t.runs == s.runs && t.due == s.due && t.every == s.every && t.now == s.now
    ensures Logged(t) && Counted(t) && Spaced(t)
  {
  }

  lemma StepKeeps(s: State, t: State)
    requires Sound(s) && Step(s, t)
    ensures Sound(t)
  {
    if Switches(s, t) { SwitchKeeps(s, t); }
    else if Sweeps(s, t) { SweepKeeps(s, t); }
    else if Works(s, t) { WorkKeeps(s, t); }
    else if c: nat :| Calls(s, c, t) { CallKeeps(s, c, t); }
    else { LaterKeeps(s, t); }
  }

  lemma {:induction false} RunSound(states: seq<State>, i: nat)
    requires Run(states) && i < |states|
    ensures Sound(states[i])
  {
    if i > 0 {
      RunSound(states, i - 1);
      assert Follows(states, i);
      StepKeeps(states[i - 1], states[i]);
    }
  }

  /** No two executions ever overlap, whoever asked for them. */
  lemma OneAtATime(states: seq<State>, i: nat, k: nat)
    requires Run(states) && i < |states| && k + 1 < |states[i].log| && states[i].log[k].Begin?
    ensures states[i].log[k + 1].End? && states[i].log[k + 1].job == states[i].log[k].job
  {
    RunSound(states, i);
    assert Paired(states[i].log, k + 1);
  }

  /** With the lane free, Runs is the number of finished executions. */
  lemma RunsAreEnds(states: seq<State>, i: nat, j: nat)
    requires Run(states) && i < |states| && j < |states[i].every| && states[i].lane.None?
    ensures j < |states[i].runs| && states[i].runs[j] == Ends(states[i].log, j)
  {
    RunSound(states, i);
  }

  /** A job that nobody asks for directly starts no earlier than its rhythm after any of
      its ends. */
  lemma RhythmKept(states: seq<State>, i: nat, l: nat, k: nat)
    requires Run(states) && i < |states| && l < k < |states[i].log|
    requires states[i].log[l].End? && states[i].log[k].Begin? && states[i].log[k].job == states[i].log[l].job
    requires !Requested(states[i], states[i].log[k].job)
    ensures var s := states[i];
            s.log[k].job < |s.every| && s.log[k].at >= s.log[l].at + s.every[s.log[k].job]
  {
    RunSound(states, i);
    assert Spaced(states[i]) && Apart(states[i], states[i].log);
  }

  /** The next turn of `j` moves only with its count. */
  predicate TurnKept(s: State, t: State, j: nat) {
    && j < |s.due| == |s.runs| == |t.due| == |t.runs|
    && t.runs[j] >= s.runs[j] && (t.runs[j] == s.runs[j] ==> t.due[j] == s.due[j])
  }

  lemma TurnStep(s: State, t: State, j: nat)
    requires Sound(s) && Step(s, t) && j < |s.every|
    ensures TurnKept(s, t, j) && |t.every| == |s.every|
  {
  }

  lemma TurnRun(states: seq<State>, k: nat, j: nat)
    requires Run(states) && 0 < k < |states| && j < |states[k - 1].every|
    ensures TurnKept(states[k - 1], states[k], j) && |states[k].every| == |states[k - 1].every|
  {
    var s, t := states[k - 1], states[k];
    assert Follows(states, k);
    assert Sound(s) by { RunSound(states, k - 1); }
    TurnStep(s, t, j);
  }

  /** A job that is skipped because the lane is busy stays due: only finishing an
      execution of it moves its next turn. */
  lemma {:induction false} StaysDue(states: seq<State>, i: nat, k: nat, j: nat)
    requires Run(states) && i <= k < |states| && j < |states[i].every|
    ensures TurnKept(states[i], states[k], j) && |states[k].every| == |states[i].every|
    decreases k
  {
    if i < k {
      StaysDue(states, i, k - 1, j);
      TurnRun(states, k, j);
    } else {
      RunSound(states, i);
    }
  }

  /** When Stop returns, the ticker has ended and no job is running. */
  lemma StoppedMeansQuiet(states: seq<State>, i: nat)
    requires Run(states) && 0 < i < |states| && states[i - 1].stopping.Draining? && states[i].stopping.NotStopping?
    ensures states[i].ticker.Off? && states[i].lane.None?
  {
    RunSound(states, i - 1);
    assert Follows(states, i);
  }

  /** With the ticker ended, and until it is started again, whatever begins was asked for
      directly. */
  ghost predicate OnlyRequested(s: State, t: State) {
    && t.ticker.Off? && s.log <= t.log
    && forall k | |s.log| <= k < |t.log| && t.log[k].Begin? :: Requested(t, t.log[k].job)
  }

  lemma QuietStep(s: State, t: State)
    requires Sound(s) && Step(s, t) && s.ticker.Off? && !t.started
    ensures OnlyRequested(s, t) && forall j: nat | Requested(s, j) :: Requested(t, j)
  {
    forall j: nat | Requested(s, j) ensures Requested(t, j) {
      var c :| c in s.callers && s.callers[c].job == j;
      assert c in t.callers && t.callers[c].job == j;
    }
    if c: nat :| Calls(s, c, t) && c in s.callers {
      assert c in t.callers && Requested(t, s.callers[c].job);
    }
  }

  lemma QuietTrans(s: State, t: State, u: State)
    requires OnlyRequested(s, t) && OnlyRequested(t, u) && forall j: nat | Requested(t, j) :: Requested(u, j)
    ensures OnlyRequested(s, u)
  {
    forall k | |s.log| <= k < |u.log| && u.log[k].Begin? ensures Requested(u, u.log[k].job) {
      if k < |t.log| { assert u.log[k] == t.log[k]; }
    }
  }

  lemma {:induction false} StaysStopped(states: seq<State>, i: nat, k: nat)
    requires Run(states) && i <= k < |states| && states[i].ticker.Off?
    requires forall j | i <= j <= k :: !states[j].started
    ensures OnlyRequested(states[i], states[k])
    decreases k
  {
    if i < k {
      StaysStopped(states, i, k - 1);
      RunSound(states, k - 1);
      assert Follows(states, k);
      QuietStep(states[k - 1], states[k]);
      QuietTrans(states[i], states[k - 1], states[k]);
    }
  }

  /** After Stop has returned, and until the next Start, the clock begins no execution of
      its own: every one that begins was asked for by a direct call. */
  lemma StopHolds(states: seq<State>, i: nat, k: nat)
    requires Run(states) && 0 < i <= k < |states|
    requires states[i - 1].stopping.Draining? && states[i].stopping.NotStopping?
    requires forall j | i <= j <= k :: !states[j].started
    ensures states[i].lane.None? && OnlyRequested(states[i], states[k])
  {
    StoppedMeansQuiet(states, i);
    StaysStopped(states, i, k);
  }

  // When the next turn is, exactly, and that it is taken.

  /** The end of the last execution of a job. */
  function LastEnd(log: seq<Event>, j: nat): Option<int> {
    if |log| == 0 then None
    else if log[|log| - 1].End? && log[|log| - 1].job == j then Some(log[|log| - 1].at)
    else LastEnd(log[..|log| - 1], j)
  }

  lemma LastEndNext(log: seq<Event>, e: Event, j: nat)
    ensures LastEnd(log + [e], j) == if e.End? && e.job == j then Some(e.at) else LastEnd(log, j)
  {
    assert (log + [e])[..|log|] == log;
  }

  /** Once the end of its last execution is booked, the next turn of a job is its rhythm
      after that end; before there is one, it is the start of the clock. */
  predicate Turned(s: State, j: nat, first: int)
    requires j < |s.due| && j < |s.every|
  {
    if Pending(s, j) then LastEnd(s.log, j) == Some(s.lane.value.phase.at)
    else
      match LastEnd(s.log, j)
      case None => s.due[j] == first
      case Some(at) => s.due[j] == at + s.every[j]
  }

  lemma TurnedStep(s: State, t: State, j: nat, first: int)
    requires Sound(s) && Step(s, t) && j < |s.every| && Turned(s, j, first)
    ensures t.every == s.every && j < |t.due| && Turned(t, j, first)
  {
    if Works(s, t) { TurnedWork(s, t, j, first); }
    else if Sweeps(s, t) { TurnedSweep(s, t, j, first); }
    else if c: nat :| Calls(s, c, t) { TurnedCall(s, c, t, j, first); }
  }

  lemma TurnedWork(s: State, t: State, j: nat, first: int)
    requires Sound(s) && Works(s, t) && j < |s.every| && Turned(s, j, first)
    ensures t.every == s.every && j < |t.due| && Turned(t, j, first)
  {
    LastEndNext(s.log, End(s.lane.value.job, s.now), j);
  }

  lemma TurnedSweep(s: State, t: State, j: nat, first: int)
    requires Sound(s) && Sweeps(s, t) && j < |s.every| && Turned(s, j, first)
    ensures t.every == s.every && j < |t.due| && Turned(t, j, first)
  {
    if s.ticker.Checked? { LastEndNext(s.log, Begin(s.ticker.next, s.now), j); }
  }

  lemma TurnedCall(s: State, c: nat, t: State, j: nat, first: int)
    requires Sound(s) && Calls(s, c, t) && j < |s.every| && Turned(s, j, first)
    ensures t.every == s.every && j < |t.due| && Turned(t, j, first)
  {
    if c in s.callers { LastEndNext(s.log, Begin(s.callers[c].job, s.now), j); }
  }

  lemma {:induction false} NextTurn(states: seq<State>, i: nat, j: nat)
    requires Run(states) && i < |states| && j < |states[0].every|
    ensures states[i].every == states[0].every && j < |states[i].due| && Turned(states[i], j, states[0].now)
  {
    if i > 0 {
      NextTurn(states, i - 1, j);
      RunSound(states, i - 1);
      assert Follows(states, i);
      TurnedStep(states[i - 1], states[i], j, states[0].now);
    }
  }

  /** A sweep goes past a job only because the job is not due at its beat, or because it
      has run. */
  lemma PassedOver(states: seq<State>, i: nat, beat: int, j: nat)
    requires Run(states) && 0 < i < |states|
    requires states[i].ticker == Sweeping(beat, j + 1) && states[i - 1].ticker != states[i].ticker
    ensures var s := states[i - 1];
            || (s.ticker == Sweeping(beat, j) && j < |s.due| && beat < s.due[j])
            || (s.ticker == Executing(beat, j) && s.lane == Some(Lane(ByTicker, j, Booked)))
  {
    assert Follows(states, i);
    RunSound(states, i - 1);
    PassedStep(states[i - 1], states[i], beat, j);
  }

  lemma PassedStep(s: State, t: State, beat: int, j: nat)
    requires Sound(s) && Step(s, t) && t.ticker == Sweeping(beat, j + 1) && s.ticker != t.ticker
    ensures || (s.ticker == Sweeping(beat, j) && j < |s.due| && beat < s.due[j])
            || (s.ticker == Executing(beat, j) && s.lane == Some(Lane(ByTicker, j, Booked)))
  {
  }

  /** A job that is found due with the lane free starts. */
  lemma FoundDueStarts(states: seq<State>, i: nat)
    requires Run(states) && 0 < i < |states| && states[i - 1].ticker.Checked? && states[i - 1].lane.None?
    requires states[i].ticker != states[i - 1].ticker
    ensures var s, t := states[i - 1], states[i];
            t.log == s.log + [Begin(s.ticker.next, s.now)] && t.lane == Some(Lane(ByTicker, s.ticker.next, Running))
  {
    assert Follows(states, i);
  }

  /** Steps of the ticker alone lead from `s` to `t`. */
  ghost predicate SweepsTo(s: State, t: State, n: nat)
    decreases n
  {
    if n == 0 then t == s else exists u :: Sweeps(s, u) && SweepsTo(u, t, n - 1)
  }

  /** An idle ticker with the lane free can start the first job that is due, by itself. */
  lemma DueJobCanStart(s: State, j: nat) returns (t: State, n: nat)
    requires Sound(s) && s.ticker.Idle? && s.lane.None? && j < |s.every|
    requires s.due[j] <= s.now && forall k | 0 <= k < j :: s.now < s.due[k]
    ensures SweepsTo(s, t, n) && t.log == s.log + [Begin(j, s.now)] && t.lane == Some(Lane(ByTicker, j, Running))
  {
    var u := s.(ticker := Sweeping(s.now, 0));
    assert Sweeps(s, u);
    var m;
    t, m := SweepOn(u, 0, j);
    n := m + 1;
  }

  lemma {:induction false} SweepOn(s: State, k: nat, j: nat) returns (t: State, n: nat)
    requires s.ticker == Sweeping(s.now, k) && s.lane.None? && k <= j < |s.every| == |s.due|
    requires s.due[j] <= s.now && forall i | 0 <= i < j :: s.now < s.due[i]
    ensures SweepsTo(s, t, n) && t.log == s.log + [Begin(j, s.now)] && t.lane == Some(Lane(ByTicker, j, Running))
    decreases j - k
  {
    if k < j {
      var u := s.(ticker := Sweeping(s.now, k + 1));
      assert Sweeps(s, u);
      var m;
      t, m := SweepOn(u, k + 1, j);
      n := m + 1;
    } else {
      var u := s.(ticker := Checked(s.now, j));
      t := u.(ticker := Executing(s.now, j), lane := Some(Lane(ByTicker, j, Running)),
          log := s.log + [Begin(j, s.now)]);
      assert Sweeps(s, u) && Sweeps(u, t);
      assert SweepsTo(t, t, 0);
      assert SweepsTo(u, t, 1);
      n := 2;
    }
  }
}
