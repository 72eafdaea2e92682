/** The verdict over the event stream of the reconnecting CLI run: the result is shown
    once, and nothing that was delivered before is shown again. */
module CliReconnect {
  import opened Counting
  import opened Observations

  /** `base.proves` is a result with an identifier of its own; `shows` is a message that
      quotes the proof, `replays` one that repeats the checklist or the activity. */
  datatype Reading = Reading(base: Seen, shows: bool, replays: bool)

  predicate Proper(r: Reading) {
    Regular(r.base) && (r.shows ==> !r.base.proves && !r.base.request)
  }

  function Bases(rs: seq<Reading>): seq<Seen> {
    seq(|rs|, i requires 0 <= i < |rs| => rs[i].base)
  }

  /** One labelled message, then one call, then the only answer, with no message quoting
      the proof before it and none repeating anything, then the end of the turn. */
  ghost predicate Witness(rs: seq<Reading>, notice: int, call: int, answer: int, end: int) {
    && 0 <= notice < call < answer < end < |rs|
    && rs[notice].base.notice && rs[call].base.request && rs[end].base.ended
        && Answers(rs[answer].base, rs[call].base.id)
    && forall m | 0 <= m < |rs| :: Bystander(rs, m, notice, call, answer)
  }

  /** Before the call, an answer without a call is one with an empty identifier. */
  predicate Bystander(rs: seq<Reading>, m: int, notice: int, call: int, answer: int)
    requires 0 <= call < |rs| && 0 <= m < |rs|
  {
    && (rs[m].base.labelled ==> m == notice) && (rs[m].base.started ==> m == call)
    && !rs[m].base.failed && !rs[m].replays && (rs[m].shows ==> m > answer)
    && (Answers(rs[m].base, if m <= call then "" else rs[call].base.id) ==> m == answer)
  }

  ghost predicate Accepted(rs: seq<Reading>) {
    exists notice, call, answer, end :: Witness(rs, notice, call, answer, end)
  }

  /** The identifier that answers are matched with after these events. */
  function Tool(rs: seq<Reading>): string {
    if |rs| == 0 then "" else if rs[|rs| - 1].base.request then rs[|rs| - 1].base.id else Tool(rs[..|rs| - 1])
  }

  function AnswerFlags(rs: seq<Reading>): seq<bool> {
    seq(|rs|, m requires 0 <= m < |rs| => Answers(rs[m].base, Tool(rs[..m])))
  }

  function Answered(rs: seq<Reading>): nat {
    CountTrue(AnswerFlags(rs))
  }

  /** The proof was quoted before any answer. */
  predicate Early(rs: seq<Reading>) {
    |rs| > 0 && (Early(rs[..|rs| - 1]) || (rs[|rs| - 1].shows && Answered(rs[..|rs| - 1]) == 0))
  }

  lemma FlagsNext(rs: seq<Reading>, r: Reading)
    ensures AnswerFlags(rs + [r]) == AnswerFlags(rs) + [Answers(r.base, Tool(rs))]
    ensures Answered(rs + [r]) == Answered(rs) + if Answers(r.base, Tool(rs)) then 1 else 0
  {
    var next := rs + [r];
    assert next[..|rs|] == rs;
    forall m | 0 <= m < |rs| ensures AnswerFlags(next)[m] == AnswerFlags(rs)[m] { assert next[..m] == rs[..m]; }
    assert AnswerFlags(next) == AnswerFlags(rs) + [Answers(r.base, Tool(rs))];
    Counting.CountNext(AnswerFlags(rs), Answers(r.base, Tool(rs)));
  }

  lemma EarlyNext(rs: seq<Reading>, r: Reading)
    ensures Early(rs + [r]) <==> Early(rs) || (r.shows && Answered(rs) == 0)
    ensures Tool(rs + [r]) == if r.base.request then r.base.id else Tool(rs)
  {
    assert (rs + [r])[..|rs|] == rs;
  }

  datatype Rendering = Rendering(completed: nat, rendered: nat, response: int, render: int, replayed: bool)

  predicate Replayed(rs: seq<Reading>) {
    exists m | 0 <= m < |rs| :: rs[m].replays
  }

  ghost predicate RenderingOf(a: Rendering, rs: seq<Reading>) {
    && a.completed == Answered(rs) && a.rendered == a.completed + (if Early(rs) then 1 else 0)
    && (a.completed > 0 ==> 0 < a.response <= |rs| && AnswerFlags(rs)[a.response - 1])
    && (a.completed > 0 && !Early(rs) ==> a.render == a.response)
    && (a.replayed <==> Replayed(rs))
  }

  /** The lines of a round that look at answers and quotations. */
  method NoteRendering(a: Rendering, id: string, ghost rs: seq<Reading>, r: Reading, sequence: int)
      returns (n: Rendering)
    requires RenderingOf(a, rs) && Proper(r) && sequence == |rs| + 1 && id == Tool(rs + [r])
    ensures RenderingOf(n, rs + [r])
  {
    FlagsNext(rs, r);
    EarlyNext(rs, r);
    ReplayedNext(rs, r);
    n := a;
    if r.replays { n := n.(replayed := true); }
    if r.base.proves && r.base.id == id {
      n := n.(completed := n.completed + 1, response := sequence, rendered := n.rendered + 1, render := sequence);
    }
    if r.shows && n.rendered == 0 { n := n.(rendered := n.rendered + 1, render := sequence); }
  }

  lemma ReplayedNext(rs: seq<Reading>, r: Reading)
    ensures Replayed(rs + [r]) <==> Replayed(rs) || r.replays
  {
    var next := rs + [r];
    if Replayed(rs) {
      var m :| 0 <= m < |rs| && rs[m].replays;
      assert next[m].replays;
    }
    if r.replays { assert next[|rs|].replays; }
  }

  datatype Rescan = Rescan(turns: Turns, notices: Notices, calls: Calls, rendering: Rendering)

  ghost predicate Scanned(o: Rescan, rs: seq<Reading>) {
    && TurnsOf(o.turns, Bases(rs)) && NoticesOf(o.notices, Bases(rs)) && CallsOf(o.calls, Bases(rs))
    && o.calls.id == Tool(rs) && RenderingOf(o.rendering, rs)
  }

  predicate Verdict(o: Rescan) {
    && o.notices.count == 1 && o.calls.count == 1 && o.rendering.completed == 1 && o.rendering.rendered == 1
    && o.notices.total == 1 && o.calls.total == 1 && !o.rendering.replayed
    && 0 <= o.notices.first < o.calls.first < o.rendering.response <= o.rendering.render < o.turns.completed
        && !o.turns.failed
  }

  const START := Rescan(Turns(-1, false), Notices(0, 0, -1), Calls(0, 0, -1, ""), Rendering(0, 0, -1, -1, false))

  /** One round of the loop. */
  method Note(o: Rescan, ghost rs: seq<Reading>, r: Reading, sequence: int) returns (n: Rescan)
    requires Scanned(o, rs) && Proper(r) && sequence == |rs| + 1
    ensures Scanned(n, rs + [r])
  {
    assert Bases(rs + [r]) == Bases(rs) + [r.base];
    EarlyNext(rs, r);
    var turns := NoteTurn(o.turns, Bases(rs), r.base, sequence);
    var notices := NoteMessage(o.notices, Bases(rs), r.base, sequence);
    var calls := NoteCall(o.calls, Bases(rs), r.base, sequence);
    var rendering := NoteRendering(o.rendering, calls.id, rs, r, sequence);
    return Rescan(turns, notices, calls, rendering);
  }

  /** With one request, answers are matched with it from there on, and with nothing
      before it. */
  lemma {:induction false} ToolIs(rs: seq<Reading>, call: nat)
    requires call < |rs| ==> rs[call].base.request
    requires forall m | 0 <= m < |rs| && rs[m].base.request :: m == call
    ensures Tool(rs) == if call < |rs| then rs[call].base.id else ""
    decreases |rs|
  {
    if |rs| > 0 && call != |rs| - 1 { ToolIs(rs[..|rs| - 1], call); }
  }

  lemma FlagIs(rs: seq<Reading>, call: nat, m: nat)
    requires call < |rs| && rs[call].base.request && m < |rs|
    requires forall k | 0 <= k < |rs| && rs[k].base.request :: k == call
    ensures AnswerFlags(rs)[m] <==> Answers(rs[m].base, if m <= call then "" else rs[call].base.id)
  {
    ToolIs(rs[..m], call);
  }

  predicate ShownBefore(rs: seq<Reading>, k: nat)
    requires k <= |rs|
  {
    exists m | 0 <= m < k :: rs[m].shows
  }

  lemma {:induction false} EarlyIs(rs: seq<Reading>, answer: nat)
    requires answer < |rs| && AnswerFlags(rs)[answer] && forall m | 0 <= m < |rs| && AnswerFlags(rs)[m] :: m == answer
    requires Proper(rs[answer])
    ensures Early(rs) <==> ShownBefore(rs, answer)
    decreases |rs|
  {
    var n := |rs| - 1;
    var front := rs[..n];
    FrontFlags(rs);
    if answer < n {
      EarlyIs(front, answer);
      Counting.CountPositive(AnswerFlags(front), answer);
      SameBefore(rs, front, answer);
    } else {
      EarlyNone(front);
      SameBefore(rs, front, answer);
    }
  }

  lemma SameBefore(rs: seq<Reading>, front: seq<Reading>, k: nat)
    requires k <= |front| && front <= rs
    ensures ShownBefore(rs, k) <==> ShownBefore(front, k)
  {
    assert forall m | 0 <= m < k :: front[m] == rs[m];
  }

  lemma FrontFlags(rs: seq<Reading>)
    requires |rs| > 0
    ensures AnswerFlags(rs[..|rs| - 1]) == AnswerFlags(rs)[..|rs| - 1]
  {
    var front := rs[..|rs| - 1];
    forall m | 0 <= m < |front| ensures AnswerFlags(front)[m] == AnswerFlags(rs)[m] { assert front[..m] == rs[..m]; }
  }

  lemma {:induction false} EarlyNone(rs: seq<Reading>)
    requires forall m | 0 <= m < |rs| :: !AnswerFlags(rs)[m]
    ensures Early(rs) <==> ShownBefore(rs, |rs|)
    decreases |rs|
  {
    if |rs| > 0 {
      var front := rs[..|rs| - 1];
      FrontFlags(rs);
      EarlyNone(front);
      Counting.CountNone(AnswerFlags(front));
      SameBefore(rs, front, |front|);
    }
  }

  /** Counted and placed as the source does, a scan accepts exactly the streams with such
      an order. */
  lemma VerdictIsAcceptance(o: Rescan, rs: seq<Reading>)
    requires Scanned(o, rs) && forall m | 0 <= m < |rs| :: Proper(rs[m])
    ensures Verdict(o) <==> Accepted(rs)
  {
    if Verdict(o) { VerdictAccepts(o.turns, o.notices, o.calls, o.rendering, rs); }
    if notice, call, answer, end :| Witness(rs, notice, call, answer, end) {
      WitnessAccepted(o, rs, notice, call, answer, end);
    }
  }

  /** One label, one call, no failure. */
  ghost predicate Ordered(rs: seq<Reading>, notice: int, call: int) {
    forall m | 0 <= m < |rs| ::
      && (rs[m].base.labelled ==> m == notice) && (rs[m].base.started ==> m == call) && !rs[m].base.failed
      && (rs[m].base.request ==> m == call) && (rs[m].base.notice ==> m == notice)
  }

  /** One answer to that call, nothing quoted before it and nothing repeated. */
  ghost predicate Rendered(rs: seq<Reading>, call: int, answer: int)
    requires 0 <= call < |rs|
  {
    forall m | 0 <= m < |rs| ::
      && !rs[m].replays && (rs[m].shows ==> m > answer)
      && (Answers(rs[m].base, if m <= call then "" else rs[call].base.id) <==> m == answer)
  }

  lemma WitnessParts(rs: seq<Reading>, notice: int, call: int, answer: int, end: int)
    requires forall m | 0 <= m < |rs| :: Proper(rs[m])
    ensures Witness(rs, notice, call, answer, end) <==>
            && 0 <= notice < call < answer < end < |rs| && rs[notice].base.notice && rs[call].base.request
                && rs[end].base.ended
            && Ordered(rs, notice, call) && Rendered(rs, call, answer)
  {
    if 0 <= notice < call < answer < end < |rs| {
      if Witness(rs, notice, call, answer, end) {
        forall m | 0 <= m < |rs| ensures Bystander(rs, m, notice, call, answer) && Proper(rs[m]) {}
      }
      if Ordered(rs, notice, call) && Rendered(rs, call, answer) {
        forall m | 0 <= m < |rs| ensures Bystander(rs, m, notice, call, answer) {}
      }
    }
  }

  /** The label, the call and the end of the turn where the scan has placed them. */
  ghost predicate PlacedAt(rs: seq<Reading>, notice: int, call: int, end: int) {
    && 0 <= notice < call < end < |rs| && rs[notice].base.notice && rs[call].base.request && rs[end].base.ended
    && Count(Bases(rs), Label) == 1 && Count(Bases(rs), Start) == 1 && Count(Bases(rs), Failure) == 0
  }

  /** One answer, nothing quoted before it and nothing repeated. */
  ghost predicate OneAnswer(rs: seq<Reading>, answer: int) {
    && 0 <= answer < |rs| && AnswerFlags(rs)[answer] && !Early(rs) && !Replayed(rs)
    && forall m | 0 <= m < |rs| && AnswerFlags(rs)[m] :: m == answer
  }

  lemma VerdictAccepts(turns: Turns, notices: Notices, calls: Calls, a: Rendering, rs: seq<Reading>)
    requires TurnsOf(turns, Bases(rs)) && NoticesOf(notices, Bases(rs)) && CallsOf(calls, Bases(rs))
    requires RenderingOf(a, rs) && AllProper(rs)
    requires notices.total == 1 && calls.total == 1 && !turns.failed
    requires a.completed == 1 && a.rendered == 1 && !a.replayed
    requires 0 <= notices.first < calls.first < a.response < turns.completed
    ensures Accepted(rs)
  {
    VerdictPlaced(turns, notices, calls, rs);
    AnsweredAccepts(a, rs, notices.first - 1, calls.first - 1, turns.completed - 1);
  }

  ghost predicate AllProper(rs: seq<Reading>) {
    forall m | 0 <= m < |rs| :: Proper(rs[m])
  }

  lemma AnsweredAccepts(a: Rendering, rs: seq<Reading>, notice: int, call: int, end: int)
    requires AllProper(rs)
    requires PlacedAt(rs, notice, call, end) && call < a.response - 1 < end
    requires RenderingOf(a, rs) && a.completed == 1 && a.rendered == 1 && !a.replayed
    ensures Accepted(rs)
  {
    VerdictAnswer(a, rs);
    PlacedAccepts(rs, notice, call, a.response - 1, end);
  }

  lemma VerdictPlaced(turns: Turns, notices: Notices, calls: Calls, rs: seq<Reading>)
    requires TurnsOf(turns, Bases(rs)) && NoticesOf(notices, Bases(rs)) && CallsOf(calls, Bases(rs))
    requires notices.total == 1 && calls.total == 1 && !turns.failed
        && 0 <= notices.first < calls.first < turns.completed
    ensures PlacedAt(rs, notices.first - 1, calls.first - 1, turns.completed - 1)
  {
  }

  lemma VerdictAnswer(a: Rendering, rs: seq<Reading>)
    requires RenderingOf(a, rs) && a.completed == 1 && a.rendered == 1 && !a.replayed
    ensures OneAnswer(rs, a.response - 1)
  {
    var answer := a.response - 1;
    forall m | 0 <= m < |rs| && AnswerFlags(rs)[m] ensures m == answer {
      if m < answer { CountTwo(AnswerFlags(rs), m, answer); }
      if answer < m { CountTwo(AnswerFlags(rs), answer, m); }
    }
  }

  lemma PlacedAccepts(rs: seq<Reading>, notice: int, call: int, answer: int, end: int)
    requires AllProper(rs)
    requires PlacedAt(rs, notice, call, end) && OneAnswer(rs, answer) && call < answer < end
    ensures Accepted(rs)
  {
    CountedOrdered(rs, notice, call);
    CountedRendered(rs, notice, call, answer);
    Assembled(rs, notice, call, answer, end);
  }

  lemma Assembled(rs: seq<Reading>, notice: int, call: int, answer: int, end: int)
    requires forall m | 0 <= m < |rs| :: Proper(rs[m])
    requires 0 <= notice < call < answer < end < |rs| && rs[notice].base.notice && rs[call].base.request
        && rs[end].base.ended
    requires Ordered(rs, notice, call) && Rendered(rs, call, answer)
    ensures Accepted(rs)
  {
    WitnessParts(rs, notice, call, answer, end);
  }

  lemma CountedOrdered(rs: seq<Reading>, notice: nat, call: nat)
    requires forall m | 0 <= m < |rs| :: Proper(rs[m])
    requires notice < |rs| && call < |rs| && rs[notice].base.notice && rs[call].base.request
    requires Count(Bases(rs), Label) == 1 && Count(Bases(rs), Start) == 1 && Count(Bases(rs), Failure) == 0
    ensures Ordered(rs, notice, call)
  {
    assert Proper(rs[notice]) && Proper(rs[call]);
    forall m | 0 <= m < |rs|
      ensures (rs[m].base.labelled ==> m == notice) && (rs[m].base.started ==> m == call) && !rs[m].base.failed
      ensures (rs[m].base.request ==> m == call) && (rs[m].base.notice ==> m == notice)
    {
      OnlyMarks(Bases(rs), notice, call, m);
      assert Proper(rs[m]);
    }
  }

  lemma CountedRendered(rs: seq<Reading>, notice: int, call: nat, answer: nat)
    requires forall m | 0 <= m < |rs| :: Proper(rs[m])
    requires OneAnswer(rs, answer) && call < |rs| && rs[call].base.request && Ordered(rs, notice, call)
    ensures Rendered(rs, call, answer)
  {
    EarlyIs(rs, answer);
    forall m | 0 <= m < |rs|
      ensures !rs[m].replays && (rs[m].shows ==> m > answer)
      ensures Answers(rs[m].base, if m <= call then "" else rs[call].base.id) <==> m == answer
    {
      FlagIs(rs, call, m);
      assert Proper(rs[m]);
    }
  }

  /** And conversely. */
  lemma RenderedCounts(a: Rendering, rs: seq<Reading>, notice: int, call: nat, answer: nat)
    requires RenderingOf(a, rs) && forall m | 0 <= m < |rs| :: Proper(rs[m])
    requires call < answer < |rs| && rs[call].base.request && Ordered(rs, notice, call) && Rendered(rs, call, answer)
    ensures a.completed == 1 && a.rendered == 1 && !a.replayed && a.response == a.render == answer + 1
  {
    forall m | 0 <= m < |rs| ensures AnswerFlags(rs)[m] <==> m == answer { FlagIs(rs, call, m); }
    CountAtMost(AnswerFlags(rs), answer);
    EarlyIs(rs, answer);
  }

  lemma OnlyMarks(seen: seq<Seen>, notice: nat, call: nat, m: nat)
    requires notice < |seen| && call < |seen| && m < |seen| && Is(seen[notice], Label) && Is(seen[call], Start)
    requires Count(seen, Label) == 1 && Count(seen, Start) == 1 && Count(seen, Failure) == 0
    ensures (seen[m].labelled ==> m == notice) && (seen[m].started ==> m == call) && !seen[m].failed
  {
    if seen[m].failed { Observations.CountPositive(seen, Failure, m); }
    if seen[m].labelled && m < notice { CountOne(seen, Label, m, notice); }
    if seen[m].labelled && notice < m { CountOne(seen, Label, notice, m); }
    if seen[m].started && m < call { CountOne(seen, Start, m, call); }
    if seen[m].started && call < m { CountOne(seen, Start, call, m); }
  }

  lemma WitnessAccepted(o: Rescan, rs: seq<Reading>, notice: int, call: int, answer: int, end: int)
    requires Scanned(o, rs) && (forall m | 0 <= m < |rs| :: Proper(rs[m])) && Witness(rs, notice, call, answer, end)
    ensures Verdict(o)
  {
    WitnessParts(rs, notice, call, answer, end);
    assert o.notices.first == notice + 1 && o.calls.first == call + 1
        && Counted(o) by { OrderedCounts(o, rs, notice, call); }
    assert end < o.turns.completed by { EndsLater(o, rs, end); }
    RenderedCounts(o.rendering, rs, notice, call, answer);
  }

  lemma EndsLater(o: Rescan, rs: seq<Reading>, end: nat)
    requires Scanned(o, rs) && end < |rs| && rs[end].base.ended
    ensures end < o.turns.completed
  {
    assert Bases(rs)[end].ended;
  }

  predicate Counted(o: Rescan) {
    o.notices.count == 1 && o.calls.count == 1 && o.notices.total == 1 && o.calls.total == 1 && !o.turns.failed
  }

  lemma OrderedCounts(o: Rescan, rs: seq<Reading>, notice: nat, call: nat)
    requires Scanned(o, rs) && (forall m | 0 <= m < |rs| :: Proper(rs[m])) && Ordered(rs, notice, call)
    requires notice < |rs| && call < |rs| && rs[notice].base.notice && rs[call].base.request
    ensures o.notices.first == notice + 1 && o.calls.first == call + 1 && Counted(o)
  {
    var seen := Bases(rs);
    assert Proper(rs[notice]) && Proper(rs[call]);
    CountLone(seen, Label, notice);
    CountLone(seen, Notice, notice);
    CountLone(seen, Start, call);
    CountLone(seen, Request, call);
    Observations.CountNone(seen, Failure);
  }

  lemma OneFurther(all: seq<Reading>, n: nat, r: Reading)
    requires n < |all| && r == all[n]
    ensures all[..n] + [r] == all[..n + 1]
  {
  }

  /** The loop over a whole stream. */
  method ScanAll(all: seq<Reading>) returns (o: Rescan)
    requires forall m | 0 <= m < |all| :: Proper(all[m])
    ensures Scanned(o, all)
  {
    o := START;
    for n := 0 to |all|
      invariant Scanned(o, all[..n])
    {
      OneFurther(all, n, all[n]);
      o := Note(o, all[..n], all[n], n + 1);
    }
    assert all[..|all|] == all;
  }

  /** The scan of a whole stream. */
  method Judge(all: seq<Reading>) returns (ok: bool)
    requires forall m | 0 <= m < |all| :: Proper(all[m])
    ensures ok <==> Accepted(all)
  {
    var o := ScanAll(all);
    VerdictIsAcceptance(o, all);
    ok := Verdict(o);
  }

  /** An event that no witness can be and that spoils nothing. */
  predicate Inert(r: Reading) {
    Idle(r.base) && !r.shows && !r.replays
  }

  lemma WitnessShifts(front: seq<Reading>, r: Reading, rest: seq<Reading>, notice: int, call: int, answer: int,
                      end: int)
    requires Inert(r) && Witness(front + rest, notice, call, answer, end)
    ensures var p := |front|;
            Witness(front + [r] + rest, Shifted(notice, p), Shifted(call, p), Shifted(answer, p), Shifted(end, p))
  {
    var p, short, long := |front|, front + rest, front + [r] + rest;
    assert forall m | 0 <= m < |short| :: long[Shifted(m, p)] == short[m];
    forall m | 0 <= m < |long| ensures Bystander(long, m, Shifted(notice, p), Shifted(call, p), Shifted(answer, p)) {
      if m < p { assert Bystander(short, m, notice, call, answer); }
      else if m > p { assert Bystander(short, m - 1, notice, call, answer) && long[m] == short[m - 1]; }
    }
  }

  lemma WitnessUnshifts(front: seq<Reading>, r: Reading, rest: seq<Reading>, notice: int, call: int, answer: int,
                        end: int)
    requires Inert(r) && Witness(front + [r] + rest, notice, call, answer, end)
    ensures var p := |front|;
            Witness(front + rest, Unshifted(notice, p), Unshifted(call, p), Unshifted(answer, p), Unshifted(end, p))
  {
    var p, short, long := |front|, front + rest, front + [r] + rest;
    assert long[p] == r;
    assert forall m | 0 <= m < |short| :: short[m] == long[Shifted(m, p)];
    forall m | 0 <= m < |short|
        ensures Bystander(short, m, Unshifted(notice, p), Unshifted(call, p), Unshifted(answer, p)) {
      assert Bystander(long, Shifted(m, p), notice, call, answer);
    }
  }

  lemma SkipInert(front: seq<Reading>, r: Reading, rest: seq<Reading>)
    requires Inert(r)
    ensures Accepted(front + [r] + rest) <==> Accepted(front + rest)
  {
    if notice, call, answer, end :| Witness(front + rest, notice, call, answer, end) {
      WitnessShifts(front, r, rest, notice, call, answer, end);
    }
    if notice, call, answer, end :| Witness(front + [r] + rest, notice, call, answer, end) {
      WitnessUnshifts(front, r, rest, notice, call, answer, end);
    }
  }
}
