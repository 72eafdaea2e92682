/** What a trace verifier remembers while it scans, and what that amounts to. An event
    counts only through what it is; its text is looked at before. */
module Observations {
  import opened Counting

  /** What one decoded event is. `items` and `bar` are read off an answer's text. */
  datatype Seen = Seen(labelled: bool, notice: bool, started: bool, request: bool, proves: bool, renders: bool,
                       ended: bool, failed: bool, id: string, items: int, bar: string)

  /** Only labelled messages are notices and only started calls are requests. */
  predicate Regular(s: Seen) {
    (s.notice ==> s.labelled) && (s.request ==> s.started && !s.proves)
  }

  /** One labelled message, which is the expected notice; after it one call, which is
      the expected request; after it the last answer, which renders what was asked for;
      after it the end of the turn. */
  ghost predicate Witness(seen: seq<Seen>, items: int, bar: string, notice: int, call: int, answer: int, end: int) {
    && 0 <= notice < call < answer < end < |seen|
    && seen[notice].notice && seen[call].request && seen[end].ended
    && Answers(seen[answer], seen[call].id) && seen[answer].renders && seen[answer].items == items
        && seen[answer].bar == bar
    && forall m | 0 <= m < |seen| :: Bystander(seen, m, notice, call, answer)
  }

  /** An answer to the call with this id. */
  predicate Answers(s: Seen, id: string) {
    s.proves && s.id == id
  }

  /** Event `m` does not spoil the order. */
  predicate Bystander(seen: seq<Seen>, m: int, notice: int, call: int, answer: int)
    requires 0 <= call < |seen| && 0 <= m < |seen|
  {
    && (seen[m].labelled ==> m == notice) && (seen[m].started ==> m == call) && !seen[m].failed
    && (Answers(seen[m], seen[call].id) ==> m <= answer)
  }

  ghost predicate Accepted(seen: seq<Seen>, items: int, bar: string) {
    exists notice, call, answer, end :: Witness(seen, items, bar, notice, call, answer, end)
  }

  datatype Kind = Label | Notice | Start | Request | End | Failure

  predicate Is(s: Seen, kind: Kind) {
    match kind
    case Label => s.labelled
    case Notice => s.notice
    case Start => s.started
    case Request => s.request
    case End => s.ended
    case Failure => s.failed
  }

  /** How many events are of a kind. */
  function Count(seen: seq<Seen>, kind: Kind): nat {
    CountTrue(Flags(seen, kind))
  }

  function Flags(seen: seq<Seen>, kind: Kind): seq<bool> {
    seq(|seen|, i requires 0 <= i < |seen| => Is(seen[i], kind))
  }

  lemma CountNext(seen: seq<Seen>, s: Seen, kind: Kind)
    ensures Count(seen + [s], kind) == Count(seen, kind) + if Is(s, kind) then 1 else 0
  {
    assert Flags(seen + [s], kind) == Flags(seen, kind) + [Is(s, kind)];
    Counting.CountNext(Flags(seen, kind), Is(s, kind));
  }

  lemma CountPositive(seen: seq<Seen>, kind: Kind, i: nat)
    requires i < |seen| && Is(seen[i], kind)
    ensures Count(seen, kind) >= 1
  {
    Counting.CountPositive(Flags(seen, kind), i);
  }

  lemma CountOne(seen: seq<Seen>, kind: Kind, i: nat, j: nat)
    requires i < j < |seen| && Is(seen[i], kind) && Is(seen[j], kind)
    ensures Count(seen, kind) >= 2
  {
    CountTwo(Flags(seen, kind), i, j);
  }

  lemma CountLone(seen: seq<Seen>, kind: Kind, i: nat)
    requires i < |seen| && Is(seen[i], kind) && forall m | 0 <= m < |seen| && Is(seen[m], kind) :: m == i
    ensures Count(seen, kind) == 1
  {
    CountAtMost(Flags(seen, kind), i);
  }

  lemma CountNone(seen: seq<Seen>, kind: Kind)
    requires forall m | 0 <= m < |seen| :: !Is(seen[m], kind)
    ensures Count(seen, kind) == 0
  {
    Counting.CountNone(Flags(seen, kind));
  }

  /** `at` is the sequence number, counted from 1, of an event of this kind, or -1 when
      there is none. */
  ghost predicate Marked(seen: seq<Seen>, kind: Kind, at: int) {
    if at == -1 then Count(seen, kind) == 0 else 0 < at <= |seen| && Is(seen[at - 1], kind)
  }

  lemma MarkedNext(seen: seq<Seen>, s: Seen, kind: Kind, at: int)
    requires Marked(seen, kind, at)
    ensures (at != -1 || !Is(s, kind)) ==> Marked(seen + [s], kind, at)
    ensures Is(s, kind) ==> Marked(seen + [s], kind, |seen| + 1)
  {
    CountNext(seen, s, kind);
  }

  lemma PrefixNext(all: seq<Seen>, n: nat, s: Seen)
    requires n < |all| && all[n] == s
    ensures all[..n] + [s] == all[..n + 1]
  {
  }

  /** The turn endings seen so far. Places are sequence numbers, counted from 1. */
  datatype Turns = Turns(completed: int, failed: bool)

  /** The labelled messages seen so far and the first that is the expected notice. */
  datatype Notices = Notices(total: int, count: int, first: int)

  /** The started calls, the first that is the expected request, and its answers. */
  datatype Calls = Calls(total: int, count: int, first: int, id: string)

  datatype Answer = Answer(response: int, render: int, checklist: int, bar: string)

  ghost predicate TurnsOf(t: Turns, seen: seq<Seen>) {
    && Marked(seen, End, t.completed) && (forall i | 0 <= i < |seen| && seen[i].ended :: i < t.completed)
    && (t.failed <==> Count(seen, Failure) > 0)
  }

  ghost predicate NoticesOf(t: Notices, seen: seq<Seen>) {
    t.total == Count(seen, Label) && t.count == Count(seen, Notice) && Marked(seen, Notice, t.first)
  }

  ghost predicate CallsOf(t: Calls, seen: seq<Seen>) {
    && t.total == Count(seen, Start) && t.count == Count(seen, Request) && Marked(seen, Request, t.first)
    && (t.count == 1 && 0 < t.first ==> t.id == seen[t.first - 1].id)
    && (t.count == 0 ==> t.id == "")
  }

  /** The last answer, while only one request has been seen. */
  ghost predicate AnswerOf(a: Answer, t: Calls, seen: seq<Seen>)
    requires t.first <= |seen|
  {
    && (a.render == -1 || 0 < a.render) && -1 <= a.render <= a.response <= |seen|
    && (t.count == 1 && 0 < t.first ==> LastAnswer(seen, t.id, t.first, a.response))
    && (0 < a.response ==> (a.render == a.response <==> seen[a.response - 1].renders))
    && (0 < a.render ==> a.checklist == seen[a.render - 1].items && a.bar == seen[a.render - 1].bar)
  }

  /** The first lines of a round: the turn endings. */
  method NoteTurn(t: Turns, ghost seen: seq<Seen>, s: Seen, sequence: int) returns (r: Turns)
    requires TurnsOf(t, seen) && sequence == |seen| + 1
    ensures TurnsOf(r, seen + [s])
  {
    CountNext(seen, s, Failure);
    MarkedNext(seen, s, End, t.completed);
    r := t;
    if s.ended { r := r.(completed := sequence); }
    if s.failed { r := r.(failed := true); }
  }

  /** Then the labelled messages. */
  method NoteMessage(t: Notices, ghost seen: seq<Seen>, s: Seen, sequence: int) returns (r: Notices)
    requires NoticesOf(t, seen) && Regular(s) && sequence == |seen| + 1
    ensures NoticesOf(r, seen + [s])
  {
    CountNext(seen, s, Label);
    CountNext(seen, s, Notice);
    MarkedNext(seen, s, Notice, t.first);
    r := t;
    if s.labelled {
      r := r.(total := r.total + 1);
      if s.notice {
        r := r.(count := r.count + 1);
        if r.first < 0 { r := r.(first := sequence); }
      }
    }
  }

  /** Then the started calls. */
  method NoteCall(t: Calls, ghost seen: seq<Seen>, s: Seen, sequence: int) returns (r: Calls)
    requires CallsOf(t, seen) && Regular(s) && sequence == |seen| + 1
    ensures CallsOf(r, seen + [s])
    ensures if s.request then r.count != 1 || r.first == sequence else r == t.(total := r.total)
    ensures r.id == if s.request then s.id else t.id
  {
    CountNext(seen, s, Start);
    CountNext(seen, s, Request);
    MarkedNext(seen, s, Request, t.first);
    if t.first != -1 { CountPositive(seen, Request, t.first - 1); }
    r := t;
    if s.started {
      r := r.(total := r.total + 1);
      if s.request {
        r := r.(count := r.count + 1, id := s.id);
        if r.first < 0 { r := r.(first := sequence); }
      }
    }
  }

  /** Then the answers to the last request. */
  method NoteAnswer(a: Answer, ghost was: Calls, t: Calls, ghost seen: seq<Seen>, s: Seen, sequence: int)
      returns (r: Answer)
    requires sequence == |seen| + 1 && Regular(s) && was.first <= |seen| && t.first <= sequence
    requires AnswerOf(a, was, seen)
    requires if s.request then t.count != 1 || t.first == sequence else t == was.(total := t.total)
    ensures AnswerOf(r, t, seen + [s])
  {
    r := a;
    if s.id == t.id && s.proves {
      r := r.(response := sequence);
      if s.renders { r := Answer(sequence, sequence, s.items, s.bar); }
    }
  }

  /** A whole scan. */
  datatype Scan = Scan(turns: Turns, notices: Notices, calls: Calls, answer: Answer)

  const START := Scan(Turns(-1, false), Notices(0, 0, -1), Calls(0, 0, -1, ""), Answer(-1, -1, 0, ""))

  ghost predicate Scanned(o: Scan, seen: seq<Seen>) {
    TurnsOf(o.turns, seen) && NoticesOf(o.notices, seen) && CallsOf(o.calls, seen) && AnswerOf(o.answer, o.calls, seen)
  }

  /** One round of the loop. */
  method Note(o: Scan, ghost seen: seq<Seen>, s: Seen, sequence: int) returns (r: Scan)
    requires Scanned(o, seen) && Regular(s) && sequence == |seen| + 1
    ensures Scanned(r, seen + [s])
  {
    var turns := NoteTurn(o.turns, seen, s, sequence);
    var notices := NoteMessage(o.notices, seen, s, sequence);
    var calls := NoteCall(o.calls, seen, s, sequence);
    var answer := NoteAnswer(o.answer, o.calls, calls, seen, s, sequence);
    return Scan(turns, notices, calls, answer);
  }

  /** The checks after the loop. */
  predicate Verdict(o: Scan, items: int, expected: string) {
    && o.notices.count == 1 && o.calls.count == 1 && o.notices.total == 1 && o.calls.total == 1
    && 0 <= o.notices.first < o.calls.first < o.answer.response <= o.answer.render < o.turns.completed
        && !o.turns.failed
    && o.answer.checklist == items && o.answer.bar == expected
  }

  /** Counted and placed as the source does, a scan accepts exactly the streams with such
      an order. */
  lemma VerdictIsAcceptance(o: Scan, seen: seq<Seen>, items: int, bar: string)
    requires Scanned(o, seen)
    requires forall i | 0 <= i < |seen| :: Regular(seen[i])
    ensures Verdict(o, items, bar) <==> Accepted(seen, items, bar)
  {
    if Verdict(o, items, bar) { VerdictAccepts(o, seen, items, bar); }
    if notice, call, answer, end :| Witness(seen, items, bar, notice, call, answer, end) {
      WitnessAccepted(o, seen, items, bar, notice, call, answer, end);
    }
  }

  lemma VerdictAccepts(o: Scan, seen: seq<Seen>, items: int, bar: string)
    requires Scanned(o, seen)
    requires forall i | 0 <= i < |seen| :: Regular(seen[i])
    requires Verdict(o, items, bar)
    ensures Accepted(seen, items, bar)
  {
    var notice, call, answer := o.notices.first - 1, o.calls.first - 1, o.answer.response - 1;
    forall m | 0 <= m < |seen| ensures Bystander(seen, m, notice, call, answer) {
      if seen[m].failed { CountPositive(seen, Failure, m); }
      if seen[m].labelled && m < notice { CountOne(seen, Label, m, notice); }
      if seen[m].labelled && notice < m { CountOne(seen, Label, notice, m); }
      if seen[m].started && m < call { CountOne(seen, Start, m, call); }
      if seen[m].started && call < m { CountOne(seen, Start, call, m); }
    }
    assert Witness(seen, items, bar, notice, call, answer, o.turns.completed - 1);
  }

  lemma WitnessAccepted(o: Scan, seen: seq<Seen>, items: int, bar: string, notice: int, call: int, answer: int,
                        end: int)
    requires Scanned(o, seen)
    requires forall i | 0 <= i < |seen| :: Regular(seen[i])
    requires Witness(seen, items, bar, notice, call, answer, end)
    ensures Verdict(o, items, bar)
  {
    forall m | 0 <= m < |seen|
      ensures (Is(seen[m], Label) ==> m == notice) && (Is(seen[m], Start) ==> m == call) && !Is(seen[m], Failure)
      ensures (seen[m].notice ==> m == notice) && (seen[m].request ==> m == call)
          && (Answers(seen[m], seen[call].id) ==> m <= answer)
    {
      assert Bystander(seen, m, notice, call, answer) && Regular(seen[m]);
    }
    CountLone(seen, Label, notice);
    CountLone(seen, Notice, notice);
    CountLone(seen, Start, call);
    CountLone(seen, Request, call);
    CountNone(seen, Failure);
  }

  /** The loop over a whole stream. */
  method ScanAll(all: seq<Seen>) returns (o: Scan)
    requires forall i | 0 <= i < |all| :: Regular(all[i])
    ensures Scanned(o, all)
  {
    o := START;
    for n := 0 to |all|
      invariant Scanned(o, all[..n])
    {
      PrefixNext(all, n, all[n]);
      o := Note(o, all[..n], all[n], n + 1);
    }
    assert all[..|all|] == all;
  }

  /** The scan of a whole stream. */
  method Judge(all: seq<Seen>, items: int, bar: string) returns (ok: bool)
    requires forall i | 0 <= i < |all| :: Regular(all[i])
    ensures ok <==> Accepted(all, items, bar)
  {
    var o := ScanAll(all);
    VerdictIsAcceptance(o, all, items, bar);
    ok := Verdict(o, items, bar);
  }

  /** No answer to the request comes after `response`, and `response` is one if it comes
      after the request. */
  ghost predicate LastAnswer(seen: seq<Seen>, id: string, request: int, response: int)
    requires 0 < request <= |seen| && response <= |seen|
  {
    && (response > request ==> Answers(seen[response - 1], id))
    && (forall m | request <= m < |seen| && Answers(seen[m], id) :: m < response)
  }

  /** An event that no witness can be and that spoils nothing. */
  predicate Idle(s: Seen) {
    !s.labelled && !s.notice && !s.started && !s.request && !s.proves && !s.ended && !s.failed
  }

  /** Where event `i` goes when one is inserted at `p`. */
  function Shifted(i: int, p: int): int { if i < p then i else i + 1 }

  lemma WitnessShifts(front: seq<Seen>, s: Seen, rest: seq<Seen>, items: int, bar: string, notice: int, call: int,
                      answer: int, end: int)
    requires Idle(s) && Witness(front + rest, items, bar, notice, call, answer, end)
    ensures var p := |front|;
            Witness(front + [s] + rest, items, bar, Shifted(notice, p), Shifted(call, p), Shifted(answer, p),
                Shifted(end, p))
  {
    var p, short, long := |front|, front + rest, front + [s] + rest;
    assert forall m | 0 <= m < |short| :: long[Shifted(m, p)] == short[m];
    forall m | 0 <= m < |long|
      ensures Bystander(long, m, Shifted(notice, p), Shifted(call, p), Shifted(answer, p))
    {
      if m < p { assert Bystander(short, m, notice, call, answer); }
      else if m > p { assert Bystander(short, m - 1, notice, call, answer) && long[m] == short[m - 1]; }
    }
  }

  function Unshifted(i: int, p: int): int { if i < p then i else i - 1 }

  lemma WitnessUnshifts(front: seq<Seen>, s: Seen, rest: seq<Seen>, items: int, bar: string, notice: int, call: int,
                        answer: int, end: int)
    requires Idle(s) && Witness(front + [s] + rest, items, bar, notice, call, answer, end)
    ensures var p := |front|;
            Witness(front + rest, items, bar, Unshifted(notice, p), Unshifted(call, p), Unshifted(answer, p),
                Unshifted(end, p))
  {
    var p, short, long := |front|, front + rest, front + [s] + rest;
    assert long[p] == s;
    assert forall m | 0 <= m < |short| :: short[m] == long[Shifted(m, p)];
    forall m | 0 <= m < |short|
      ensures Bystander(short, m, Unshifted(notice, p), Unshifted(call, p), Unshifted(answer, p))
    {
      assert Bystander(long, Shifted(m, p), notice, call, answer);
    }
  }

  lemma SkipIdle(front: seq<Seen>, s: Seen, rest: seq<Seen>, items: int, bar: string)
    requires Idle(s)
    ensures Accepted(front + [s] + rest, items, bar) <==> Accepted(front + rest, items, bar)
  {
    if notice, call, answer, end :| Witness(front + rest, items, bar, notice, call, answer, end) {
      WitnessShifts(front, s, rest, items, bar, notice, call, answer, end);
    }
    if notice, call, answer, end :| Witness(front + [s] + rest, items, bar, notice, call, answer, end) {
      WitnessUnshifts(front, s, rest, items, bar, notice, call, answer, end);
    }
  }
}
