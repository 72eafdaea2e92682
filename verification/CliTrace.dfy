/** The verdict over the event stream of a Codex CLI run. */
module CliTrace {
  import opened Options
  import opened Observations
  import opened Text

  datatype Arg = Number(number: real) | Word(word: string) | OtherArg

  /** A decoded event. A field that is missing or not a string is empty; `arguments` are
      those of a call, decoded once more when they came as text; `result` is the text of
      a result, `failed` its error flag. */
  datatype Event = Event(eventType: string, itemType: string, id: Option<string>, text: string, server: string,
      tool: string, status: string, arguments: Option<map<string, Arg>>, failed: bool, result: string)

  datatype Challenge = Challenge(nonce: string, runID: string, workflowID: string, invocationID: string,
                                 resultProof: string, checklistCount: int)

  const LABEL := "ATENEA ·"
  const ACTIVITY := "activity=completed"
  const CHECKLIST := "- [x] **P30.** Certificación Codex"
  const PROGRESS := "**Progreso:** `" + "████████████████████" + "` 100 % · 1/1 puntos completados"
  const BAR := "████████████████████"

  predicate Labelled(e: Event) {
    e.eventType == "item.completed" && e.itemType == "agent_message" && Contains(e.text, LABEL)
  }

  predicate Notice(e: Event, c: Challenge) {
    Labelled(e) && TrimSpace(e.text) ==
      "**ATENEA · catalog.repositories** — " + "consulto " + c.invocationID + " para verificar actividad y progreso."
  }

  predicate Started(e: Event) {
    e.eventType == "item.started" && e.itemType == "mcp_tool_call"
  }

  predicate MatchingArguments(e: Event, c: Challenge, cursor: real) {
    && e.arguments.Some?
    && var args := e.arguments.value;
       && "after_cursor" in args && args["after_cursor"] == Number(cursor)
       && "nonce" in args && args["nonce"] == Word(c.nonce)
       && "run_id" in args && args["run_id"] == Word(c.runID)
       && "workflow_id" in args && args["workflow_id"] == Word(c.workflowID)
       && "invocation_id" in args && args["invocation_id"] == Word(c.invocationID)
  }

  predicate Request(e: Event, c: Challenge) {
    Started(e) && e.server == "atenea" && e.tool == "catalog.repositories" && MatchingArguments(e, c, 0.0)
  }

  predicate Finished(e: Event) {
    e.eventType == "item.completed" && e.itemType == "mcp_tool_call"
  }

  /** A result that speaks for this challenge, whichever call it belongs to. */
  predicate Proves(e: Event, c: Challenge) {
    && Finished(e) && e.status == "completed" && !e.failed
    && Contains(e.result, c.resultProof) && Contains(e.result, ACTIVITY)
    && Contains(e.result, c.runID) && Contains(e.result, c.workflowID)
  }

  /** The activity, then the checklist, then the progress line. */
  predicate Renders(text: string) {
    0 <= Index(text, ACTIVITY) < Index(text, CHECKLIST) < Index(text, PROGRESS)
  }

  function ChecklistItems(text: string): nat {
    Text.Count(text, "[x]") + Text.Count(text, "[ ]")
  }

  predicate TurnCompleted(e: Event) { e.eventType == "turn.completed" }

  predicate TurnFailed(e: Event) { e.eventType == "turn.failed" }

  function IdOf(e: Event): string {
    if e.id.Some? then e.id.value else ""
  }

  /** What one event is to the verifier. */
  function Classify(e: Event, c: Challenge): Seen {
    Seen(Labelled(e), Notice(e, c), Started(e), Request(e, c), Proves(e, c), Renders(e.result), TurnCompleted(e),
        TurnFailed(e), IdOf(e), ChecklistItems(e.result), ProgressBar(e.result))
  }

  function Classes(events: seq<Event>, c: Challenge): (r: seq<Seen>)
    ensures |r| == |events|
  {
    seq(|events|, i requires 0 <= i < |events| => Classify(events[i], c))
  }

  /** One labelled notice, then one call, then its last answer, then the end. */
  ghost predicate Sound(events: seq<Event>, c: Challenge) {
    Accepted(Classes(events, c), c.checklistCount, BAR)
  }

  lemma ClassRegular(e: Event, c: Challenge)
    ensures Regular(Classify(e, c))
  {
  }

  lemma ClassesRegular(events: seq<Event>, c: Challenge)
    ensures forall i | 0 <= i < |events| :: Regular(Classes(events, c)[i])
  {
    forall i | 0 <= i < |events| ensures Regular(Classes(events, c)[i]) { ClassRegular(events[i], c); }
  }

  // The evidence, told from the fields of the events alone.

  ghost predicate IsMessage(e: Event) {
    e.eventType == "item.completed" && e.itemType == "agent_message"
  }

  ghost predicate IsLabelled(e: Event) {
    IsMessage(e) && Within(e.text, "ATENEA ·")
  }

  /** The one announcement of this invocation, with nothing but white space around it. */
  ghost predicate IsNotice(e: Event, c: Challenge) {
    && IsMessage(e)
    && Between(e.text, "**ATENEA · catalog.repositories** — " + "consulto " + c.invocationID
                       + " para verificar actividad y progreso.")
  }

  ghost predicate IsCall(e: Event) {
    e.eventType == "item.started" && e.itemType == "mcp_tool_call"
  }

  /** The call of this challenge, from the given cursor on: each argument is its own field
      of the challenge. */
  ghost predicate IsRequest(e: Event, c: Challenge, cursor: real) {
    && IsCall(e) && e.server == "atenea" && e.tool == "catalog.repositories" && e.arguments.Some?
    && Holds(e.arguments.value, "after_cursor", Number(cursor)) && Holds(e.arguments.value, "nonce", Word(c.nonce))
    && Holds(e.arguments.value, "run_id", Word(c.runID)) && Holds(e.arguments.value, "workflow_id", Word(c.workflowID))
    && Holds(e.arguments.value, "invocation_id", Word(c.invocationID))
  }

  predicate Holds(args: map<string, Arg>, key: string, value: Arg) {
    key in args && args[key] == value
  }

  /** A missing identifier counts as an empty one. */
  ghost function CallId(e: Event): string {
    match e.id
    case Some(id) => id
    case None => ""
  }

  /** A result of the call `id` that carries the proof, the activity and both identifiers. */
  ghost predicate IsAnswer(e: Event, c: Challenge, id: string) {
    && e.eventType == "item.completed" && e.itemType == "mcp_tool_call" && e.status == "completed" && !e.failed
    && CallId(e) == id
    && Within(e.result, c.resultProof) && Within(e.result, "activity=completed")
    && Within(e.result, c.runID) && Within(e.result, c.workflowID)
  }

  ghost predicate InOrder(text: string, a: int, b: int, d: int) {
    && a < b < d && FirstAt(text, "activity=completed", a) && FirstAt(text, "- [x] **P30.** Certificación Codex", b)
    && FirstAt(text, "**Progreso:** `" + "████████████████████" + "` 100 % · 1/1 puntos completados", d)
  }

  /** The answer shows, in this order, the activity, the checklist line and the progress
      line, as many boxes as asked for, and the full bar. */
  ghost predicate IsShown(text: string, boxes: int) {
    && (exists a, b, d :: InOrder(text, a, b, d))
    && Places(text, "[x]", 0) + Places(text, "[ ]", 0) == boxes
    && FirstBar(text, "████████████████████")
  }

  /** One announcement and no other labelled message; after it one call and no other; after
      it the last of its answers, which shows everything; after it the end of the turn; and
      no turn that failed. */
  ghost predicate IsEvidence(events: seq<Event>, c: Challenge, notice: int, call: int, answer: int, end: int) {
    && 0 <= notice < call < answer < end < |events|
    && IsNotice(events[notice], c) && IsRequest(events[call], c, 0.0)
    && (forall m | 0 <= m < |events| && IsLabelled(events[m]) :: m == notice)
    && (forall m | 0 <= m < |events| && IsCall(events[m]) :: m == call)
    && IsAnswer(events[answer], c, CallId(events[call])) && IsShown(events[answer].result, c.checklistCount)
    && (forall m | 0 <= m < |events| && IsAnswer(events[m], c, CallId(events[call])) :: m <= answer)
    && events[end].eventType == "turn.completed"
    && (forall m | 0 <= m < |events| :: events[m].eventType != "turn.failed")
  }

  ghost predicate HasEvidence(events: seq<Event>, c: Challenge) {
    exists notice, call, answer, end :: IsEvidence(events, c, notice, call, answer, end)
  }

  lemma NoticeIs(e: Event, c: Challenge)
    ensures Labelled(e) <==> IsLabelled(e)
    ensures Notice(e, c) <==> IsNotice(e, c) && IsLabelled(e)
  {
    ContainsIs(e.text, LABEL);
    var expected :=
      "**ATENEA · catalog.repositories** — " + "consulto " + c.invocationID + " para verificar actividad y progreso.";
    Announced("consulto ", c.invocationID, " para verificar actividad y progreso.");
    TrimIs(e.text, expected);
  }

  /** How an announcement starts and ends. */
  lemma Announced(verb: string, id: string, tail: string)
    requires tail != [] && tail[|tail| - 1] == '.'
    ensures var text := "**ATENEA · catalog.repositories** — " + verb + id + tail;
            text[0] == '*' && text[|text| - 1] == '.' && text[2..10] == "ATENEA ·"
  {
    var head := "**ATENEA · catalog.repositories** — ";
    Heading(head);
    assert (head + verb + id + tail)[2..10] == head[2..10];
  }

  lemma Heading(head: string)
    requires head == "**ATENEA · catalog.repositories** — "
    ensures |head| > 10 && head[0] == '*' && head[2..10] == "ATENEA ·"
  {
    assert head[0] == '*';
    assert head[2] == 'A';
    assert head[3] == 'T';
    assert head[4] == 'E';
    assert head[5] == 'N';
    assert head[6] == 'E';
    assert head[7] == 'A';
    assert head[8] == ' ';
    assert head[9] == '·';
  }

  lemma RequestIs(e: Event, c: Challenge)
    ensures Started(e) <==> IsCall(e)
    ensures Request(e, c) <==> IsRequest(e, c, 0.0)
  {
  }

  lemma AnswerIs(e: Event, c: Challenge, id: string)
    ensures Proves(e, c) && IdOf(e) == id <==> IsAnswer(e, c, id)
  {
    ContainsIs(e.result, c.resultProof);
    ContainsIs(e.result, ACTIVITY);
    ContainsIs(e.result, c.runID);
    ContainsIs(e.result, c.workflowID);
  }

  lemma RendersIs(text: string)
    ensures Renders(text) <==>
            exists a, b, d :: InOrder(text, a, b, d)
  {
    if Renders(text) {
      OrderIs(text, Index(text, ACTIVITY), Index(text, CHECKLIST), Index(text, PROGRESS));
    }
    if a, b, d :| InOrder(text, a, b, d) { OrderIs(text, a, b, d); }
  }

  lemma OrderIs(text: string, a: int, b: int, d: int)
    ensures InOrder(text, a, b, d) <==>
            0 <= a < b < d && Index(text, ACTIVITY) == a && Index(text, CHECKLIST) == b && Index(text, PROGRESS) == d
  {
    IndexIs(text, ACTIVITY, a);
    IndexIs(text, CHECKLIST, b);
    IndexIs(text, PROGRESS, d);
  }

  lemma ShownIs(text: string, boxes: int)
    ensures Renders(text) && ChecklistItems(text) == boxes && ProgressBar(text) == BAR <==> IsShown(text, boxes)
  {
    RendersIs(text);
    assert text[0..] == text;
    CountIs(text, "[x]", 0);
    CountIs(text, "[ ]", 0);
    ProgressBarIs(text, BAR);
  }

  /** The announcement is one of the labelled messages. */
  lemma NoticeLabelled(e: Event, c: Challenge)
    requires IsNotice(e, c)
    ensures IsLabelled(e)
  {
    var expected :=
      "**ATENEA · catalog.repositories** — " + "consulto " + c.invocationID + " para verificar actividad y progreso.";
    var before, after :| Stretched(e.text, before, expected, after);
    Announced("consulto ", c.invocationID, " para verificar actividad y progreso.");
    Starred(before, expected, after);
    ContainsIs(e.text, "ATENEA ·");
  }

  lemma Starred(before: string, expected: string, after: string)
    requires |expected| >= 10 && expected[2..10] == "ATENEA ·"
    ensures Contains(before + expected + after, "ATENEA ·")
  {
    var text := before + expected + after;
    assert text[|before| + 2..|before| + 10] == expected[2..10];
    assert At(text, "ATENEA ·", |before| + 2);
  }

  /** What the verifier makes of an event is what its fields say. */
  lemma EventIs(e: Event, c: Challenge, id: string)
    ensures var seen := Classify(e, c);
            && (seen.labelled <==> IsLabelled(e)) && (seen.notice <==> IsNotice(e, c)) && (seen.started <==> IsCall(e))
            && (seen.request <==> IsRequest(e, c, 0.0)) && (Answers(seen, id) <==> IsAnswer(e, c, id))
            && (seen.ended <==> e.eventType == "turn.completed") && (seen.failed <==> e.eventType == "turn.failed")
            && seen.id == CallId(e)
  {
    NoticeIs(e, c);
    if IsNotice(e, c) { NoticeLabelled(e, c); }
    RequestIs(e, c);
    AnswerIs(e, c, id);
  }

  /** The order, with the answer's text left aside. */
  ghost predicate IsOrdered(events: seq<Event>, c: Challenge, notice: int, call: int, answer: int, end: int) {
    && 0 <= notice < call < answer < end < |events|
    && IsNotice(events[notice], c) && IsRequest(events[call], c, 0.0)
    && IsAnswer(events[answer], c, CallId(events[call])) && events[end].eventType == "turn.completed"
    && forall m | 0 <= m < |events| :: Apart(events[m], c, CallId(events[call]), m, notice, call, answer)
  }

  ghost predicate Apart(e: Event, c: Challenge, id: string, m: int, notice: int, call: int, answer: int) {
    && (IsLabelled(e) ==> m == notice) && (IsCall(e) ==> m == call) && (IsAnswer(e, c, id) ==> m <= answer)
    && e.eventType != "turn.failed"
  }

  lemma OrderedIs(events: seq<Event>, c: Challenge, notice: int, call: int, answer: int, end: int)
    ensures Witness(Classes(events, c), c.checklistCount, BAR, notice, call, answer, end) <==>
            IsOrdered(events, c, notice, call, answer, end) && IsShown(events[answer].result, c.checklistCount)
  {
    if 0 <= notice < call < answer < end < |events| {
      var id := CallId(events[call]);
      EventIs(events[notice], c, id);
      EventIs(events[call], c, id);
      EventIs(events[answer], c, id);
      EventIs(events[end], c, id);
      ShownIs(events[answer].result, c.checklistCount);
      AllApart(events, c, notice, call, answer);
    }
  }

  lemma AllApart(events: seq<Event>, c: Challenge, notice: int, call: int, answer: int)
    requires 0 <= call < |events|
    ensures var seen, id := Classes(events, c), CallId(events[call]);
            |seen| == |events| && ((forall m | 0 <= m < |seen| :: Bystander(seen, m, notice, call, answer)) <==>
                                   forall m | 0 <= m < |events| :: Apart(events[m], c, id, m, notice, call, answer))
  {
    var seen, id := Classes(events, c), CallId(events[call]);
    EventIs(events[call], c, id);
    forall m | 0 <= m < |events|
      ensures Bystander(seen, m, notice, call, answer) <==> Apart(events[m], c, id, m, notice, call, answer)
    {
      EventIs(events[m], c, id);
    }
  }

  lemma EvidenceIs(events: seq<Event>, c: Challenge, notice: int, call: int, answer: int, end: int)
    ensures Witness(Classes(events, c), c.checklistCount, BAR, notice, call, answer, end) <==>
            IsEvidence(events, c, notice, call, answer, end)
  {
    OrderedIs(events, c, notice, call, answer, end);
    if IsEvidence(events, c, notice, call, answer, end) {
      forall m | 0 <= m < |events|
        ensures Apart(events[m], c, CallId(events[call]), m, notice, call, answer) {}
    }
    if IsOrdered(events, c, notice, call, answer, end) {
      forall m | 0 <= m < |events|
        ensures (IsLabelled(events[m]) ==> m == notice) && (IsCall(events[m]) ==> m == call)
        ensures (IsAnswer(events[m], c, CallId(events[call])) ==> m <= answer) && events[m].eventType != "turn.failed"
      {
        assert Apart(events[m], c, CallId(events[call]), m, notice, call, answer);
      }
    }
  }

  lemma SoundIsEvidence(events: seq<Event>, c: Challenge)
    ensures Sound(events, c) <==> HasEvidence(events, c)
  {
    forall notice, call, answer, end
      ensures Witness(Classes(events, c), c.checklistCount, BAR, notice, call, answer, end) <==>
              IsEvidence(events, c, notice, call, answer, end)
    {
      EvidenceIs(events, c, notice, call, answer, end);
    }
  }

  /** VerifyCLIJSONL over the decoded lines, in order. */
  method Verify(events: seq<Event>, c: Challenge) returns (ok: bool)
    ensures ok <==> Sound(events, c)
    ensures ok <==> HasEvidence(events, c)
  {
    ClassesRegular(events, c);
    ok := Judge(Classes(events, c), c.checklistCount, BAR);
    SoundIsEvidence(events, c);
  }

  /** The events the verdict may depend on. */
  predicate Relevant(e: Event) {
    TurnCompleted(e) || TurnFailed(e) || Labelled(e) || Started(e) || Finished(e)
  }

  function Sift(events: seq<Event>): seq<Event> {
    if |events| == 0 then [] else (if Relevant(events[0]) then [events[0]] else []) + Sift(events[1..])
  }

  lemma SiftHead(front: seq<Event>, e: Event, rest: seq<Event>)
    ensures front + ([e] + rest) == front + [e] + rest
    ensures front + Sift([e] + rest) == if Relevant(e) then front + [e] + Sift(rest) else front + Sift(rest)
  {
    assert ([e] + rest)[1..] == rest;
  }

  /** If the rest can be sifted behind `e`, `e` can be sifted too. */
  lemma SiftOne(front: seq<Event>, e: Event, rest: seq<Event>, c: Challenge)
    requires Sound(front + [e] + rest, c) == Sound(front + [e] + Sift(rest), c)
    ensures Sound(front + ([e] + rest), c) == Sound(front + Sift([e] + rest), c)
  {
    SiftHead(front, e, rest);
    if !Relevant(e) { Skip(front, e, Sift(rest), c); }
  }

  lemma {:induction false} SiftSound(front: seq<Event>, events: seq<Event>, c: Challenge)
    ensures Sound(front + events, c) == Sound(front + Sift(events), c)
    decreases |events|
  {
    if |events| == 0 {
      assert Sift(events) == events;
    } else {
      var e, rest := events[0], events[1..];
      SiftSound(front + [e], rest, c);
      SiftOne(front, e, rest, c);
      assert [e] + rest == events;
    }
  }

  lemma Skip(front: seq<Event>, e: Event, rest: seq<Event>, c: Challenge)
    requires !Relevant(e)
    ensures Sound(front + [e] + rest, c) == Sound(front + rest, c)
  {
    var seen, s, more := Classes(front, c), Classify(e, c), Classes(rest, c);
    assert Classes(front + [e] + rest, c) == seen + [s] + more;
    assert Classes(front + rest, c) == seen + more;
    SkipIdle(seen, s, more, c.checklistCount, BAR);
  }

  /** Any two streams with the same relevant events get the same verdict, whatever else
      is inserted or deleted between them and however the sequence numbers shift. */
  lemma OnlyRelevantCounts(events: seq<Event>, others: seq<Event>, c: Challenge)
    requires Sift(events) == Sift(others)
    ensures Sound(events, c) <==> Sound(others, c)
  {
    SiftSound([], events, c);
    SiftSound([], others, c);
    assert [] + events == events && [] + others == others;
  }
}
