/** VerifyCLIReconnectJSONL over decoded events. */
module CliTraceReconnect {
  import opened Options
  import opened Observations
  import opened CliReconnect
  import opened CliTrace
  import opened Text

  predicate Message(e: Event) {
    e.eventType == "item.completed" && e.itemType == "agent_message"
  }

  predicate Resumes(e: Event, c: Challenge) {
    Labelled(e) && TrimSpace(e.text) ==
      "**ATENEA · catalog.repositories** — " + "reanudo " + c.invocationID + " desde cursor 1 sin repetir actividad."
  }

  /** Repeats what cursor 0 has delivered. */
  predicate Replays(e: Event) {
    && Message(e)
    && (Contains(e.text, "[x]") || Contains(e.text, "[ ]") || Contains(e.text, "Progreso")
        || Contains(e.text, ACTIVITY))
  }

  predicate Resumption(e: Event, c: Challenge) {
    Started(e) && e.server == "atenea" && e.tool == "catalog.repositories" && MatchingArguments(e, c, 1.0)
  }

  predicate ProvesResumption(e: Event, c: Challenge) {
    && Finished(e) && e.id.Some? && e.status == "completed" && !e.failed
    && Contains(e.result, c.resultProof) && Contains(e.result, "cursor=1")
    && Contains(e.result, "activity=[]") && Contains(e.result, "notices=[]") && !Contains(e.result, "[x]")
  }

  predicate Quotes(e: Event, c: Challenge) {
    Message(e) && Contains(e.text, c.resultProof) && Contains(e.text, "cursor") && !Contains(e.text, "[x]")
  }

  /** What one event is to the verifier. */
  function Read(e: Event, c: Challenge): Reading {
    Reading(Seen(Labelled(e), Resumes(e, c), Started(e), Resumption(e, c), ProvesResumption(e, c), false,
        TurnCompleted(e), TurnFailed(e), IdOf(e), 0, ""),
            Quotes(e, c), Replays(e))
  }

  function Readings(events: seq<Event>, c: Challenge): (r: seq<Reading>)
    ensures |r| == |events|
  {
    seq(|events|, i requires 0 <= i < |events| => Read(events[i], c))
  }

  /** One labelled notice, then one call, then its only answer, then the end; nothing is
      repeated, and the proof is not quoted before it is given. */
  ghost predicate Resumed(events: seq<Event>, c: Challenge) {
    CliReconnect.Accepted(Readings(events, c))
  }

  lemma ReadProper(e: Event, c: Challenge)
    ensures Proper(Read(e, c))
  {
  }

  // The evidence, told from the fields of the events alone.

  ghost predicate IsResumeNotice(e: Event, c: Challenge) {
    && IsMessage(e)
    && Between(e.text, "**ATENEA · catalog.repositories** — " + "reanudo " + c.invocationID
                       + " desde cursor 1 sin repetir actividad.")
  }

  /** A result of the call `id` from cursor 1 on: the proof, and nothing else again. */
  ghost predicate IsResult(e: Event, c: Challenge, id: string) {
    && e.eventType == "item.completed" && e.itemType == "mcp_tool_call" && e.status == "completed" && !e.failed
    && e.id == Some(id)
    && Within(e.result, c.resultProof) && Within(e.result, "cursor=1") && Within(e.result, "activity=[]")
    && Within(e.result, "notices=[]") && !Within(e.result, "[x]")
  }

  /** A message that repeats what was delivered before. */
  ghost predicate IsRepeat(e: Event) {
    && IsMessage(e)
    && (Within(e.text, "[x]") || Within(e.text, "[ ]") || Within(e.text, "Progreso")
        || Within(e.text, "activity=completed"))
  }

  ghost predicate IsQuote(e: Event, c: Challenge) {
    IsMessage(e) && Within(e.text, c.resultProof) && Within(e.text, "cursor") && !Within(e.text, "[x]")
  }

  /** Event `m` does not spoil the order; before the call, a result without a call is one
      with an empty identifier. */
  ghost predicate Unspoilt(e: Event, c: Challenge, id: string, m: int, notice: int, call: int, answer: int) {
    && (IsLabelled(e) ==> m == notice) && (IsCall(e) ==> m == call) && e.eventType != "turn.failed" && !IsRepeat(e)
    && (IsQuote(e, c) ==> answer < m) && (IsResult(e, c, if m <= call then "" else id) ==> m == answer)
  }

  ghost predicate IsResumed(events: seq<Event>, c: Challenge, notice: int, call: int, answer: int, end: int) {
    && 0 <= notice < call < answer < end < |events|
    && IsResumeNotice(events[notice], c) && IsRequest(events[call], c, 1.0)
    && IsResult(events[answer], c, CallId(events[call])) && events[end].eventType == "turn.completed"
    && forall m | 0 <= m < |events| :: Unspoilt(events[m], c, CallId(events[call]), m, notice, call, answer)
  }

  ghost predicate HasResumed(events: seq<Event>, c: Challenge) {
    exists notice, call, answer, end :: IsResumed(events, c, notice, call, answer, end)
  }

  lemma ResumeNoticeIs(e: Event, c: Challenge)
    ensures Resumes(e, c) <==> IsResumeNotice(e, c)
  {
    ContainsIs(e.text, LABEL);
    Announced("reanudo ", c.invocationID, " desde cursor 1 sin repetir actividad.");
    var expected :=
      "**ATENEA · catalog.repositories** — " + "reanudo " + c.invocationID + " desde cursor 1 sin repetir actividad.";
    TrimIs(e.text, expected);
    if IsResumeNotice(e, c) {
      var before, after :| Stretched(e.text, before, expected, after);
      Starred(before, expected, after);
    }
  }

  lemma ResultIs(e: Event, c: Challenge, id: string)
    ensures ProvesResumption(e, c) && IdOf(e) == id <==> IsResult(e, c, id)
  {
    ContainsIs(e.result, c.resultProof);
    ContainsIs(e.result, "cursor=1");
    ContainsIs(e.result, "activity=[]");
    ContainsIs(e.result, "notices=[]");
    ContainsIs(e.result, "[x]");
  }

  lemma MessageIs(e: Event, c: Challenge)
    ensures Replays(e) <==> IsRepeat(e)
    ensures Quotes(e, c) <==> IsQuote(e, c)
    ensures Labelled(e) <==> IsLabelled(e)
  {
    ContainsIs(e.text, LABEL);
    ContainsIs(e.text, "[x]");
    ContainsIs(e.text, "[ ]");
    ContainsIs(e.text, "Progreso");
    ContainsIs(e.text, "activity=completed");
    ContainsIs(e.text, c.resultProof);
    ContainsIs(e.text, "cursor");
  }

  /** What the verifier makes of an event is what its fields say. */
  lemma ReadingIs(e: Event, c: Challenge, id: string)
    ensures var r := Read(e, c);
            && (r.base.labelled <==> IsLabelled(e)) && (r.base.notice <==> IsResumeNotice(e, c))
            && (r.base.started <==> IsCall(e)) && (r.base.request <==> IsRequest(e, c, 1.0))
            && (Answers(r.base, id) <==> IsResult(e, c, id))
            && (r.base.ended <==> e.eventType == "turn.completed") && (r.base.failed <==> e.eventType == "turn.failed")
            && (r.replays <==> IsRepeat(e)) && (r.shows <==> IsQuote(e, c)) && r.base.id == CallId(e)
  {
    ResumeNoticeIs(e, c);
    ResultIs(e, c, id);
    MessageIs(e, c);
  }

  lemma ResumedIs(events: seq<Event>, c: Challenge, notice: int, call: int, answer: int, end: int)
    ensures CliReconnect.Witness(Readings(events, c), notice, call, answer, end) <==>
            IsResumed(events, c, notice, call, answer, end)
  {
    var rs := Readings(events, c);
    if 0 <= notice < call < answer < end < |events| {
      var id := CallId(events[call]);
      ReadingIs(events[notice], c, id);
      ReadingIs(events[call], c, id);
      ReadingIs(events[answer], c, id);
      ReadingIs(events[end], c, id);
      forall m | 0 <= m < |events|
        ensures CliReconnect.Bystander(rs, m, notice, call, answer) <==>
                Unspoilt(events[m], c, id, m, notice, call, answer)
      {
        ReadingIs(events[m], c, if m <= call then "" else id);
      }
    }
  }

  lemma ResumedIsEvidence(events: seq<Event>, c: Challenge)
    ensures Resumed(events, c) <==> HasResumed(events, c)
  {
    forall notice, call, answer, end
      ensures CliReconnect.Witness(Readings(events, c), notice, call, answer, end) <==>
              IsResumed(events, c, notice, call, answer, end)
    {
      ResumedIs(events, c, notice, call, answer, end);
    }
  }

  method Verify(events: seq<Event>, c: Challenge) returns (ok: bool)
    ensures ok <==> Resumed(events, c)
    ensures ok <==> HasResumed(events, c)
  {
    forall i | 0 <= i < |events| ensures Proper(Readings(events, c)[i]) { ReadProper(events[i], c); }
    ok := CliReconnect.Judge(Readings(events, c));
    ResumedIsEvidence(events, c);
  }

  /** Here every finished agent message may matter. */
  predicate Matters(e: Event) {
    TurnCompleted(e) || TurnFailed(e) || Message(e) || Started(e) || Finished(e)
  }

  function Sifted(events: seq<Event>): seq<Event> {
    if |events| == 0 then [] else (if Matters(events[0]) then [events[0]] else []) + Sifted(events[1..])
  }

  lemma SiftedHead(front: seq<Event>, e: Event, rest: seq<Event>)
    ensures front + ([e] + rest) == front + [e] + rest
    ensures front + Sifted([e] + rest) == if Matters(e) then front + [e] + Sifted(rest) else front + Sifted(rest)
  {
    assert ([e] + rest)[1..] == rest;
  }

  lemma SkipEvent(front: seq<Event>, e: Event, rest: seq<Event>, c: Challenge)
    requires !Matters(e)
    ensures Resumed(front + [e] + rest, c) <==> Resumed(front + rest, c)
  {
    var seen, r, more := Readings(front, c), Read(e, c), Readings(rest, c);
    assert Readings(front + [e] + rest, c) == seen + [r] + more;
    assert Readings(front + rest, c) == seen + more;
    SkipInert(seen, r, more);
  }

  lemma {:induction false} SiftedSound(front: seq<Event>, events: seq<Event>, c: Challenge)
    ensures Resumed(front + events, c) <==> Resumed(front + Sifted(events), c)
    decreases |events|
  {
    if |events| > 0 {
      var e, rest := events[0], events[1..];
      assert events == [e] + rest;
      SiftedHead(front, e, rest);
      SiftedSound(front + [e], rest, c);
      if !Matters(e) { SkipEvent(front, e, Sifted(rest), c); }
    }
  }

  /** Any two streams with the same turn endings, agent messages and tool calls get the
      same verdict. */
  lemma OnlyMatteringCounts(events: seq<Event>, others: seq<Event>, c: Challenge)
    requires Sifted(events) == Sifted(others)
    ensures Resumed(events, c) <==> Resumed(others, c)
  {
    SiftedSound([], events, c);
    SiftedSound([], others, c);
    assert [] + events == events && [] + others == others;
  }
}
