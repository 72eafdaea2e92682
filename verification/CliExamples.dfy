/** A stream that is accepted, and the same stream for challenges it does not answer. */
module CliExamples {
  import opened Options
  import opened Text
  import opened CliTrace

  const CHALLENGE := Challenge("n", "r", "w", "i", "p", 1)

  const ANNOUNCEMENT: string :=
    "**ATENEA · catalog.repositories** — " + "consulto " + "i" + " para verificar actividad y progreso."

  const HEAD := "activity=completed r w p\n"
  const SHOWN: string := HEAD + CHECKLIST + "\n" + PROGRESS

  function Message(text: string): Event {
    Event("item.completed", "agent_message", None, text, "", "", "", None, false, "")
  }

  function Arguments(nonce: string, cursor: real): map<string, Arg> {
    map["after_cursor" := Number(cursor), "nonce" := Word(nonce), "run_id" := Word("r"), "workflow_id" := Word("w"),
        "invocation_id" := Word("i")]
  }

  function Stream(nonce: string, cursor: real): seq<Event> {
    [Message("\n" + ANNOUNCEMENT),
     Event("item.started", "mcp_tool_call", Some("t"), "", "atenea", "catalog.repositories", "",
           Some(Arguments(nonce, cursor)), false, ""),
     Event("item.completed", "mcp_tool_call", Some("t"), "", "atenea", "catalog.repositories", "completed", None, false,
           SHOWN),
     Event("turn.completed", "", None, "", "", "", "", None, false, "")]
  }

  lemma WithinAt(text: string, i: nat, piece: string)
    requires i + |piece| <= |text| && text[i..i + |piece|] == piece
    ensures Within(text, piece)
  {
    assert text == text[..i] + piece + text[i + |piece|..];
  }

  lemma Parts()
    ensures |HEAD| == 25 && |CHECKLIST| == 34 && |PROGRESS| == 67 && |SHOWN| == 127
    ensures SHOWN[..25] == HEAD && SHOWN[25..59] == CHECKLIST && SHOWN[59] == '\n' && SHOWN[60..] == PROGRESS
  {
    assert SHOWN == HEAD + (CHECKLIST + ("\n" + PROGRESS));
  }

  lemma HeadFree(k: nat)
    requires k < 25
    ensures HEAD[k] != '-' && HEAD[k] != '[' && HEAD[k] != '*' && HEAD[k] != '█' && HEAD[k] != '░' && HEAD[k] != '#'
  {
  }

  lemma ChecklistFree(k: nat)
    requires k < 34
    ensures CHECKLIST[k] != '█' && CHECKLIST[k] != '░' && CHECKLIST[k] != '#' && (CHECKLIST[k] == '[' ==> k == 2)
    ensures CHECKLIST[k] == '*' ==> k in {6, 7, 12, 13}
  {
  }

  lemma ProgressFree(k: nat)
    requires k < 67
    ensures PROGRESS[k] != '[' && PROGRESS[k] != '#' && (k < 15 ==> PROGRESS[k] != '█' && PROGRESS[k] != '░')
  {
    var tail := "` 100 % · 1/1 puntos completados";
    if k < 15 {
      assert PROGRESS[k] == "**Progreso:** `"[k];
    } else if k < 35 {
      assert PROGRESS[k] == "████████████████████"[k - 15];
    } else {
      assert PROGRESS[k] == tail[k - 35];
    }
  }

  lemma ShownOrder()
    ensures InOrder(SHOWN, 0, 25, 60)
  {
    Parts();
    assert SHOWN[0..18] == HEAD[0..18] == "activity=completed";
    forall k: nat | k < 25 ensures !Stands(SHOWN, CHECKLIST, k) {
      HeadFree(k);
      assert SHOWN[k] == HEAD[k];
      if Stands(SHOWN, CHECKLIST, k) { Starts(SHOWN, CHECKLIST, k); }
    }
    assert SHOWN[60..127] == PROGRESS;
    forall k: nat | k < 60 ensures !Stands(SHOWN, PROGRESS, k) { NotProgress(k); }
  }

  lemma Stars(k: nat)
    requires k < 60 && SHOWN[k] == '*'
    ensures k in {31, 32, 37, 38}
  {
    Parts();
    if k < 25 {
      assert SHOWN[k] == HEAD[k];
      HeadFree(k);
    } else if k < 59 {
      assert SHOWN[k] == SHOWN[25..59][k - 25];
      ChecklistFree(k - 25);
    }
  }

  lemma NotProgress(k: nat)
    requires k < 60
    ensures !Stands(SHOWN, PROGRESS, k)
  {
    Parts();
    assert PROGRESS[0] == '*' && PROGRESS[1] == '*' && PROGRESS[3] == 'r';
    if Stands(SHOWN, PROGRESS, k) {
      var piece := SHOWN[k..k + 67];
      assert piece[0] == SHOWN[k] && piece[1] == SHOWN[k + 1] && piece[3] == SHOWN[k + 3];
      Stars(k);
      StarsInChecklist(k);
    }
  }

  lemma StarsInChecklist(k: nat)
    requires k in {31, 32, 37, 38}
    ensures |SHOWN| > k + 3 && (SHOWN[k + 1] != '*' || SHOWN[k + 3] != 'r')
  {
    Parts();
    assert SHOWN[32 + 1] == SHOWN[25..59][8] == CHECKLIST[8] == 'P';
    assert SHOWN[31 + 3] == SHOWN[25..59][9] == CHECKLIST[9] == '3';
    assert SHOWN[37 + 3] == SHOWN[25..59][15] == CHECKLIST[15] == 'C';
    assert SHOWN[38 + 1] == SHOWN[25..59][14] == CHECKLIST[14] == ' ';
  }

  /** The only bracket that opens is that of the checklist. */
  lemma Brackets(k: nat)
    requires k < 127
    ensures SHOWN[k] == '[' <==> k == 27
  {
    Parts();
    if k < 25 {
      assert SHOWN[k] == HEAD[k];
      HeadFree(k);
    } else if k < 59 {
      assert SHOWN[k] == SHOWN[25..59][k - 25];
      ChecklistFree(k - 25);
      assert CHECKLIST[2] == '[';
    } else if k > 59 {
      assert SHOWN[k] == SHOWN[60..][k - 60];
      ProgressFree(k - 60);
    }
  }

  lemma NoBoxes(p: string, i: nat, j: nat)
    requires |p| == 3 && p[0] == '[' && i <= j <= 127 && (j <= 27 || 27 < i)
    ensures |SHOWN| == 127 && Places(SHOWN, p, i) == Places(SHOWN, p, j)
  {
    Parts();
    forall k: nat | i <= k < j ensures !Stands(SHOWN, p, k) {
      Brackets(k);
      if Stands(SHOWN, p, k) { Starts(SHOWN, p, k); }
    }
    NoPlaces(SHOWN, p, i, j);
  }

  lemma OneBox()
    ensures Places(SHOWN, "[x]", 0) == 1 && Places(SHOWN, "[ ]", 0) == 0
  {
    Parts();
    assert SHOWN[27] == SHOWN[25..59][2] == CHECKLIST[2] == '[';
    assert SHOWN[28] == SHOWN[25..59][3] == CHECKLIST[3] == 'x';
    assert SHOWN[29] == SHOWN[25..59][4] == CHECKLIST[4] == ']';
    assert SHOWN[27..30] == "[x]";
    NoBoxes("[x]", 0, 27);
    NoBoxes("[x]", 28, 127);
    assert Stands(SHOWN, "[x]", 27);
    NoBoxes("[ ]", 0, 27);
    NoBoxes("[ ]", 28, 127);
    assert SHOWN[27..30][1] == 'x';
    assert !Stands(SHOWN, "[ ]", 27);
  }

  lemma NoBarBefore(k: nat)
    requires k < 75
    ensures SHOWN[k] != '█' && SHOWN[k] != '░'
  {
    Parts();
    if k < 25 {
      assert SHOWN[k] == HEAD[k];
      HeadFree(k);
    } else if k < 59 {
      assert SHOWN[k] == SHOWN[25..59][k - 25];
      ChecklistFree(k - 25);
    } else if k > 59 {
      assert SHOWN[k] == SHOWN[60..][k - 60];
      ProgressFree(k - 60);
    }
  }

  lemma MiddleIs(a: string, b: string, d: string)
    ensures (a + b + d)[|a|..|a| + |b|] == b && (a + b + d)[|a| + |b|..] == d
  {
  }

  /** A bar framed by text without one. */
  lemma BarInside(text: string, i: nat, bar: string)
    requires bar != [] && i + |bar| < |text| && text[i..i + |bar|] == bar
    requires forall k: nat | k < i :: text[k] != '█' && text[k] != '░'
    requires forall c | c in bar :: c == '█' || c == '░'
    requires text[i + |bar|] != '█' && text[i + |bar|] != '░'
    ensures FirstBar(text, bar)
  {
    var before, after := text[..i], text[i + |bar|..];
    forall c | c in before ensures c != '█' && c != '░' {
      var k: nat :| k < i && before[k] == c;
    }
    assert text == before + bar + after;
    assert Frames(text, before, bar, after);
  }

  lemma BarAt()
    ensures |SHOWN| == 127 && SHOWN[75..95] == "████████████████████" && SHOWN[95] == '`'
  {
    Parts();
    var tail := "` 100 % · 1/1 puntos completados";
    MiddleIs("**Progreso:** `", "████████████████████", tail);
    assert PROGRESS[15..35] == "████████████████████" && PROGRESS[35..] == tail;
    assert SHOWN[60..][15..35] == SHOWN[75..95];
    assert SHOWN[95] == SHOWN[60..][35] == PROGRESS[35..][0] == tail[0];
  }

  lemma FullBar()
    ensures FirstBar(SHOWN, "████████████████████")
  {
    BarAt();
    forall k: nat | k < 75 ensures SHOWN[k] != '█' && SHOWN[k] != '░' { NoBarBefore(k); }
    BarInside(SHOWN, 75, "████████████████████");
  }

  lemma ShownIsShown()
    ensures IsShown(SHOWN, 1)
  {
    ShownOrder();
    OneBox();
    FullBar();
  }

  lemma AnswerIsAnswer()
    ensures IsAnswer(Stream("n", 0.0)[2], CHALLENGE, "t")
  {
    Parts();
    assert HEAD[23] == 'p' && HEAD[19] == 'r' && HEAD[21] == 'w' && HEAD[..18] == "activity=completed";
    assert SHOWN[..25] == HEAD;
    assert SHOWN[23..24] == "p" && SHOWN[19..20] == "r" && SHOWN[21..22] == "w";
    assert SHOWN[0..18] == HEAD[..18];
    WithinAt(SHOWN, 23, "p");
    WithinAt(SHOWN, 19, "r");
    WithinAt(SHOWN, 21, "w");
    WithinAt(SHOWN, 0, "activity=completed");
  }

  lemma NewlineBefore(core: string)
    ensures Between("\n" + core, core)
  {
    assert AllWhite("\n") by { assert WHITE[1] == '\n'; }
    assert Stretched("\n" + core, "\n", core, "");
  }

  lemma NoticeIsNotice()
    ensures IsNotice(Stream("n", 0.0)[0], CHALLENGE)
  {
    NewlineBefore(ANNOUNCEMENT);
  }

  /** The stream answers its challenge, */
  lemma Accepted()
    ensures IsEvidence(Stream("n", 0.0), CHALLENGE, 0, 1, 2, 3)
  {
    ShownIsShown();
    AnswerIsAnswer();
    NoticeIsNotice();
  }

  /** and is refused when the call carries another nonce, or starts at another cursor, */
  lemma OtherCall(nonce: string, cursor: real)
    requires nonce != "n" || cursor != 0.0
    ensures !HasEvidence(Stream(nonce, cursor), CHALLENGE)
  {
  }

  /** and for a challenge whose proof the answer does not hold. */
  lemma OtherProof(proof: string)
    requires '#' in proof
    ensures !HasEvidence(Stream("n", 0.0), CHALLENGE.(resultProof := proof))
  {
    if Within(SHOWN, proof) {
      var before, after :| SHOWN == before + proof + after;
      var k :| 0 <= k < |proof| && proof[k] == '#';
      assert SHOWN[|before| + k] == '#';
      NoHash(|before| + k);
    }
  }

  lemma NoHash(k: nat)
    requires k < 127
    ensures SHOWN[k] != '#'
  {
    Parts();
    if k < 25 {
      assert SHOWN[k] == HEAD[k];
      HeadFree(k);
    } else if k < 59 {
      assert SHOWN[k] == SHOWN[25..59][k - 25];
      ChecklistFree(k - 25);
    } else if k > 59 {
      assert SHOWN[k] == SHOWN[60..][k - 60];
      ProgressFree(k - 60);
    }
  }

  /** The verifier itself says so. */
  method Example() returns (accepted: bool, refused: bool)
    ensures accepted && !refused
  {
    accepted := Verify(Stream("n", 0.0), CHALLENGE);
    Accepted();
    refused := Verify(Stream("m", 0.0), CHALLENGE);
    OtherCall("m", 0.0);
  }
}
