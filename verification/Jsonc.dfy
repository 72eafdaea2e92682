/** Removing the comments of a JSONC file. Tokens are spans of the text. */
module Jsonc {

  datatype Kind = Plain | Literal | Line | Block

  predicate Opens(s: string, i: nat, second: char) {
    i + 1 < |s| && s[i] == '/' && s[i + 1] == second
  }

  predicate Closes(s: string, i: nat) {
    i + 1 < |s| && s[i] == '*' && s[i + 1] == '/'
  }

  /** Where the literal ends that position `i` is inside of: behind its closing quote, or
      at the end of the text. */
  function LiteralEnd(s: string, i: nat, escaped: bool): (e: nat)
    requires i <= |s|
    ensures i <= e <= |s|
    decreases |s| - i
  {
    if i == |s| then i
    else if escaped then LiteralEnd(s, i + 1, false)
    else if s[i] == '\\' then LiteralEnd(s, i + 1, true)
    else if s[i] == '"' then i + 1
    else LiteralEnd(s, i + 1, false)
  }

  /** A line comment ends before its newline. */
  function LineEnd(s: string, i: nat): (e: nat)
    requires i <= |s|
    ensures i <= e <= |s| && (e < |s| ==> s[e] == '\n')
    decreases |s| - i
  {
    if i == |s| || s[i] == '\n' then i else LineEnd(s, i + 1)
  }

  /** A block comment ends behind its closing, or at the end of the text. */
  function BlockEnd(s: string, i: nat): (e: nat)
    requires i <= |s|
    ensures i <= e <= |s|
    decreases |s| - i
  {
    if i + 1 >= |s| then |s| else if Closes(s, i) then i + 2 else BlockEnd(s, i + 1)
  }

  /** The token that starts at `i`, outside any other. */
  function KindAt(s: string, i: nat): Kind
    requires i < |s|
  {
    if s[i] == '"' then Literal else if Opens(s, i, '/') then Line else if Opens(s, i, '*') then Block else Plain
  }

  function End(s: string, i: nat): (e: nat)
    requires i < |s|
    ensures i < e <= |s|
  {
    match KindAt(s, i)
    case Literal => LiteralEnd(s, i + 1, false)
    case Line => LineEnd(s, i + 2)
    case Block => BlockEnd(s, i + 2)
    case Plain => i + 1
  }

  /** The newlines between two positions. */
  function Newlines(s: string, i: nat, j: nat): string
    requires i <= j <= |s|
  {
    if i == j then "" else if s[j - 1] == '\n' then Newlines(s, i, j - 1) + "\n" else Newlines(s, i, j - 1)
  }

  /** What is left of a token: literals and plain text as they are, the newlines of a
      comment. Of a block comment the last byte is never looked at. */
  function Shown(s: string, i: nat): string
    requires i < |s|
  {
    match KindAt(s, i)
    case Literal => s[i..End(s, i)]
    case Line => ""
    case Block => Newlines(s, i, End(s, i) - 1)
    case Plain => s[i..i + 1]
  }

  /** The reference: token after token. */
  function Strip(s: string, i: nat): string
    requires i <= |s|
    decreases |s| - i
  {
    if i == |s| then "" else Shown(s, i) + Strip(s, End(s, i))
  }

  // The loop.

  /** What the loop has still to write. */
  function Pending(s: string, i: nat, inString: bool, escaped: bool): string
    requires i <= |s|
  {
    if inString then s[i..LiteralEnd(s, i, escaped)] + Strip(s, LiteralEnd(s, i, escaped)) else Strip(s, i)
  }

  lemma Grouped(a: string, b: string, c: string)
    ensures a + (b + c) == a + b + c
  {
  }

  lemma InsideNext(s: string, i: nat, escaped: bool)
    requires i < |s|
    ensures Pending(s, i, true, escaped) == [s[i]] +
      if escaped then Pending(s, i + 1, true, false)
      else if s[i] == '\\' then Pending(s, i + 1, true, true)
      else Pending(s, i + 1, s[i] != '"', false)
  {
    var e := LiteralEnd(s, i, escaped);
    HeadOff(s, i, e);
    Grouped([s[i]], s[i + 1..e], Strip(s, e));
    if !escaped && s[i] == '"' { assert s[i + 1..e] == "" && "" + Strip(s, e) == Strip(s, e); }
  }

  lemma OutsideNext(s: string, i: nat)
    requires i < |s| && !Opens(s, i, '/') && !Opens(s, i, '*')
    ensures Strip(s, i) == [s[i]] + Pending(s, i + 1, s[i] == '"', false)
  {
    var e := End(s, i);
    if s[i] == '"' {
      HeadOff(s, i, e);
      Grouped([s[i]], s[i + 1..e], Strip(s, e));
    } else {
      assert s[i..i + 1] == [s[i]];
    }
  }

  lemma HeadOff(s: string, i: nat, e: nat)
    requires i < e <= |s|
    ensures s[i..e] == [s[i]] + s[i + 1..e]
  {
  }

  /** The two switches behind a byte that is not part of a comment. */
  function Inside(c: char, inString: bool, escaped: bool): bool {
    if c == '"' && !escaped then !inString else inString
  }

  function Escapes(c: char, inString: bool, escaped: bool): bool {
    !escaped && inString && c == '\\'
  }

  /** `out` and what is pending make up the result. */
  ghost predicate Written(out: string, s: string, i: nat, inString: bool, escaped: bool)
    requires i <= |s|
  {
    out + Pending(s, i, inString, escaped) == Strip(s, 0)
  }

  lemma WrittenStart(s: string)
    ensures Written("", s, 0, false, false)
  {
    assert "" + Strip(s, 0) == Strip(s, 0);
  }

  lemma WrittenEnd(out: string, s: string, inString: bool, escaped: bool)
    requires Written(out, s, |s|, inString, escaped)
    ensures out == Strip(s, 0)
  {
    assert Pending(s, |s|, inString, escaped) == "";
  }

  lemma WrittenChar(out: string, s: string, i: nat, inString: bool, escaped: bool)
    requires i < |s| && (escaped ==> inString) && (!inString ==> !Opens(s, i, '/') && !Opens(s, i, '*'))
    requires Written(out, s, i, inString, escaped)
    ensures Written(out + [s[i]], s, i + 1, Inside(s[i], inString, escaped), Escapes(s[i], inString, escaped))
  {
    if inString { InsideNext(s, i, escaped); } else { OutsideNext(s, i); }
    Grouped(out, [s[i]], Pending(s, i + 1, Inside(s[i], inString, escaped), Escapes(s[i], inString, escaped)));
  }

  lemma WrittenSkip(out: string, s: string, i: nat, kept: string, next: nat)
    requires i <= |s| && next <= |s| && Written(out, s, i, false, false) && Strip(s, i) == kept + Strip(s, next)
    ensures Written(out + kept, s, next, false, false)
  {
    Grouped(out, kept, Strip(s, next));
  }

  /** A line comment: its newline stays. */
  method SkipLine(raw: string, start: nat) returns (kept: string, i: nat)
    requires start < |raw| && KindAt(raw, start) == Line
    ensures start < i <= |raw| && Strip(raw, start) == kept + Strip(raw, i)
  {
    i := start + 2;
    while i < |raw| && raw[i] != '\n'
      invariant start + 2 <= i <= |raw| && LineEnd(raw, i) == LineEnd(raw, start + 2)
    {
      i := i + 1;
    }
    LineDropped(raw, start, i);
    if i == |raw| { return "", i; }
    NewlineStays(raw, i);
    return "\n", i + 1;
  }

  lemma LineDropped(raw: string, start: nat, i: nat)
    requires start < |raw| && KindAt(raw, start) == Line && End(raw, start) == i
    ensures Strip(raw, start) == Strip(raw, i)
  {
  }

  lemma NewlineStays(raw: string, i: nat)
    requires i < |raw| && raw[i] == '\n'
    ensures Strip(raw, i) == "\n" + Strip(raw, i + 1)
  {
    assert KindAt(raw, i) == Plain && raw[i..i + 1] == "\n";
  }

  /** The two characters that open a comment hold no newline. */
  lemma NoneAtOpening(s: string, i: nat)
    requires i + 2 <= |s| && s[i] != '\n' && s[i + 1] != '\n'
    ensures Newlines(s, i, i + 2) == ""
  {
    assert Newlines(s, i, i) == "";
    assert Newlines(s, i, i + 1) == "";
  }

  /** A block comment: its newlines stay. */
  method SkipBlock(raw: string, start: nat) returns (kept: string, i: nat)
    requires start < |raw| && KindAt(raw, start) == Block
    ensures start < i <= |raw| && Strip(raw, start) == kept + Strip(raw, i)
  {
    i, kept := start + 2, "";
    NoneAtOpening(raw, start);
    while i + 1 < |raw|
      invariant start + 2 <= i <= |raw| && (i == start + 2 || i < |raw|) && BlockEnd(raw, i) == BlockEnd(raw, start + 2)
      invariant kept == Newlines(raw, start, i)
    {
      if Closes(raw, i) { return kept, i + 2; }
      if raw[i] == '\n' { kept := kept + "\n"; }
      i := i + 1;
    }
    assert kept == Newlines(raw, start, |raw| - 1);
    i := |raw|;
  }

  /** A comment of either form. */
  method SkipComment(raw: string, start: nat) returns (kept: string, i: nat)
    requires start < |raw| && (Opens(raw, start, '/') || Opens(raw, start, '*'))
    ensures start < i <= |raw| && Strip(raw, start) == kept + Strip(raw, i)
  {
    if Opens(raw, start, '/') { kept, i := SkipLine(raw, start); } else { kept, i := SkipBlock(raw, start); }
  }

  /** stripComments. */
  method StripComments(raw: string) returns (out: string)
    ensures out == Strip(raw, 0)
  {
    out := "";
    var inString, escaped, i := false, false, 0;
    WrittenStart(raw);
    while i < |raw|
      invariant 0 <= i <= |raw| && (escaped ==> inString)
      invariant Written(out, raw, i, inString, escaped)
    {
      if !inString && (Opens(raw, i, '/') || Opens(raw, i, '*')) {
        var kept, next := SkipComment(raw, i);
        WrittenSkip(out, raw, i, kept, next);
        out, i := out + kept, next;
      } else {
        WrittenChar(out, raw, i, inString, escaped);
        var c := raw[i];
        if escaped { escaped := false; }
        else if c == '\\' && inString { escaped := true; }
        else if c == '"' { inString := !inString; }
        out, i := out + [c], i + 1;
      }
    }
    WrittenEnd(out, raw, inString, escaped);
  }

  // No comment is left.

  /** `t` from `j` on is `s` from `i` on. */
  predicate SameTail(s: string, i: nat, t: string, j: nat) {
    i <= |s| && j <= |t| && |s| - i == |t| - j && forall k | i <= k < |s| :: s[k] == t[k - i + j]
  }

  lemma {:induction false} LiteralEndMoves(s: string, i: nat, t: string, j: nat, escaped: bool)
    requires SameTail(s, i, t, j)
    ensures LiteralEnd(t, j, escaped) - j == LiteralEnd(s, i, escaped) - i
    decreases |s| - i
  {
    if i < |s| {
      assert s[i] == t[j];
      LiteralEndMoves(s, i + 1, t, j + 1, !escaped && s[i] == '\\');
    }
  }

  lemma {:induction false} LineEndMoves(s: string, i: nat, t: string, j: nat)
    requires SameTail(s, i, t, j)
    ensures LineEnd(t, j) - j == LineEnd(s, i) - i
    decreases |s| - i
  {
    if i < |s| {
      assert s[i] == t[j];
      LineEndMoves(s, i + 1, t, j + 1);
    }
  }

  lemma {:induction false} BlockEndMoves(s: string, i: nat, t: string, j: nat)
    requires SameTail(s, i, t, j)
    ensures BlockEnd(t, j) - j == BlockEnd(s, i) - i
    decreases |s| - i
  {
    if i + 1 < |s| {
      assert s[i] == t[j] && s[i + 1] == t[j + 1];
      BlockEndMoves(s, i + 1, t, j + 1);
    }
  }

  lemma {:induction false} NewlinesMove(s: string, i: nat, e: nat, t: string, j: nat)
    requires SameTail(s, i, t, j) && i <= e <= |s|
    ensures Newlines(t, j, j + (e - i)) == Newlines(s, i, e)
    decreases e
  {
    if i < e {
      assert s[e - 1] == t[e - 1 - i + j];
      NewlinesMove(s, i, e - 1, t, j);
    }
  }

  lemma KindMoves(s: string, i: nat, t: string, j: nat)
    requires SameTail(s, i, t, j) && i < |s|
    ensures KindAt(t, j) == KindAt(s, i) && t[j] == s[i]
  {
    assert s[i] == t[j] && (i + 1 < |s| ==> s[i + 1] == t[j + 1]);
  }

  lemma EndMoves(s: string, i: nat, t: string, j: nat)
    requires SameTail(s, i, t, j) && i < |s|
    ensures KindAt(t, j) == KindAt(s, i) && End(t, j) - j == End(s, i) - i
  {
    KindMoves(s, i, t, j);
    match KindAt(s, i)
    case Literal => LiteralEndMoves(s, i + 1, t, j + 1, false);
    case Line => LineEndMoves(s, i + 2, t, j + 2);
    case Block => BlockEndMoves(s, i + 2, t, j + 2);
    case Plain =>
  }

  lemma SpanMoves(s: string, i: nat, e: nat, t: string, j: nat)
    requires SameTail(s, i, t, j) && i <= e <= |s|
    ensures t[j..j + (e - i)] == s[i..e]
  {
  }

  lemma TokenMoves(s: string, i: nat, t: string, j: nat)
    requires SameTail(s, i, t, j) && i < |s|
    ensures End(t, j) - j == End(s, i) - i && Shown(t, j) == Shown(s, i)
  {
    EndMoves(s, i, t, j);
    var e := End(s, i);
    if KindAt(s, i) == Block { NewlinesMove(s, i, e - 1, t, j); } else { SpanMoves(s, i, e, t, j); }
  }

  lemma {:induction false} StripMoves(s: string, i: nat, t: string, j: nat)
    requires SameTail(s, i, t, j)
    ensures Strip(t, j) == Strip(s, i)
    decreases |s| - i
  {
    if i < |s| {
      TokenMoves(s, i, t, j);
      StripMoves(s, End(s, i), t, End(t, j));
    }
  }

  /** A literal copied in front of anything ends where it did. */
  lemma {:induction false} LiteralCopied(s: string, i: nat, escaped: bool, t: string, j: nat)
    requires i <= |s|
    requires var e := LiteralEnd(s, i, escaped);
             j + (e - i) <= |t| && (e < |s| || j + (e - i) == |t|) && forall k | i <= k < e :: s[k] == t[k - i + j]
    ensures LiteralEnd(t, j, escaped) - j == LiteralEnd(s, i, escaped) - i
    decreases |s| - i
  {
    if i < |s| {
      assert s[i] == t[j];
      if escaped || s[i] != '"' { LiteralCopied(s, i + 1, !escaped && s[i] == '\\', t, j + 1); }
    }
  }

  predicate OnlyNewlines(s: string) {
    forall k | 0 <= k < |s| :: s[k] == '\n'
  }

  lemma {:induction false} NewlinesAreNewlines(s: string, i: nat, j: nat)
    requires i <= j <= |s|
    ensures OnlyNewlines(Newlines(s, i, j))
    decreases j
  {
    if i < j { NewlinesAreNewlines(s, i, j - 1); }
  }

  /** A text that starts with a plain byte. */
  lemma PlainStays(c: char, t: string)
    requires c != '"' && (c == '/' && |t| > 0 ==> t[0] != '/' && t[0] != '*')
    ensures Strip([c] + t, 0) == [c] + Strip(t, 0)
  {
    var u := [c] + t;
    assert KindAt(u, 0) == Plain && u[0..1] == [c];
    StripMoves(t, 0, u, 1);
  }

  lemma {:induction false} NewlinesStay(n: string, t: string)
    requires OnlyNewlines(n)
    ensures Strip(n + t, 0) == n + Strip(t, 0)
    decreases |n|
  {
    if |n| == 0 {
      assert n + t == t && n + Strip(t, 0) == Strip(t, 0);
    } else {
      NewlinesStay(n[1..], t);
      PlainStays(n[0], n[1..] + t);
      assert [n[0]] + n[1..] == n;
      Grouped([n[0]], n[1..], t);
      Grouped([n[0]], n[1..], Strip(t, 0));
    }
  }

  lemma LiteralStays(s: string, i: nat, t: string)
    requires i < |s| && KindAt(s, i) == Literal && (End(s, i) == |s| ==> t == "")
    ensures Strip(s[i..End(s, i)] + t, 0) == s[i..End(s, i)] + Strip(t, 0)
  {
    var lit := s[i..End(s, i)];
    var u := lit + t;
    assert forall k | i + 1 <= k < End(s, i) :: s[k] == u[k - (i + 1) + 1];
    LiteralCopied(s, i + 1, false, u, 1);
    assert End(u, 0) == |lit| && u[0..|lit|] == lit;
    StripMoves(t, 0, u, |lit|);
  }

  /** What is left of the rest starts with a slash or a star only if the rest does. */
  lemma HeadKept(s: string, i: nat)
    requires i < |s| && s[i] != '/' && s[i] != '*'
    ensures |Strip(s, i)| > 0 && Strip(s, i)[0] == s[i]
  {
  }

  lemma PlainStep(s: string, i: nat, t: string)
    requires i < |s| && KindAt(s, i) == Plain && t == Strip(s, i + 1)
    ensures Strip(s[i..i + 1] + t, 0) == s[i..i + 1] + Strip(t, 0)
  {
    if s[i] == '/' && i + 1 < |s| { HeadKept(s, i + 1); }
    assert s[i..i + 1] == [s[i]];
    PlainStays(s[i], t);
  }

  lemma ShownStays(s: string, i: nat, t: string)
    requires i < |s| && t == Strip(s, End(s, i))
    ensures Strip(Shown(s, i) + t, 0) == Shown(s, i) + Strip(t, 0)
  {
    match KindAt(s, i)
    case Line => NewlinesStay("", t);
    case Block =>
      NewlinesAreNewlines(s, i, End(s, i) - 1);
      NewlinesStay(Shown(s, i), t);
    case Literal => LiteralStays(s, i, t);
    case Plain => PlainStep(s, i, t);
  }

  lemma {:induction false} StripStays(s: string, i: nat)
    requires i <= |s|
    ensures Strip(Strip(s, i), 0) == Strip(s, i)
    decreases |s| - i
  {
    if i < |s| {
      StripStays(s, End(s, i));
      ShownStays(s, i, Strip(s, End(s, i)));
    }
  }

  /** Stripping what has been stripped changes nothing, for any text at all. */
  lemma StripIdempotent(s: string)
    ensures Strip(Strip(s, 0), 0) == Strip(s, 0)
  {
    StripStays(s, 0);
  }

  // Lines.

  function Lines(s: string): nat {
    |Newlines(s, 0, |s|)|
  }

  /** The text ends inside a block comment. */
  predicate Unterminated(s: string, i: nat)
    requires i <= |s|
    decreases |s| - i
  {
    i < |s| && if KindAt(s, i) == Block && !Terminated(s, i + 2) then true else Unterminated(s, End(s, i))
  }

  predicate Terminated(s: string, i: nat)
    requires i <= |s|
    decreases |s| - i
  {
    i < |s| && (Closes(s, i) || Terminated(s, i + 1))
  }

  lemma {:induction false} BlockEnds(s: string, i: nat)
    requires i <= |s|
    ensures if Terminated(s, i) then BlockEnd(s, i) >= i + 2 && s[BlockEnd(s, i) - 1] == '/' else BlockEnd(s, i) == |s|
    decreases |s| - i
  {
    if i < |s| { BlockEnds(s, i + 1); }
  }

  lemma {:induction false} NewlinesSplit(s: string, i: nat, j: nat, k: nat)
    requires i <= j <= k <= |s|
    ensures |Newlines(s, i, k)| == |Newlines(s, i, j)| + |Newlines(s, j, k)|
    decreases k
  {
    if j < k { NewlinesSplit(s, i, j, k - 1); }
  }

  lemma LinesAdd(a: string, b: string)
    ensures Lines(a + b) == Lines(a) + Lines(b)
  {
    NewlinesSplit(a + b, 0, |a|, |a + b|);
    NewlinesMove(b, 0, |b|, a + b, |a|);
    NewlinesCopied(a, 0, |a|, a + b, 0);
  }

  /** The newlines of a span are those of any copy of it. */
  lemma {:induction false} NewlinesCopied(s: string, i: nat, e: nat, t: string, j: nat)
    requires i <= e <= |s| && j + (e - i) <= |t| && forall k | i <= k < e :: s[k] == t[k - i + j]
    ensures Newlines(t, j, j + (e - i)) == Newlines(s, i, e)
    decreases e
  {
    if i < e {
      assert s[e - 1] == t[e - 1 - i + j];
      NewlinesCopied(s, i, e - 1, t, j);
    }
  }

  lemma {:induction false} AllLines(s: string, j: nat)
    requires OnlyNewlines(s) && j <= |s|
    ensures |Newlines(s, 0, j)| == j
    decreases j
  {
    if j > 0 { AllLines(s, j - 1); }
  }

  lemma {:induction false} NoLines(s: string, i: nat, j: nat)
    requires i <= |s| && i <= j <= LineEnd(s, i)
    ensures Newlines(s, i, j) == ""
    decreases |s| - i
  {
    if i < j {
      NoLines(s, i + 1, j);
      NewlinesSplit(s, i, i + 1, j);
      assert Newlines(s, i, i + 1) == "";
    }
  }

  /** What a token leaves behind has its newlines, but for one at the very end of an
      unterminated block comment. */
  lemma ShownLines(s: string, i: nat)
    requires i < |s|
    ensures Lines(Shown(s, i)) == |Newlines(s, i, End(s, i))|
              - if KindAt(s, i) == Block && !Terminated(s, i + 2) && s[|s| - 1] == '\n' then 1 else 0
  {
    var e := End(s, i);
    match KindAt(s, i)
    case Line =>
      NoLines(s, i + 2, e);
      NewlinesSplit(s, i, i + 2, e);
      NoneAtOpening(s, i);
    case Block =>
      BlockEnds(s, i + 2);
      NewlinesAreNewlines(s, i, e - 1);
      AllLines(Shown(s, i), |Shown(s, i)|);
    case Literal => NewlinesCopied(s, i, e, s[i..e], 0);
    case Plain => NewlinesCopied(s, i, e, s[i..e], 0);
  }

  lemma {:induction false} StripLines(s: string, i: nat)
    requires i <= |s|
    ensures Lines(Strip(s, i)) == |Newlines(s, i, |s|)| - if Unterminated(s, i) && s[|s| - 1] == '\n' then 1 else 0
    decreases |s| - i
  {
    if i < |s| {
      var e := End(s, i);
      StripLines(s, e);
      ShownLines(s, i);
      NewlinesSplit(s, i, e, |s|);
      LinesAdd(Shown(s, i), Strip(s, e));
      if KindAt(s, i) == Block { BlockEnds(s, i + 2); }
    }
  }

  /** Every newline survives, so that a parse error names the right line, exactly when the
      text does not end with a newline inside a block comment. */
  lemma LinesKept(s: string)
    ensures Lines(Strip(s, 0)) == Lines(s) <==> !(Unterminated(s, 0) && s[|s| - 1] == '\n')
  {
    StripLines(s, 0);
  }

  /** A newline that the source promises to keep and loses: the last character of a block
      comment that never closes. */
  lemma NewlineLost()
    ensures Unterminated("/*\n", 0) && Lines(Strip("/*\n", 0)) != Lines("/*\n")
  {
    var s := "/*\n";
    assert KindAt(s, 0) == Block;
    assert !Terminated(s, 2) by { assert !Closes(s, 2); }
    LinesKept(s);
  }

  // The tokens, by what stands in the text.

  predicate Stands(s: string, i: nat, piece: string) {
    i + |piece| <= |s| && s[i..i + |piece|] == piece
  }

  lemma TwoStand(s: string, i: nat, a: char, b: char)
    ensures Stands(s, i, [a, b]) <==> i + 1 < |s| && s[i] == a && s[i + 1] == b
  {
    if i + 1 < |s| { assert s[i..i + 2] == [s[i], s[i + 1]]; }
  }

  /** Inside the literal that opens at `i`, the character at `p` is escaped: right before it
      stands a backslash that is not. */
  predicate Escaped(s: string, i: nat, p: nat)
    requires i < p <= |s|
    decreases p
  {
    p > i + 1 && s[p - 1] == '\\' && !Escaped(s, i, p - 1)
  }

  /** A quote that closes the literal that opens at `i`. */
  predicate Quotes(s: string, i: nat, p: nat)
    requires i < p
  {
    p < |s| && s[p] == '"' && !Escaped(s, i, p)
  }

  lemma {:induction false} LiteralIs(s: string, i: nat, p: nat, escaped: bool)
    requires i < p <= |s| && (escaped <==> Escaped(s, i, p))
    ensures var e := LiteralEnd(s, p, escaped);
            && p <= e <= |s|
            && (forall q: nat | p <= q && q + 1 < e :: !Quotes(s, i, q))
            && (p < |s| ==> (p < e && (Quotes(s, i, e - 1) || e == |s|)))
            && (p == |s| ==> e == |s|)
    decreases |s| - p
  {
    if p < |s| {
      var e := LiteralEnd(s, p, escaped);
      if !Quotes(s, i, p) {
        LiteralIs(s, i, p + 1, Escaped(s, i, p + 1));
        forall q: nat | p <= q && q + 1 < e ensures !Quotes(s, i, q) {
          if q > p { assert p + 1 <= q; }
        }
      }
    }
  }

  lemma {:induction false} LineIs(s: string, i: nat)
    requires i <= |s|
    ensures forall q | i <= q < LineEnd(s, i) :: s[q] != '\n'
    decreases |s| - i
  {
    if i < |s| && s[i] != '\n' { LineIs(s, i + 1); }
  }

  lemma {:induction false} BlockIs(s: string, i: nat)
    requires i <= |s|
    ensures var e := BlockEnd(s, i);
            if exists q: nat :: i <= q && Stands(s, q, "*/") then
              i + 2 <= e && Stands(s, e - 2, "*/") && forall q: nat | i <= q < e - 2 :: !Stands(s, q, "*/")
            else e == |s|
    decreases |s| - i
  {
    TwoStand(s, i, '*', '/');
    assert ['*', '/'] == "*/";
    if i + 1 < |s| {
      if !Closes(s, i) {
        BlockIs(s, i + 1);
        if q: nat :| i <= q && Stands(s, q, "*/") { assert i + 1 <= q; }
      }
    }
  }

  /** How many newlines stand between two positions. */
  function NewlinesIn(s: string, i: nat, j: nat): set<nat>
    requires i <= j <= |s|
  {
    set k: nat | i <= k < j && s[k] == '\n'
  }

  lemma {:induction false} NewlinesAre(s: string, i: nat, j: nat)
    requires i <= j <= |s|
    ensures |Newlines(s, i, j)| == |NewlinesIn(s, i, j)|
    ensures forall k | 0 <= k < |Newlines(s, i, j)| :: Newlines(s, i, j)[k] == '\n'
    decreases j
  {
    if i < j {
      NewlinesAre(s, i, j - 1);
      if s[j - 1] == '\n' {
        assert NewlinesIn(s, i, j) == NewlinesIn(s, i, j - 1) + {j - 1};
      } else {
        assert NewlinesIn(s, i, j) == NewlinesIn(s, i, j - 1);
      }
    }
  }

  /** A literal goes from its quote to the first one that is not escaped, and stays; */
  lemma LiteralToken(s: string, i: nat)
    requires i < |s| && s[i] == '"'
    ensures var e := End(s, i);
            && Shown(s, i) == s[i..e] && (e == |s| || (i + 1 < e && Quotes(s, i, e - 1)))
            && forall q: nat | i < q && q + 1 < e :: !Quotes(s, i, q)
  {
    LiteralIs(s, i, i + 1, false);
  }

  /** a line comment goes up to its newline, and vanishes; */
  lemma LineToken(s: string, i: nat)
    requires Stands(s, i, "//")
    ensures var e := End(s, i);
            && Shown(s, i) == "" && i + 2 <= e <= |s| && (e == |s| || s[e] == '\n')
            && forall q | i + 2 <= q < e :: s[q] != '\n'
  {
    assert ['/', '/'] == "//";
    TwoStand(s, i, '/', '/');
    LineIs(s, i + 2);
  }

  /** a block comment goes up to the first closing behind its opening, and leaves its
      newlines, that of a closing that never comes excepted when it is the last byte; */
  lemma BlockToken(s: string, i: nat)
    requires Stands(s, i, "/*")
    ensures var e := End(s, i);
            && (if exists q: nat :: i + 2 <= q && Stands(s, q, "*/") then
                  i + 4 <= e && Stands(s, e - 2, "*/") && forall q: nat | i + 2 <= q < e - 2 :: !Stands(s, q, "*/")
                else e == |s|)
            && |Shown(s, i)| == |NewlinesIn(s, i, e - 1)|
            && forall k | 0 <= k < |Shown(s, i)| :: Shown(s, i)[k] == '\n'
  {
    assert ['/', '*'] == "/*";
    TwoStand(s, i, '/', '*');
    BlockIs(s, i + 2);
    NewlinesAre(s, i, End(s, i) - 1);
  }

  /** and any other character stays. */
  lemma PlainToken(s: string, i: nat)
    requires i < |s| && s[i] != '"' && !Stands(s, i, "//") && !Stands(s, i, "/*")
    ensures End(s, i) == i + 1 && Shown(s, i) == [s[i]]
  {
    assert ['/', '/'] == "//" && ['/', '*'] == "/*";
    TwoStand(s, i, '/', '/');
    TwoStand(s, i, '/', '*');
    assert s[i..i + 1] == [s[i]];
  }

  /** Lines are counted by their newlines. */
  lemma LinesAre(s: string)
    ensures Lines(s) == |set k: nat | k < |s| && s[k] == '\n'|
  {
    NewlinesAre(s, 0, |s|);
    assert NewlinesIn(s, 0, |s|) == set k: nat | k < |s| && s[k] == '\n';
  }

  const EXAMPLE := "a//b\n/*c\n*/\"/\\\"/\"d"

  predicate Spells(s: string) {
    && |s| == 18
    && s[0] == 'a' && s[1] == '/' && s[2] == '/' && s[3] == 'b' && s[4] == '\n' && s[5] == '/' && s[6] == '*' &&
       s[7] == 'c' && s[8] == '\n' && s[9] == '*' && s[10] == '/' && s[11] == '"' && s[12] == '/' && s[13] ==
       '\\' && s[14] == '"' && s[15] == '/' && s[16] == '"' && s[17] == 'd'
  }

  lemma ExampleSpells()
    ensures Spells(EXAMPLE)
  {
    var s := EXAMPLE;
    assert |s| == 18;
    assert s[0] == 'a' && s[1] == '/' && s[2] == '/' && s[3] == 'b' && s[4] == '\n' && s[5] == '/';
    assert s[6] == '*' && s[7] == 'c' && s[8] == '\n' && s[9] == '*' && s[10] == '/' && s[11] == '"';
    assert s[12] == '/' && s[13] == '\\' && s[14] == '"' && s[15] == '/' && s[16] == '"' && s[17] == 'd';
  }

  lemma CommentTokens(s: string)
    requires Spells(s)
    ensures Shown(s, 0) == "a" && End(s, 0) == 1
    ensures Shown(s, 1) == "" && End(s, 1) == 4
    ensures Shown(s, 4) == "\n" && End(s, 4) == 5
  {
    assert s[0..1] == "a" && s[4..5] == "\n";
    assert LineEnd(s, 4) == 4;
    assert LineEnd(s, 3) == 4;
  }

  lemma BlockTokens(s: string)
    requires Spells(s)
    ensures Shown(s, 5) == "\n" && End(s, 5) == 11
  {
    assert BlockEnd(s, 9) == 11;
    assert BlockEnd(s, 8) == 11;
    assert BlockEnd(s, 7) == 11;
    assert Newlines(s, 5, 6) == "";
    assert Newlines(s, 5, 7) == "";
    assert Newlines(s, 5, 8) == "";
    assert Newlines(s, 5, 9) == "\n";
    assert Newlines(s, 5, 10) == "\n";
  }

  lemma LiteralTokens(s: string)
    requires Spells(s)
    ensures Shown(s, 11) == "\"/\\\"/\"" && End(s, 11) == 17
    ensures Shown(s, 17) == "d" && End(s, 17) == 18
  {
    assert LiteralEnd(s, 16, false) == 17;
    assert LiteralEnd(s, 15, false) == 17;
    assert LiteralEnd(s, 14, true) == 17;
    assert LiteralEnd(s, 13, false) == 17;
    assert LiteralEnd(s, 12, false) == 17;
    assert s[11..17] == ['"', '/', '\\', '"', '/', '"'];
    assert s[17..18] == "d";
  }

  /** A line comment, a block comment over two lines, and a literal with an escaped quote
      between two slashes. */
  method Example() returns (out: string)
    ensures out == "a\n\n\"/\\\"/\"d"
  {
    out := StripComments(EXAMPLE);
    ExampleSpells();
    CommentTokens(EXAMPLE);
    BlockTokens(EXAMPLE);
    LiteralTokens(EXAMPLE);
    StripOne(EXAMPLE, 17);
    StripOne(EXAMPLE, 11);
    StripOne(EXAMPLE, 5);
    StripOne(EXAMPLE, 4);
    StripOne(EXAMPLE, 1);
    StripOne(EXAMPLE, 0);
  }

  lemma StripOne(s: string, i: nat)
    requires i < |s|
    ensures Strip(s, i) == Shown(s, i) + Strip(s, End(s, i))
    ensures End(s, i) == |s| ==> Strip(s, i) == Shown(s, i)
  {
    assert Shown(s, i) + "" == Shown(s, i);
  }
}
