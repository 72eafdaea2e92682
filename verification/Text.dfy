/** The few string functions the trace verifiers use. */
module Text {

  predicate At(s: string, p: string, i: int) {
    0 <= i && i + |p| <= |s| && s[i..i + |p|] == p
  }

  predicate Contains(s: string, p: string) {
    exists i | 0 <= i <= |s| :: At(s, p, i)
  }

  /** The first place `p` is found at or after `i`, or -1. */
  function IndexFrom(s: string, p: string, i: nat): (r: int)
    requires i <= |s|
    ensures r >= 0 ==> i <= r && At(s, p, r)
    ensures forall k | i <= k && (r < 0 || k < r) :: !At(s, p, k)
    decreases |s| - i
  {
    if At(s, p, i) then i else if i == |s| then -1 else IndexFrom(s, p, i + 1)
  }

  function Index(s: string, p: string): int {
    IndexFrom(s, p, 0)
  }

  /** Occurrences counted from the left without overlap. */
  function Count(s: string, p: string): nat
    requires |p| > 0
    decreases |s|
  {
    var i := Index(s, p);
    if i < 0 then 0 else 1 + Count(s[i + |p|..], p)
  }

  predicate IsSpace(c: char) {
    || c in {' ', '\t', '\n', '\r', '\U{0B}', '\U{0C}', '\U{85}', '\U{A0}', '\U{1680}', '\U{2028}', '\U{2029}',
        '\U{202F}', '\U{205F}', '\U{3000}'}
    || '\U{2000}' <= c <= '\U{200A}'
  }

  function TrimLeft(s: string): string {
    if s != [] && IsSpace(s[0]) then TrimLeft(s[1..]) else s
  }

  function TrimRight(s: string): string {
    if s != [] && IsSpace(s[|s| - 1]) then TrimRight(s[..|s| - 1]) else s
  }

  function TrimSpace(s: string): string {
    TrimRight(TrimLeft(s))
  }

  predicate IsBar(c: char) {
    c == '█' || c == '░'
  }

  function BarRun(s: string): string {
    if s != [] && IsBar(s[0]) then [s[0]] + BarRun(s[1..]) else []
  }

  /** The first bar of the first line that has one. */
  function ProgressBar(s: string): string {
    if s == [] then [] else if IsBar(s[0]) then BarRun(s) else ProgressBar(s[1..])
  }

  predicate AllBars(s: string) {
    forall k | 0 <= k < |s| :: IsBar(s[k])
  }

  lemma {:induction false} RunIsPrefix(bar: string, after: string)
    requires AllBars(bar) && (after != [] ==> !IsBar(after[0]))
    ensures BarRun(bar + after) == bar
    decreases |bar|
  {
    if |bar| == 0 {
      assert bar + after == after;
    } else {
      assert (bar + after)[1..] == bar[1..] + after;
      RunIsPrefix(bar[1..], after);
    }
  }

  /** The first unbroken run of bar characters, whatever lines come before or after. */
  lemma {:induction false} ProgressBarIsFirstRun(before: string, bar: string, after: string)
    requires (forall k | 0 <= k < |before| :: !IsBar(before[k]))
    requires bar != [] && AllBars(bar) && (after != [] ==> !IsBar(after[0]))
    ensures ProgressBar(before + bar + after) == bar
    decreases |before|
  {
    var s := before + bar + after;
    if |before| == 0 {
      assert s == bar + after;
      RunIsPrefix(bar, after);
    } else {
      assert s[1..] == before[1..] + bar + after;
      ProgressBarIsFirstRun(before[1..], bar, after);
    }
  }

  // The same, without the functions.

  /** `piece` is somewhere in `text`. */
  ghost predicate Within(text: string, piece: string) {
    exists before, after :: text == before + piece + after
  }

  lemma ContainsIs(s: string, p: string)
    ensures Contains(s, p) <==> Within(s, p)
  {
    if Contains(s, p) {
      var i :| 0 <= i <= |s| && At(s, p, i);
      assert s == s[..i] + p + s[i + |p|..];
    }
    if before, after :| s == before + p + after {
      assert s[|before|..|before| + |p|] == p;
      assert At(s, p, |before|);
    }
  }

  /** The characters with the Unicode property White_Space. */
  const WHITE: string :=
      "\t\n\U{B}\U{C}\r \U{85}\U{A0}\U{1680}"
    + "\U{2000}\U{2001}\U{2002}\U{2003}\U{2004}\U{2005}\U{2006}\U{2007}\U{2008}\U{2009}\U{200A}"
    + "\U{2028}\U{2029}\U{202F}\U{205F}\U{3000}"

  lemma SpaceIs(c: char)
    ensures IsSpace(c) <==> c in WHITE
  {
    if '\U{2000}' <= c <= '\U{200A}' { assert WHITE[c as int - 0x2000 + 9] == c; }
    if IsSpace(c) && !('\U{2000}' <= c <= '\U{200A}') { SpaceAt(c); }
  }

  lemma SpaceAt(c: char)
    requires IsSpace(c) && !('\U{2000}' <= c <= '\U{200A}')
    ensures c in WHITE
  {
    assert WHITE[0] == '\t' && WHITE[1] == '\n' && WHITE[2] == '\U{0B}' && WHITE[3] == '\U{0C}' && WHITE[4] == '\r';
    assert WHITE[5] == ' ' && WHITE[6] == '\U{85}' && WHITE[7] == '\U{A0}' && WHITE[8] == '\U{1680}';
    assert WHITE[20] == '\U{2028}' && WHITE[21] == '\U{2029}' && WHITE[22] == '\U{202F}';
    assert WHITE[23] == '\U{205F}' && WHITE[24] == '\U{3000}';
  }

  ghost predicate AllWhite(s: string) {
    forall c | c in s :: c in WHITE
  }

  ghost predicate AllSpace(s: string) {
    forall k | 0 <= k < |s| :: IsSpace(s[k])
  }

  lemma WhiteIs(s: string)
    ensures AllWhite(s) <==> AllSpace(s)
  {
    forall c ensures IsSpace(c) <==> c in WHITE { SpaceIs(c); }
    if AllSpace(s) {
      forall c | c in s ensures c in WHITE { var k :| 0 <= k < |s| && s[k] == c; }
    }
    if AllWhite(s) {
      forall k | 0 <= k < |s| ensures IsSpace(s[k]) { assert s[k] in s; }
    }
  }

  /** Trimming on the left drops the first `k` characters, all white. */
  lemma {:induction false} LeftCut(s: string) returns (k: nat)
    ensures k <= |s| && TrimLeft(s) == s[k..] && AllSpace(s[..k])
    decreases |s|
  {
    if s != [] && IsSpace(s[0]) {
      var rest := s[1..];
      var j := LeftCut(rest);
      k := j + 1;
      assert rest[j..] == s[k..];
      assert s[..k] == [s[0]] + rest[..j];
    } else {
      k := 0;
      assert s[0..] == s;
    }
  }

  lemma {:induction false} RightCut(s: string) returns (k: nat)
    ensures k <= |s| && TrimRight(s) == s[..k] && AllSpace(s[k..])
    decreases |s|
  {
    if s != [] && IsSpace(s[|s| - 1]) {
      var front := s[..|s| - 1];
      k := RightCut(front);
      assert front[..k] == s[..k];
      assert s[k..] == front[k..] + [s[|s| - 1]];
    } else {
      k := |s|;
      assert s[..k] == s;
    }
  }

  lemma {:induction false} LeftDrops(before: string, s: string)
    requires AllSpace(before) && s != [] && !IsSpace(s[0])
    ensures TrimLeft(before + s) == s
    decreases |before|
  {
    if before == [] {
      assert before + s == s;
    } else {
      assert (before + s)[1..] == before[1..] + s;
      LeftDrops(before[1..], s);
    }
  }

  lemma {:induction false} RightDrops(s: string, after: string)
    requires AllSpace(after) && s != [] && !IsSpace(s[|s| - 1])
    ensures TrimRight(s + after) == s
    decreases |after|
  {
    if after == [] {
      assert s + after == s;
    } else {
      var n := |after| - 1;
      assert (s + after)[..|s| + n] == s + after[..n];
      RightDrops(s, after[..n]);
    }
  }

  /** Trimming leaves `core` exactly when it stands between white space. */
  ghost predicate Between(s: string, core: string) {
    exists before, after :: Stretched(s, before, core, after)
  }

  ghost predicate Stretched(s: string, before: string, core: string, after: string) {
    s == before + core + after && AllWhite(before) && AllWhite(after)
  }

  lemma TrimmedBetween(s: string, i: nat, j: nat)
    requires i <= |s| && j <= |s| - i && AllSpace(s[..i]) && AllSpace(s[i..][j..])
    ensures Stretched(s, s[..i], s[i..][..j], s[i..][j..])
  {
    WhiteIs(s[..i]);
    WhiteIs(s[i..][j..]);
    assert s[i..] == s[i..][..j] + s[i..][j..];
  }

  lemma TrimIs(s: string, core: string)
    requires core != [] && !IsSpace(core[0]) && !IsSpace(core[|core| - 1])
    ensures TrimSpace(s) == core <==> Between(s, core)
  {
    if TrimSpace(s) == core {
      var i := LeftCut(s);
      var j := RightCut(s[i..]);
      TrimmedBetween(s, i, j);
    }
    if before, after :| Stretched(s, before, core, after) {
      WhiteIs(before);
      WhiteIs(after);
      assert s == before + (core + after);
      LeftDrops(before, core + after);
      RightDrops(core, after);
    }
  }

  /** `p` stands at `i`, */
  ghost predicate Stands(s: string, p: string, i: nat) {
    i + |p| <= |s| && s[i..i + |p|] == p
  }

  /** and nowhere before. */
  ghost predicate FirstAt(s: string, p: string, i: int) {
    0 <= i && Stands(s, p, i) && forall k: nat | k < i :: !Stands(s, p, k)
  }

  lemma StandsIs(s: string, p: string, i: nat)
    ensures Stands(s, p, i) <==> At(s, p, i)
  {
  }

  lemma IndexIs(s: string, p: string, i: int)
    ensures 0 <= i && Index(s, p) == i <==> FirstAt(s, p, i)
  {
    var r := Index(s, p);
    if 0 <= i && r == i {
      StandsIs(s, p, r);
      forall k: nat | k < i ensures !Stands(s, p, k) { assert !At(s, p, k); }
    }
    if FirstAt(s, p, i) {
      StandsIs(s, p, i);
      if 0 <= r < i { StandsIs(s, p, r); }
    }
  }

  /** How many places from `i` on `p` stands at. */
  ghost function Places(s: string, p: string, i: nat): nat
    requires i <= |s|
    decreases |s| - i
  {
    if i == |s| then 0 else Places(s, p, i + 1) + if Stands(s, p, i) then 1 else 0
  }

  lemma {:induction false} NoPlaces(s: string, p: string, i: nat, j: nat)
    requires i <= j <= |s| && forall k: nat | i <= k < j :: !Stands(s, p, k)
    ensures Places(s, p, i) == Places(s, p, j)
    decreases j - i
  {
    if i < j { NoPlaces(s, p, i + 1, j); }
  }

  /** A mark of three characters whose first is neither of the others cannot overlap
      itself, so counting without overlap counts every place. */
  lemma {:induction false} CountIs(s: string, p: string, i: nat)
    requires i <= |s| && |p| == 3 && p[0] != p[1] && p[0] != p[2]
    ensures Count(s[i..], p) == Places(s, p, i)
    decreases |s| - i
  {
    var at := Index(s[i..], p);
    NextPlace(s, p, i, at);
    if 0 <= at {
      CountIs(s, p, i + at + 3);
      assert s[i..][at + 3..] == s[i + at + 3..];
    }
  }

  lemma NextPlace(s: string, p: string, i: nat, at: int)
    requires i <= |s| && |p| == 3 && p[0] != p[1] && p[0] != p[2] && at == Index(s[i..], p)
    ensures if at < 0 then Places(s, p, i) == 0
            else i + at + 3 <= |s| && Places(s, p, i) == 1 + Places(s, p, i + at + 3)
  {
    if at < 0 {
      forall k: nat | i <= k < |s| ensures !Stands(s, p, k) { Shifted(s, p, i, k); }
      NoPlaces(s, p, i, |s|);
    } else {
      forall k: nat | i <= k < i + at ensures !Stands(s, p, k) { Shifted(s, p, i, k); }
      Shifted(s, p, i, i + at);
      NoPlaces(s, p, i, i + at);
      NotAgain(s, p, i + at);
    }
  }

  lemma Starts(s: string, p: string, k: nat)
    requires Stands(s, p, k) && p != []
    ensures s[k] == p[0]
  {
    assert s[k..k + |p|][0] == s[k];
  }

  lemma NotAgain(s: string, p: string, j: nat)
    requires Stands(s, p, j) && |p| == 3 && p[0] != p[1] && p[0] != p[2]
    ensures Places(s, p, j) == 1 + Places(s, p, j + 3)
  {
    assert s[j + 1] == s[j..j + 3][1] && s[j + 2] == s[j..j + 3][2];
    forall k: nat | j + 1 <= k < j + 3 ensures !Stands(s, p, k) {
      if Stands(s, p, k) { Starts(s, p, k); }
    }
    NoPlaces(s, p, j + 1, j + 3);
  }

  lemma Shifted(s: string, p: string, i: nat, k: nat)
    requires i <= k <= |s|
    ensures At(s[i..], p, k - i) <==> Stands(s, p, k)
  {
    if k + |p| <= |s| { assert s[i..][k - i..k - i + |p|] == s[k..k + |p|]; }
  }

  /** The first run of bar characters is `bar`. */
  ghost predicate FirstBar(s: string, bar: string) {
    exists before, after :: Frames(s, before, bar, after)
  }

  ghost predicate Frames(s: string, before: string, bar: string, after: string) {
    && s == before + bar + after && bar != []
    && (forall c | c in before :: c != '█' && c != '░') && (forall c | c in bar :: c == '█' || c == '░')
    && (after != [] ==> after[0] != '█' && after[0] != '░')
  }

  lemma {:induction false} RunOf(s: string) returns (after: string)
    ensures s == BarRun(s) + after && AllBars(BarRun(s)) && (after != [] ==> !IsBar(after[0]))
  {
    if s != [] && IsBar(s[0]) {
      after := RunOf(s[1..]);
      assert s == [s[0]] + s[1..];
    } else {
      after := s;
    }
  }

  lemma {:induction false} BarOf(s: string) returns (before: string, after: string)
    requires ProgressBar(s) != []
    ensures s == before + ProgressBar(s) + after && AllBars(ProgressBar(s)) && (after != [] ==> !IsBar(after[0]))
    ensures forall c | c in before :: !IsBar(c)
  {
    if IsBar(s[0]) {
      after := RunOf(s);
      before := [];
      assert s == before + ProgressBar(s) + after;
    } else {
      before, after := BarOf(s[1..]);
      before := [s[0]] + before;
      assert s == [s[0]] + s[1..];
    }
  }

  lemma Framed(s: string, before: string, bar: string, after: string)
    requires s == before + bar + after && bar != [] && (forall c | c in before :: !IsBar(c)) && AllBars(bar)
    requires after != [] ==> !IsBar(after[0])
    ensures Frames(s, before, bar, after)
  {
    forall c | c in before ensures c != '█' && c != '░' { assert !IsBar(c); }
    forall c | c in bar ensures c == '█' || c == '░' {
      var k :| 0 <= k < |bar| && bar[k] == c;
    }
  }

  lemma ProgressBarIs(s: string, bar: string)
    requires bar != []
    ensures ProgressBar(s) == bar <==> FirstBar(s, bar)
  {
    if ProgressBar(s) == bar {
      var before, after := BarOf(s);
      Framed(s, before, bar, after);
    }
    if FirstBar(s, bar) {
      var before, after :| Frames(s, before, bar, after);
      forall k | 0 <= k < |before| ensures !IsBar(before[k]) { assert before[k] in before; }
      forall k | 0 <= k < |bar| ensures IsBar(bar[k]) { assert bar[k] in bar; }
      ProgressBarIsFirstRun(before, bar, after);
    }
  }
}
