/** Writing a path as a TOML basic string. A Dafny character is a Unicode scalar value, so
    a string is exactly a text that is valid UTF-8. */
module Toml {
  import opened Options

  function Digit(n: nat): char
    requires n < 16
  {
    if n < 10 then '0' + n as char else 'A' + (n - 10) as char
  }

  function DigitValue(c: char): Option<nat> {
    if '0' <= c <= '9' then Some((c - '0') as nat)
    else if 'A' <= c <= 'F' then Some((c - 'A') as nat + 10)
    else if 'a' <= c <= 'f' then Some((c - 'a') as nat + 10)
    else None
  }

  /** Control characters that TOML forbids raw in a basic string. */
  predicate IsControl(c: char) {
    (c < ' ' && c != '\t') || c == '\U{7F}'
  }

  function Escape(c: char): string {
    match c
    case '"' => "\\\""
    case '\\' => "\\\\"
    case '\U{8}' => "\\b"
    case '\t' => "\\t"
    case '\n' => "\\n"
    case '\U{C}' => "\\f"
    case '\r' => "\\r"
    case _ => if IsControl(c) then "\\u00" + [Digit(c as nat / 16), Digit(c as nat % 16)] else [c]
  }

  function Body(s: string): string {
    if |s| == 0 then "" else Body(s[..|s| - 1]) + Escape(s[|s| - 1])
  }

  /** tomlString; the bytes of a text that is not UTF-8 are refused. */
  method TomlString(text: Option<string>) returns (r: Option<string>)
    ensures r == if text.None? then None else Some("\"" + Body(text.value) + "\"")
  {
    if text.None? { return None; }
    var s, b := text.value, "\"";
    for i := 0 to |s|
      invariant b == "\"" + Body(s[..i])
    {
      assert s[..i + 1][..i] == s[..i];
      b := b + Escape(s[i]);
    }
    assert s[..|s|] == s;
    return Some(b + "\"");
  }

  // Section "String" of TOML v1.0.0.

  function Hex(s: string, n: nat): Option<nat>
    requires n <= |s|
  {
    if n == 0 then Some(0)
    else
      var front, last := Hex(s, n - 1), DigitValue(s[n - 1]);
      if front.None? || last.None? then None else Some(16 * front.value + last.value)
  }

  predicate IsScalar(n: nat) {
    n < 0xD800 || 0xE000 <= n < 0x11_0000
  }

  /** One character of a basic string: what it stands for and how long it is. */
  function Character(s: string): Option<(char, nat)>
    requires |s| > 0
  {
    if s[0] != '\\' then if s[0] == '"' || IsControl(s[0]) then None else Some((s[0], 1))
    else if |s| < 2 then None
    else match s[1]
      case 'b' => Some(('\U{8}', 2))
      case 't' => Some(('\t', 2))
      case 'n' => Some(('\n', 2))
      case 'f' => Some(('\U{C}', 2))
      case 'r' => Some(('\r', 2))
      case '"' => Some(('"', 2))
      case '\\' => Some(('\\', 2))
      case 'u' => CodePoint(s[2..], 4)
      case 'U' => CodePoint(s[2..], 8)
      case _ => None
  }

  function CodePoint(s: string, n: nat): Option<(char, nat)> {
    if |s| < n then None
    else
      var code := Hex(s, n);
      if code.None? || !IsScalar(code.value) then None else Some((code.value as char, n + 2))
  }

  function Characters(s: string): Option<string>
    decreases |s|
  {
    if |s| == 0 then Some("")
    else
      var c := Character(s);
      if c.None? || c.value.1 > |s| || c.value.1 == 0 then None
      else
        var rest := Characters(s[c.value.1..]);
        if rest.None? then None else Some([c.value.0] + rest.value)
  }

  /** The text that a basic string stands for. */
  function Decode(s: string): Option<string> {
    if |s| < 2 || s[0] != '"' || s[|s| - 1] != '"' then None else Characters(s[1..|s| - 1])
  }

  lemma EscapeDecodes(c: char, rest: string)
    ensures |Escape(c)| > 0 && Character(Escape(c) + rest) == Some((c, |Escape(c)|))
  {
    var s := Escape(c) + rest;
    if IsControl(c) && c !in {'\U{8}', '\n', '\U{C}', '\r'} {
      var n := c as nat;
      var tail := s[2..];
      assert tail[0] == '0' && tail[1] == '0' && tail[2] == Digit(n / 16) && tail[3] == Digit(n % 16);
      assert Hex(tail, 1) == Some(0) && Hex(tail, 2) == Some(0) && Hex(tail, 3) == Some(n / 16)
          && Hex(tail, 4) == Some(n);
    }
  }

  lemma EscapeRead(c: char, rest: string, text: string)
    requires Characters(rest) == Some(text)
    ensures Characters(Escape(c) + rest) == Some([c] + text)
  {
    EscapeDecodes(c, rest);
    assert (Escape(c) + rest)[|Escape(c)|..] == rest;
  }

  lemma Grouped(a: string, b: string, c: string)
    ensures a + b + c == a + (b + c)
  {
  }

  lemma BodyLast(s: string, rest: string, text: string)
    requires |s| > 0
    ensures var front, c := s[..|s| - 1], s[|s| - 1];
            && Body(s) + rest == Body(front) + (Escape(c) + rest)
            && s + text == front + ([c] + text)
  {
    var front, c := s[..|s| - 1], s[|s| - 1];
    Grouped(Body(front), Escape(c), rest);
    Grouped(front, [c], text);
    assert front + [c] == s;
  }

  lemma {:induction false} BodyDecodes(s: string, rest: string, text: string)
    requires Characters(rest) == Some(text)
    ensures Characters(Body(s) + rest) == Some(s + text)
    decreases |s|
  {
    if |s| == 0 {
      assert Body(s) + rest == rest && s + text == text;
    } else {
      var front, c := s[..|s| - 1], s[|s| - 1];
      EscapeRead(c, rest, text);
      BodyDecodes(front, Escape(c) + rest, [c] + text);
      BodyLast(s, rest, text);
    }
  }

  /** Read back as TOML, what is written for any text is that text. */
  lemma RoundTrip(s: string)
    ensures Decode("\"" + Body(s) + "\"") == Some(s)
  {
    var t := "\"" + Body(s) + "\"";
    BodyDecodes(s, "", "");
    assert t[1..|t| - 1] == Body(s) == Body(s) + "";
    assert s + "" == s;
  }

  /** What stands for each character that cannot stand for itself. */
  lemma EscapesAre()
    ensures Escape('"') == ['\\', '"'] && Escape('\\') == ['\\', '\\']
    ensures Escape('\U{8}') == ['\\', 'b'] && Escape('\t') == ['\\', 't'] && Escape('\n') == ['\\', 'n']
    ensures Escape('\U{C}') == ['\\', 'f'] && Escape('\r') == ['\\', 'r']
    ensures Escape('\U{7}') == ['\\', 'u', '0', '0', '0', '7'] && Escape('\U{B}') == ['\\', 'u', '0', '0', '0', 'B']
    ensures Escape('\U{1F}') == ['\\', 'u', '0', '0', '1', 'F'] && Escape('\U{7F}') == ['\\', 'u', '0', '0', '7', 'F']
  {
  }

  /** No control character is ever written raw. */
  lemma {:induction false} NothingRaw(s: string)
    ensures forall c | c in Body(s) :: ' ' <= c && c != '\U{7F}'
    decreases |s|
  {
    if s != [] {
      NothingRaw(s[..|s| - 1]);
      EscapeShows(s[|s| - 1]);
    }
  }

  lemma EscapeShows(c: char)
    ensures forall d | d in Escape(c) :: ' ' <= d && d != '\U{7F}'
  {
  }

  predicate NeedsNone(c: char) {
    c != '"' && c != '\\' && ' ' <= c && c != '\U{7F}'
  }

  lemma EscapeStays(c: char)
    requires NeedsNone(c)
    ensures Escape(c) == [c]
  {
  }

  /** A text that needs no escape is written as it is. */
  lemma {:induction false} PlainStays(s: string)
    requires forall k | 0 <= k < |s| :: NeedsNone(s[k])
    ensures Body(s) == s
    decreases |s|
  {
    if s != [] {
      PlainStays(s[..|s| - 1]);
      EscapeStays(s[|s| - 1]);
      assert s == s[..|s| - 1] + [s[|s| - 1]];
    }
  }

  /** The digits of an escape, and the numbers that stand for characters. */
  lemma ReadsEscapes()
    ensures DigitValue('0') == Some(0) && DigitValue('9') == Some(9) && DigitValue('A') == Some(10)
    ensures DigitValue('F') == Some(15) && DigitValue('a') == Some(10) && DigitValue('f') == Some(15)
    ensures DigitValue('G') == DigitValue('g') == DigitValue('@') == DigitValue('`') == DigitValue('/') == None
    ensures IsScalar(0) && IsScalar(0xD7FF) && !IsScalar(0xD800) && !IsScalar(0xDFFF) && IsScalar(0xE000)
    ensures IsScalar(0x10_FFFF) && !IsScalar(0x11_0000)
  {
  }
}
