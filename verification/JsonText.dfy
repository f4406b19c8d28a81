/** JSON string scalars (section 7 of RFC 8259) as `serde_json` writes and reads them: the
    quoting the archive writer applies and the reader undoes. */
module JsonText {
  import opened Wrappers
  import opened Text

  // ----- writing

  function EscapeChar(c: char): string {
    var n := c as int;
    if c == '"' then "\\\""
    else if c == '\\' then "\\\\"
    else if n == 0x8 then "\\b"
    else if n == 0x9 then "\\t"
    else if n == 0xA then "\\n"
    else if n == 0xC then "\\f"
    else if n == 0xD then "\\r"
    else if n < 0x20 then "\\u00" + [HexDigit(n / 16), HexDigit(n % 16)]
    else [c]
  }

  function Escape(s: string): string {
    if s == [] then "" else EscapeChar(s[0]) + Escape(s[1..])
  }

  /** `serde_json::to_string` on a string. */
  function Quote(s: string): string {
    "\"" + Escape(s) + "\""
  }

  // ----- reading

  function Hex4(s: string): Option<nat> {
    if |s| < 4 then None
    else match (HexValue(s[0]), HexValue(s[1]), HexValue(s[2]), HexValue(s[3]))
      case (Some(a), Some(b), Some(c), Some(d)) => Some(4096 * a + 256 * b + 16 * c + d)
      case _ => None
  }

  /** The character an escape denotes and the text after it; `s` starts behind the backslash. */
  function UnescapeOne(s: string): (r: Option<(char, string)>)
    ensures r.Some? ==> |r.value.1| < |s|
  {
    if s == [] then None
    else match s[0]
      case '"' => Some(('"', s[1..]))
      case '\\' => Some(('\\', s[1..]))
      case '/' => Some(('/', s[1..]))
      case 'b' => Some((8 as char, s[1..]))
      case 't' => Some((9 as char, s[1..]))
      case 'n' => Some((10 as char, s[1..]))
      case 'f' => Some((12 as char, s[1..]))
      case 'r' => Some((13 as char, s[1..]))
      case 'u' => UnescapeUnicode(s[1..])
      case _ => None
  }

  /** `\uXXXX`; a high surrogate must be followed by an escaped low one, and a lone low one is
      refused. */
  function UnescapeUnicode(s: string): (r: Option<(char, string)>)
    ensures r.Some? ==> |r.value.1| < |s|
  {
    match Hex4(s)
    case None => None
    case Some(n) =>
      if n < 0xD800 || 0xE000 <= n < 0x1_0000 then Some((n as char, s[4..]))
      else if n >= 0xDC00 then None
      else if |s| < 10 || s[4] != '\\' || s[5] != 'u' then None
      else match Hex4(s[6..])
        case Some(low) =>
          if 0xDC00 <= low < 0xE000 && n < 0xDC00
          then Some(((0x1_0000 + 0x400 * (n - 0xD800) + (low - 0xDC00)) as char, s[10..]))
          else None
        case None => None
  }

  /** The string up to its closing quote and the text behind that quote. */
  function Unescape(s: string): Option<(string, string)>
    decreases |s|
  {
    if s == [] then None
    else if s[0] == '"' then Some(("", s[1..]))
    else if s[0] == '\\' then
      match UnescapeOne(s[1..])
      case None => None
      case Some((c, rest)) => Prepend(c, Unescape(rest))
    else if s[0] as int < 0x20 then None
    else Prepend(s[0], Unescape(s[1..]))
  }

  function Prepend(c: char, tail: Option<(string, string)>): Option<(string, string)> {
    match tail
    case None => None
    case Some((text, rest)) => Some(([c] + text, rest))
  }

  predicate IsJsonSpace(c: char) {
    c == ' ' || c == '\t' || c == '\n' || c == '\r'
  }

  function SkipJsonSpace(s: string): string {
    if s != [] && IsJsonSpace(s[0]) then SkipJsonSpace(s[1..]) else s
  }

  /** `serde_json::from_str::<String>`: one string and nothing but spaces around it. */
  function Unquote(s: string): Option<string> {
    var start := SkipJsonSpace(s);
    if start == [] || start[0] != '"' then None
    else match Unescape(start[1..])
      case None => None
      case Some((text, rest)) => if SkipJsonSpace(rest) == [] then Some(text) else None
  }

  // ----- reading inverts writing

  lemma ShortEscapeReads(c: char, tail: string)
    requires |EscapeChar(c)| == 2
    ensures EscapeChar(c)[0] == '\\' && UnescapeOne([EscapeChar(c)[1]] + tail) == Some((c, tail))
  {
    hide Hex4, UnescapeUnicode;
    assert ([EscapeChar(c)[1]] + tail)[1..] == tail;
  }

  lemma UnicodeEscapeReads(c: char, tail: string)
    requires |EscapeChar(c)| > 2
    ensures EscapeChar(c)[0] == '\\' && UnescapeOne(EscapeChar(c)[1..] + tail) == Some((c, tail))
  {
    var n := c as int;
    var hex := "00" + [HexDigit(n / 16), HexDigit(n % 16)];
    var after := EscapeChar(c)[1..] + tail;
    assert after[0] == 'u' && after[1..] == hex + tail;
    HexValueOfDigit(n / 16);
    HexValueOfDigit(n % 16);
    assert Hex4(hex + tail) == Some(n);
    assert (hex + tail)[4..] == tail;
    hide Hex4, HexDigit;
  }

  lemma UnescapeStep(s: string, c: char, rest: string)
    requires s != "" && s[0] == '\\' && UnescapeOne(s[1..]) == Some((c, rest))
    ensures Unescape(s) == Prepend(c, Unescape(rest))
  {
    hide UnescapeOne, Prepend;
  }

  lemma UnescapeOfEscapeChar(c: char, tail: string)
    ensures Unescape(EscapeChar(c) + tail) == Prepend(c, Unescape(tail))
  {
    hide Prepend, UnescapeOne;
    var e := EscapeChar(c);
    var s := e + tail;
    if e == [c] {
      assert s[0] == c && s[1..] == tail;
    } else {
      assert s[1..] == e[1..] + tail;
      if |e| == 2 {
        ShortEscapeReads(c, tail);
        assert e[1..] == [e[1]];
      } else {
        UnicodeEscapeReads(c, tail);
      }
      hide EscapeChar, Unescape;
      UnescapeStep(s, c, tail);
    }
  }

  lemma {:induction false} UnescapeOfEscape(s: string, tail: string)
    ensures Unescape(Escape(s) + "\"" + tail) == Some((s, tail))
  {
    if s == [] {
      assert Escape(s) + "\"" + tail == "\"" + tail;
    } else {
      var rest := Escape(s[1..]) + "\"" + tail;
      assert Escape(s) + "\"" + tail == EscapeChar(s[0]) + rest;
      UnescapeOfEscapeChar(s[0], rest);
      UnescapeOfEscape(s[1..], tail);
      assert [s[0]] + s[1..] == s;
    }
  }

  /** Every string survives being written as a JSON scalar and read back. */
  lemma UnquoteOfQuote(s: string)
    ensures Unquote(Quote(s)) == Some(s)
  {
    UnescapeOfEscape(s, "");
    assert Quote(s)[1..] == Escape(s) + "\"" + "";
  }

  // ----- a written scalar stays on one line

  lemma EscapeCharHasNoControl(c: char)
    ensures forall d :: d in EscapeChar(c) ==> d as int >= 0x20
  {
    var n := c as int;
    if n < 0x20 && |EscapeChar(c)| > 2 {
      assert HexDigit(n / 16) >= '0' && HexDigit(n % 16) >= '0';
    }
  }

  lemma {:induction false} EscapeHasNoControl(s: string)
    ensures forall d :: d in Escape(s) ==> d as int >= 0x20
  {
    if s != [] {
      EscapeCharHasNoControl(s[0]);
      EscapeHasNoControl(s[1..]);
    }
  }

  lemma QuoteIsPlainLine(s: string)
    ensures IsPlainLine(Quote(s)) && Quote(s) != ""
  {
    EscapeHasNoControl(s);
  }
}
