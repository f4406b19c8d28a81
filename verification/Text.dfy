/** The string operations of the Rust standard library that the readers and writers rest on:
    trimming, prefix stripping, splitting, first-occurrence search, lines and decimal numbers.
    A string is a sequence of Unicode scalar values. */
module Text {
  import opened Wrappers

  /** Unicode `White_Space`, which `str::trim` removes. */
  predicate IsWhitespace(c: char) {
    var n := c as int;
    || 0x9 <= n <= 0xD || n == 0x20 || n == 0x85 || n == 0xA0 || n == 0x1680
    || 0x2000 <= n <= 0x200A || n == 0x2028 || n == 0x2029 || n == 0x202F
    || n == 0x205F || n == 0x3000
  }

  /** Unicode category Cc, which `char::is_control` recognises. */
  predicate IsControl(c: char) {
    var n := c as int;
    n < 0x20 || 0x7F <= n <= 0x9F
  }

  // ----- trimming

  function TrimStart(s: string): string {
    if s != [] && IsWhitespace(s[0]) then TrimStart(s[1..]) else s
  }

  function TrimEnd(s: string): string {
    if s != [] && IsWhitespace(s[|s| - 1]) then TrimEnd(s[..|s| - 1]) else s
  }

  function Trim(s: string): string {
    TrimEnd(TrimStart(s))
  }

  /** Neither end is whitespace; the empty string is trimmed. */
  predicate Trimmed(s: string) {
    s == [] || (!IsWhitespace(s[0]) && !IsWhitespace(s[|s| - 1]))
  }

  lemma {:induction false} TrimStartTrims(s: string)
    ensures TrimStart(s) == [] || !IsWhitespace(TrimStart(s)[0])
    ensures |TrimStart(s)| <= |s| && TrimStart(s) == s[|s| - |TrimStart(s)|..]
  {
    if s != [] && IsWhitespace(s[0]) {
      TrimStartTrims(s[1..]);
    }
  }

  lemma {:induction false} TrimEndTrims(s: string)
    ensures TrimEnd(s) == [] || !IsWhitespace(TrimEnd(s)[|TrimEnd(s)| - 1])
    ensures TrimEnd(s) <= s
  {
    if s != [] && IsWhitespace(s[|s| - 1]) {
      TrimEndTrims(s[..|s| - 1]);
    }
  }

  lemma TrimTrims(s: string)
    ensures Trimmed(Trim(s))
  {
    TrimStartTrims(s);
    TrimEndTrims(TrimStart(s));
  }

  lemma TrimmedIsFixed(s: string)
    requires Trimmed(s)
    ensures Trim(s) == s
  {
  }

  // ----- prefixes and occurrences

  function StripPrefix(s: string, prefix: string): (r: Option<string>)
    ensures r.Some? ==> s == prefix + r.value
  {
    if prefix <= s then Some(s[|prefix|..]) else None
  }

  lemma StripPrefixOfAppend(prefix: string, rest: string)
    ensures StripPrefix(prefix + rest, prefix) == Some(rest)
  {
    assert (prefix + rest)[|prefix|..] == rest;
  }

  lemma NoPrefix(s: string, prefix: string)
    requires prefix != [] && (s != [] ==> s[0] != prefix[0])
    ensures StripPrefix(s, prefix) == None
  {
  }

  /** `pattern` stands at index `i` of `s`. */
  predicate OccursAt(s: string, i: int, pattern: string) {
    0 <= i && i + |pattern| <= |s| && s[i..i + |pattern|] == pattern
  }

  /** The least index at or after `from` where `pattern` stands. */
  function FindFrom(s: string, from: nat, pattern: string): (r: Option<nat>)
    ensures r.Some? ==> from <= r.value && OccursAt(s, r.value, pattern)
    ensures r.Some? ==> forall j :: from <= j < r.value ==> !OccursAt(s, j, pattern)
    ensures r.None? ==> forall j :: from <= j ==> !OccursAt(s, j, pattern)
    decreases |s| - from
  {
    if OccursAt(s, from, pattern) then Some(from)
    else if from >= |s| then None
    else FindFrom(s, from + 1, pattern)
  }

  function Find(s: string, pattern: string): Option<nat> {
    FindFrom(s, 0, pattern)
  }

  predicate Contains(s: string, pattern: string) {
    Find(s, pattern).Some?
  }

  lemma FindNeedsHead(s: string, pattern: string)
    requires pattern != [] && pattern[0] !in s
    ensures Find(s, pattern) == None
  {
    forall j | 0 <= j < |s|
      ensures !OccursAt(s, j, pattern)
    {
      assert s[j] in s;
      if OccursAt(s, j, pattern) {
        OccursAtHead(s, j, pattern);
      }
    }
  }

  /** `str::split_once`: the text before and after the first occurrence. */
  function SplitOnce(s: string, separator: string): Option<(string, string)> {
    match Find(s, separator)
    case None => None
    case Some(i) => Some((s[..i], s[i + |separator|..]))
  }

  lemma OccursAtHead(s: string, i: int, pattern: string)
    requires pattern != [] && OccursAt(s, i, pattern)
    ensures s[i] == pattern[0]
  {
    assert s[i] == s[i..i + |pattern|][0];
  }

  lemma MismatchAt(s: string, i: nat, pattern: string, k: nat)
    requires k < |pattern| && (i + k < |s| ==> s[i + k] != pattern[k])
    ensures !OccursAt(s, i, pattern)
  {
    if i + |pattern| <= |s| {
      assert s[i + k] == s[i..i + |pattern|][k];
    }
  }

  /** Splitting finds the separator that was written when it does not occur earlier. */
  lemma SplitOnceAt(before: string, separator: string, after: string)
    requires forall j :: 0 <= j < |before| ==> !OccursAt(before + separator + after, j, separator)
    ensures SplitOnce(before + separator + after, separator) == Some((before, after))
  {
    var s := before + separator + after;
    assert s[|before|..|before| + |separator|] == separator;
    assert OccursAt(s, |before|, separator);
    assert Find(s, separator) == Some(|before|);
    assert s[..|before|] == before;
    assert s[|before| + |separator|..] == after;
  }

  /** A separator whose first character is absent before it is found where it was written. */
  lemma SplitOnceAtFresh(before: string, separator: string, after: string)
    requires separator != [] && separator[0] !in before
    ensures SplitOnce(before + separator + after, separator) == Some((before, after))
  {
    var s := before + separator + after;
    forall j | 0 <= j < |before|
      ensures !OccursAt(s, j, separator)
    {
      assert s[j] == before[j] && before[j] in before;
      if OccursAt(s, j, separator) {
        OccursAtHead(s, j, separator);
      }
    }
    SplitOnceAt(before, separator, after);
  }

  // ----- joining and splitting

  function Join(parts: seq<string>, separator: string): string {
    if parts == [] then ""
    else if |parts| == 1 then parts[0]
    else parts[0] + separator + Join(parts[1..], separator)
  }

  /** Every part followed by `\n`, the way the writers build their output. */
  function Terminated(parts: seq<string>): string {
    if parts == [] then "" else parts[0] + "\n" + Terminated(parts[1..])
  }

  lemma {:induction false} TerminatedAppend(a: seq<string>, b: seq<string>)
    ensures Terminated(a + b) == Terminated(a) + Terminated(b)
  {
    if a == [] {
      assert a + b == b;
    } else {
      TerminatedAppend(a[1..], b);
      assert (a + b)[0] == a[0] && (a + b)[1..] == a[1..] + b;
      assert Terminated(a + b) == a[0] + "\n" + (Terminated(a[1..]) + Terminated(b));
      assert Terminated(a) + Terminated(b) == a[0] + "\n" + Terminated(a[1..]) + Terminated(b);
    }
  }

  lemma {:induction false} TerminatedIsJoin(parts: seq<string>)
    requires parts != []
    ensures Terminated(parts) == Join(parts, "\n") + "\n"
  {
    if |parts| == 1 {
      assert parts[1..] == [];
      assert Terminated(parts) == parts[0] + "\n" + "";
    } else {
      TerminatedIsJoin(parts[1..]);
      assert Terminated(parts) == parts[0] + "\n" + (Join(parts[1..], "\n") + "\n");
      assert Join(parts, "\n") + "\n" == parts[0] + "\n" + Join(parts[1..], "\n") + "\n";
    }
  }

  /** `str::split` on one character; the result is never empty. */
  function SplitOn(s: string, separator: char): (parts: seq<string>)
    ensures parts != []
  {
    if s == [] then [""]
    else
      var rest := SplitOn(s[1..], separator);
      if s[0] == separator then [""] + rest else [[s[0]] + rest[0]] + rest[1..]
  }

  lemma {:induction false} SplitOnFresh(s: string, separator: char)
    requires separator !in s
    ensures SplitOn(s, separator) == [s]
  {
    if s != [] {
      SplitOnFresh(s[1..], separator);
      assert [s[0]] + s[1..] == s;
    }
  }

  lemma {:induction false} SplitOnSeparator(a: string, separator: char, b: string)
    requires separator !in a
    ensures SplitOn(a + [separator] + b, separator) == [a] + SplitOn(b, separator)
  {
    var s := a + [separator] + b;
    if a == [] {
      assert s[1..] == b;
    } else {
      SplitOnSeparator(a[1..], separator, b);
      assert s[1..] == a[1..] + [separator] + b;
      assert [a[0]] + a[1..] == a;
    }
  }

  /** Splitting inverts joining when no part holds the separator. */
  lemma {:induction false} SplitOnJoin(parts: seq<string>, separator: char)
    requires parts != []
    requires forall p :: p in parts ==> separator !in p
    ensures SplitOn(Join(parts, [separator]), separator) == parts
  {
    hide SplitOn;
    if |parts| == 1 {
      SplitOnFresh(parts[0], separator);
    } else {
      var tail := Join(parts[1..], [separator]);
      SplitOnJoin(parts[1..], separator);
      SplitOnSeparator(parts[0], separator, tail);
      assert Join(parts, [separator]) == parts[0] + [separator] + tail;
      assert [parts[0]] + parts[1..] == parts;
    }
  }

  // ----- lines

  function DropCarriageReturn(line: string): string {
    if line != [] && line[|line| - 1] == '\r' then line[..|line| - 1] else line
  }

  function MapDropCarriageReturn(lines: seq<string>): (r: seq<string>)
    ensures |r| == |lines|
    ensures forall i :: 0 <= i < |lines| ==> r[i] == DropCarriageReturn(lines[i])
  {
    if lines == [] then [] else [DropCarriageReturn(lines[0])] + MapDropCarriageReturn(lines[1..])
  }

  /** `str::lines`: a final line ending starts no further line, and a `\r` before it is dropped. */
  function Lines(s: string): seq<string> {
    var parts := SplitOn(s, '\n');
    MapDropCarriageReturn(if parts[|parts| - 1] == "" then parts[..|parts| - 1] else parts)
  }

  /** A line that `Lines` gives back as it is. */
  predicate IsPlainLine(line: string) {
    '\n' !in line && (line == [] || line[|line| - 1] != '\r')
  }

  lemma {:induction false} PlainLinesAreFixed(parts: seq<string>)
    requires forall p :: p in parts ==> IsPlainLine(p)
    ensures MapDropCarriageReturn(parts) == parts
  {
    if parts != [] {
      assert IsPlainLine(parts[0]);
      PlainLinesAreFixed(parts[1..]);
    }
  }

  lemma LinesOfJoin(parts: seq<string>)
    requires parts != [] && parts[|parts| - 1] != ""
    requires forall p :: p in parts ==> IsPlainLine(p)
    ensures Lines(Join(parts, "\n")) == parts
  {
    SplitOnJoin(parts, '\n');
    PlainLinesAreFixed(parts);
  }

  lemma {:induction false} SplitOnTerminated(parts: seq<string>)
    requires forall p :: p in parts ==> '\n' !in p
    ensures SplitOn(Terminated(parts), '\n') == parts + [""]
  {
    if parts != [] {
      SplitOnTerminated(parts[1..]);
      SplitOnSeparator(parts[0], '\n', Terminated(parts[1..]));
      assert parts + [""] == [parts[0]] + (parts[1..] + [""]);
    }
  }

  lemma LinesOfTerminated(parts: seq<string>)
    requires forall p :: p in parts ==> IsPlainLine(p)
    ensures Lines(Terminated(parts)) == parts
  {
    SplitOnTerminated(parts);
    assert (parts + [""])[..|parts|] == parts;
    PlainLinesAreFixed(parts);
  }

  lemma LinesAfterBlank(s: string)
    ensures Lines("\n" + s) == [""] + Lines(s)
  {
    var parts := SplitOn(s, '\n');
    SplitOnSeparator("", '\n', s);
    assert "" + ['\n'] + s == "\n" + s;
    hide SplitOn;
    var kept := if parts[|parts| - 1] == "" then parts[..|parts| - 1] else parts;
    var all := [""] + parts;
    assert (if all[|all| - 1] == "" then all[..|all| - 1] else all) == [""] + kept;
    assert DropCarriageReturn("") == "";
    assert ([""] + kept)[1..] == kept;
  }

  /** A line ending inside a join is followed by the start of a later part. */
  lemma {:induction false} JoinAfterNewline(parts: seq<string>, i: nat, barred: char)
    requires i < |Join(parts, "\n")|
    requires forall p :: p in parts ==> '\n' !in p
    requires forall k :: 1 <= k < |parts| ==> parts[k] != "" && parts[k][0] != barred
    ensures Join(parts, "\n")[i] == '\n' ==>
              i + 1 < |Join(parts, "\n")| && Join(parts, "\n")[i + 1] != barred
  {
    if i < |parts[0]| {
      assert Join(parts, "\n")[i] == parts[0][i] && parts[0][i] in parts[0];
    } else if |parts| > 1 {
      var tail := parts[1..];
      var rest := Join(tail, "\n");
      assert tail[0] == parts[1] && rest[0] == parts[1][0];
      if i > |parts[0]| {
        var j := i - |parts[0]| - 1;
        assert rest[j] == Join(parts, "\n")[i];
        JoinAfterNewline(tail, j, barred);
      }
    }
  }

  // ----- decimal numbers

  predicate IsDigit(c: char) {
    '0' <= c <= '9'
  }

  function Digit(n: nat): (c: char)
    requires n < 10
    ensures IsDigit(c)
  {
    ('0' as int + n) as char
  }

  function DigitValue(c: char): (n: nat)
    requires IsDigit(c)
    ensures n < 10 && Digit(n) == c
  {
    c as int - '0' as int
  }

  /** `u64::to_string`. */
  function Decimal(n: nat): (s: string)
    ensures s != [] && forall c :: c in s ==> IsDigit(c)
  {
    if n < 10 then [Digit(n)] else Decimal(n / 10) + [Digit(n % 10)]
  }

  function DigitsValue(s: string): Option<nat> {
    if s == [] then Some(0)
    else if !IsDigit(s[|s| - 1]) then None
    else match DigitsValue(s[..|s| - 1])
      case None => None
      case Some(n) => Some(10 * n + DigitValue(s[|s| - 1]))
  }

  /** `str::parse` for an unsigned integer below `bound`: one leading `+` is accepted. */
  function ParseUnsigned(s: string, bound: nat): Option<nat> {
    var digits := if s != [] && s[0] == '+' then s[1..] else s;
    if digits == [] then None
    else match DigitsValue(digits)
      case None => None
      case Some(n) => if n < bound then Some(n) else None
  }

  lemma {:induction false} DigitsValueOfDecimal(n: nat)
    ensures DigitsValue(Decimal(n)) == Some(n)
  {
    if n < 10 {
      assert Decimal(n)[..0] == [];
    } else {
      DigitsValueOfDecimal(n / 10);
      var s := Decimal(n);
      assert s[..|s| - 1] == Decimal(n / 10);
    }
  }

  lemma ParseDecimal(n: nat, bound: nat)
    requires n < bound
    ensures ParseUnsigned(Decimal(n), bound) == Some(n)
  {
    DigitsValueOfDecimal(n);
    assert Decimal(n)[0] in Decimal(n);
  }

  lemma DecimalInjective(m: nat, n: nat)
    requires Decimal(m) == Decimal(n)
    ensures m == n
  {
    DigitsValueOfDecimal(m);
    DigitsValueOfDecimal(n);
  }

  // ----- hexadecimal

  predicate IsLowerHex(s: string) {
    forall c :: c in s ==> '0' <= c <= '9' || 'a' <= c <= 'f'
  }

  function HexDigit(n: nat): (c: char)
    requires n < 16
  {
    if n < 10 then ('0' as int + n) as char else ('a' as int + (n - 10)) as char
  }

  /** The value of a hexadecimal digit in either case. */
  function HexValue(c: char): (r: Option<nat>)
    ensures r.Some? ==> r.value < 16
  {
    if '0' <= c <= '9' then Some(c as int - '0' as int)
    else if 'a' <= c <= 'f' then Some(10 + (c as int - 'a' as int))
    else if 'A' <= c <= 'F' then Some(10 + (c as int - 'A' as int))
    else None
  }

  lemma HexValueOfDigit(n: nat)
    requires n < 16
    ensures HexValue(HexDigit(n)) == Some(n)
  {
  }
}
