/** Parsing of an HTTP/1.1 response: status, header fields and body, decoded when it is chunked. */
module HttpResponse {
  import opened Wrappers
  import opened Text
  import opened HttpBody

  datatype Header = Header(name: string, value: string)

  datatype Response = Response(status: u16, headers: seq<Header>, body: seq<byte>)

  datatype ResponseError = NoHeaderTerminator | UnparseableStatusLine | BadBody(error: HttpError)

  const BLANK_LINE: seq<byte> := [CR, LF, CR, LF]

  /** `windows(4).position(b"\r\n\r\n")`. */
  function FindBlankLine(raw: seq<byte>): (r: Option<nat>)
    ensures r.Some? ==> r.value + 4 <= |raw| && raw[r.value..r.value + 4] == BLANK_LINE
  {
    if |raw| < 4 then None
    else if raw[..4] == BLANK_LINE then Some(0)
    else match FindBlankLine(raw[1..])
      case None => None
      case Some(n) => Some(n + 1)
  }

  /** `split("\r\n")`. */
  function SplitLines(s: string): (lines: seq<string>)
    ensures lines != []
    decreases |s|
  {
    match SplitOnce(s, "\r\n")
    case None => [s]
    case Some((line, rest)) => if |rest| < |s| then [line] + SplitLines(rest) else [s]
  }

  function TakeWord(s: string): string {
    if s == "" || IsWhitespace(s[0]) then "" else [s[0]] + TakeWord(s[1..])
  }

  function DropWord(s: string): string {
    if s == "" || IsWhitespace(s[0]) then s else DropWord(s[1..])
  }

  /** `split_whitespace().nth(1)`. */
  function SecondWord(s: string): Option<string> {
    var rest := TrimStart(DropWord(TrimStart(s)));
    if rest == "" then None else Some(TakeWord(rest))
  }

  function LowerChar(c: char): char {
    if 'A' <= c <= 'Z' then (c as int - 'A' as int + 'a' as int) as char else c
  }

  /** `to_ascii_lowercase`. */
  function Lower(s: string): string {
    if s == "" then "" else [LowerChar(s[0])] + Lower(s[1..])
  }

  /** A line without a colon is no header field. */
  function HeaderOf(line: string): seq<Header> {
    match SplitOnce(line, ":")
    case None => []
    case Some((name, value)) => [Header(Lower(Trim(name)), Trim(value))]
  }

  function HeadersOf(lines: seq<string>): seq<Header> {
    if lines == [] then [] else HeaderOf(lines[0]) + HeadersOf(lines[1..])
  }

  predicate IsChunked(headers: seq<Header>) {
    exists h :: h in headers && h.name == "transfer-encoding" && Contains(Lower(h.value), "chunked")
  }

  // ----- letter case

  /** The same character up to the case of an ASCII letter. */
  predicate SameLetter(a: char, b: char) {
    || a == b
    || ('A' <= a <= 'Z' && b as int == a as int + 32)
    || ('A' <= b <= 'Z' && a as int == b as int + 32)
  }

  predicate SameText(a: string, b: string) {
    |a| == |b| && forall i :: 0 <= i < |a| ==> SameLetter(a[i], b[i])
  }

  predicate MentionsAt(text: string, i: nat, word: string) {
    i + |word| <= |text| && SameText(text[i..i + |word|], word)
  }

  /** `word` stands somewhere in `text`, in any case. */
  ghost predicate Mentions(text: string, word: string) {
    exists i :: MentionsAt(text, i, word)
  }

  predicate IsLowerText(s: string) {
    forall c :: c in s ==> !('A' <= c <= 'Z')
  }

  /** Lowering changes the case of the capital letters and nothing else. */
  lemma {:induction false} LowerIsExact(s: string)
    ensures |Lower(s)| == |s| && SameText(Lower(s), s) && IsLowerText(Lower(s))
    ensures forall i :: 0 <= i < |s| ==> Lower(s)[i] == LowerChar(s[i])
  {
    if s != "" {
      LowerIsExact(s[1..]);
      assert Lower(s)[1..] == Lower(s[1..]);
      assert forall i :: 1 <= i < |s| ==> s[i] == s[1..][i - 1] && Lower(s)[i] == Lower(s[1..])[i - 1];
    }
  }

  lemma LowerIff(s: string, word: string)
    requires IsLowerText(word)
    ensures Lower(s) == word <==> SameText(s, word)
  {
    LowerIsExact(s);
    hide Lower;
    assert forall i :: 0 <= i < |word| ==> word[i] in word;
    if SameText(s, word) {
      assert forall i :: 0 <= i < |s| ==> Lower(s)[i] == word[i];
    }
  }

  lemma LowerSlice(s: string, i: nat, j: nat)
    requires i <= j <= |s|
    ensures |Lower(s)| == |s| && Lower(s)[i..j] == Lower(s[i..j])
  {
    LowerIsExact(s);
    LowerIsExact(s[i..j]);
    hide Lower, LowerChar;
  }

  lemma MentionsIff(text: string, word: string)
    requires IsLowerText(word)
    ensures Contains(Lower(text), word) <==> Mentions(text, word)
  {
    hide Lower, SameText, IsLowerText;
    forall i: nat
      ensures OccursAt(Lower(text), i, word) <==> MentionsAt(text, i, word)
    {
      LowerSlice(text, 0, 0);
      if i + |word| <= |text| {
        LowerSlice(text, i, i + |word|);
        LowerIff(text[i..i + |word|], word);
      }
    }
    if Contains(Lower(text), word) {
      assert MentionsAt(text, Find(Lower(text), word).value, word);
    }
  }

  function StatusOf(line: string): (r: Option<nat>)
    ensures r.Some? ==> r.value < U16_BOUND
  {
    match SecondWord(line)
    case None => None
    case Some(code) => ParseUnsigned(code, U16_BOUND)
  }

  /** `parse_http_response`. */
  function ParseResponse(raw: seq<byte>, decode: seq<byte> -> string): Result<Response, ResponseError> {
    match FindBlankLine(raw)
    case None => Failure(NoHeaderTerminator)
    case Some(split) =>
      var lines := SplitLines(decode(raw[..split]));
      match StatusOf(lines[0])
      case None => Failure(UnparseableStatusLine)
      case Some(status) =>
        var headers := HeadersOf(lines[1..]);
        var body := raw[split + 4..];
        if !IsChunked(headers) then Success(Response(status, headers, body))
        else match Dechunk(body, decode)
          case Failure(e) => Failure(BadBody(e))
          case Success(out) => Success(Response(status, headers, out))
  }

  lemma Regroup<T>(a: seq<T>, b: seq<T>, c: seq<T>)
    ensures (a + b) + c == a + (b + c)
  {
  }

  lemma FirstApart<T>(a: seq<T>, b: seq<T>)
    requires a != []
    ensures a == [a[0]] + a[1..] && a + b == [a[0]] + (a[1..] + b)
  {
  }

  lemma HeadersCons(line: string, lines: seq<string>)
    ensures HeadersOf([line] + lines) == HeaderOf(line) + HeadersOf(lines)
  {
    hide HeaderOf;
    assert ([line] + lines)[0] == line && ([line] + lines)[1..] == lines;
  }

  lemma {:induction false} HeadersAppend(a: seq<string>, b: seq<string>)
    ensures HeadersOf(a + b) == HeadersOf(a) + HeadersOf(b)
  {
    if a == [] {
      assert a + b == b;
    } else {
      hide HeaderOf, HeadersOf;
      var line, rest := a[0], a[1..];
      HeadersAppend(rest, b);
      FirstApart(a, b);
      HeadersCons(line, rest);
      HeadersCons(line, rest + b);
      Regroup(HeaderOf(line), HeadersOf(rest), HeadersOf(b));
    }
  }

  method ParseHttpResponse(raw: seq<byte>, decode: seq<byte> -> string) returns (r: Result<Response, ResponseError>)
    ensures r == ParseResponse(raw, decode)
  {
    hide FindBlankLine, SplitLines, StatusOf, SplitOnce, Trim, Lower, Contains, Dechunk;
    var split := FindBlankLine(raw);
    if split.None? { return Failure(NoHeaderTerminator); }
    assert split.value + 4 <= |raw|;
    var lines := SplitLines(decode(raw[..split.value]));
    var status := StatusOf(lines[0]);
    if status.None? { return Failure(UnparseableStatusLine); }
    var fields := lines[1..];
    var headers: seq<Header> := [];
    for i := 0 to |fields|
      invariant headers == HeadersOf(fields[..i])
    {
      assert fields[..i + 1] == fields[..i] + [fields[i]];
      HeadersAppend(fields[..i], [fields[i]]);
      assert [fields[i]][1..] == [];
      var split := SplitOnce(fields[i], ":");
      if split.Some? {
        headers := headers + [Header(Lower(Trim(split.value.0)), Trim(split.value.1))];
      }
    }
    assert fields[..|fields|] == fields;
    var body := raw[split.value + 4..];
    if exists h | h in headers :: h.name == "transfer-encoding" && Contains(Lower(h.value), "chunked") {
      var decoded := DechunkLoop(body, decode);
      if decoded.Failure? { return Failure(BadBody(decoded.error)); }
      body := decoded.value;
    }
    r := Success(Response(status.value, headers, body));
  }

  // ----- decoding a head

  /** What is used of `String::from_utf8_lossy`: an ASCII byte stands for itself and splits the decoding
      in two, and no other byte becomes an ASCII character. */
  ghost predicate DecodesLossily(decode: seq<byte> -> string) {
    && decode([]) == ""
    && (forall a: seq<byte>, x: byte, b: seq<byte> ::
          x < 128 ==> decode(a + [x] + b) == decode(a) + [x as char] + decode(b))
    && (forall a: seq<byte> :: (forall x :: x in a ==> x >= 128) ==> forall c :: c in decode(a) ==> c >= 128 as char)
  }

  lemma SplitsAt(decode: seq<byte> -> string, a: seq<byte>, x: byte, b: seq<byte>)
    requires DecodesLossily(decode) && x < 128
    ensures decode(a + [x] + b) == decode(a) + [x as char] + decode(b)
    ensures decode([x] + b) == [x as char] + decode(b)
  {
    assert [] + [x] + b == [x] + b;
    assert decode([] + [x] + b) == decode([]) + [x as char] + decode(b);
  }

  lemma BytesCons(s: string)
    requires s != "" && IsAscii(s)
    ensures IsAscii(s[1..]) && s[0] < 128 as char && Bytes(s) == [s[0] as int] + Bytes(s[1..])
  {
    assert s[0] in s && forall c :: c in s[1..] ==> c in s;
  }

  lemma {:induction false} AsciiInFront(decode: seq<byte> -> string, s: string, rest: seq<byte>)
    requires DecodesLossily(decode) && IsAscii(s)
    ensures decode(Bytes(s) + rest) == s + decode(rest)
  {
    if s == "" {
      assert Bytes(s) + rest == rest;
    } else {
      BytesCons(s);
      hide DecodesLossily, Bytes, IsAscii;
      var x: byte := s[0] as int;
      AsciiInFront(decode, s[1..], rest);
      SplitsAt(decode, [], x, Bytes(s[1..]) + rest);
      Regroup([x], Bytes(s[1..]), rest);
      Regroup([s[0]], s[1..], decode(rest));
      assert [s[0]] + s[1..] == s;
    }
  }

  lemma LossyDecodesAscii(decode: seq<byte> -> string)
    requires DecodesLossily(decode)
    ensures DecodesAscii(decode)
  {
    forall s: string, rest: seq<byte> | IsAscii(s)
      ensures decode(Bytes(s) + rest) == s + decode(rest)
    {
      AsciiInFront(decode, s, rest);
    }
  }

  /** An ASCII character of the decoded text was there as a byte. */
  lemma {:induction false} DecodedWasThere(decode: seq<byte> -> string, a: seq<byte>, x: byte)
    requires DecodesLossily(decode) && x < 128 && x !in a
    ensures x as char !in decode(a)
    decreases |a|
  {
    if i :| 0 <= i < |a| && a[i] < 128 {
      assert a == a[..i] + [a[i]] + a[i + 1..];
      DecodedWasThere(decode, a[..i], x);
      DecodedWasThere(decode, a[i + 1..], x);
      assert decode(a) == decode(a[..i]) + [a[i] as char] + decode(a[i + 1..]);
    }
  }

  // ----- writing a response

  /** A line of a response head: any bytes but carriage returns and line feeds, and not none. */
  predicate IsHeadLine(line: seq<byte>) {
    line != [] && CR !in line && LF !in line
  }

  const COLON: byte := 58
  const SPACE: byte := 32

  datatype Field = Field(name: seq<byte>, value: seq<byte>)

  function FieldLine(f: Field): seq<byte> {
    f.name + [COLON] + f.value
  }

  predicate ValidField(f: Field) {
    IsHeadLine(FieldLine(f)) && COLON !in f.name
  }

  function FieldLines(fields: seq<Field>): (lines: seq<seq<byte>>)
    ensures |lines| == |fields| && forall i :: 0 <= i < |fields| ==> lines[i] == FieldLine(fields[i])
  {
    if fields == [] then [] else [FieldLine(fields[0])] + FieldLines(fields[1..])
  }

  function Normalised(fields: seq<Field>, decode: seq<byte> -> string): seq<Header> {
    if fields == [] then []
    else [Header(Lower(Trim(decode(fields[0].name))), Trim(decode(fields[0].value)))] + Normalised(fields[1..], decode)
  }

  /** A field is named `Transfer-Encoding` and its value holds `chunked`, both in any case. */
  ghost predicate SaysChunked(fields: seq<Field>, decode: seq<byte> -> string) {
    exists f :: f in fields && SameText(Trim(decode(f.name)), "transfer-encoding") && Mentions(Trim(decode(f.value)), "chunked")
  }

  lemma {:induction false} ChunkedIff(fields: seq<Field>, decode: seq<byte> -> string)
    ensures IsChunked(Normalised(fields, decode)) <==> SaysChunked(fields, decode)
  {
    hide SameText, Mentions, Lower, Trim, Contains;
    if fields != [] {
      ChunkedIff(fields[1..], decode);
      var name, value := Trim(decode(fields[0].name)), Trim(decode(fields[0].value));
      LowerIff(name, "transfer-encoding");
      MentionsIff(value, "chunked");
      var headers := Normalised(fields, decode);
      assert forall h :: h in headers <==> h == Header(Lower(name), value) || h in Normalised(fields[1..], decode);
      assert forall f :: f in fields <==> f == fields[0] || f in fields[1..];
    }
  }

  function StatusLine(version: string, status: u16, reason: string): string {
    version + (" " + (Decimal(status) + (" " + reason)))
  }

  predicate IsWord(s: string) {
    s != "" && forall c :: c in s ==> !IsWhitespace(c)
  }

  lemma {:induction false} WordThenBlank(word: string, rest: string)
    requires (forall c :: c in word ==> !IsWhitespace(c)) && rest != "" && IsWhitespace(rest[0])
    ensures TakeWord(word + rest) == word && DropWord(word + rest) == rest
  {
    if word == "" {
      assert word + rest == rest;
    } else {
      assert word[0] in word;
      assert (word + rest)[1..] == word[1..] + rest;
      WordThenBlank(word[1..], rest);
    }
  }

  lemma StatusIsRead(version: string, status: u16, reason: string)
    requires IsWord(version)
    ensures StatusOf(StatusLine(version, status, reason)) == Some(status)
  {
    var digits := Decimal(status);
    forall c | c in digits
      ensures !IsWhitespace(c)
    {
      assert IsDigit(c);
    }
    var behind := digits + (" " + reason);
    var line := StatusLine(version, status, reason);
    hide Decimal;
    assert version[0] in version && line[0] == version[0];
    WordThenBlank(version, " " + behind);
    assert (" " + behind)[1..] == behind;
    assert behind[0] == digits[0] && digits[0] in digits;
    assert line == version + (" " + behind);
    assert TrimStart(line) == line && TrimStart(" " + behind) == behind;
    WordThenBlank(digits, " " + reason);
    assert SecondWord(line) == Some(digits);
    ParseDecimal(status, U16_BOUND);
  }

  function DecodedLines(lines: seq<seq<byte>>, decode: seq<byte> -> string): (texts: seq<string>)
    ensures |texts| == |lines| && forall i :: 0 <= i < |lines| ==> texts[i] == decode(lines[i])
  {
    if lines == [] then [] else [decode(lines[0])] + DecodedLines(lines[1..], decode)
  }

  lemma {:induction false} HeadersOfFields(fields: seq<Field>, decode: seq<byte> -> string)
    requires DecodesLossily(decode) && forall f :: f in fields ==> ValidField(f)
    ensures HeadersOf(DecodedLines(FieldLines(fields), decode)) == Normalised(fields, decode)
  {
    hide Trim, Lower;
    if fields != [] {
      var f := fields[0];
      assert f in fields && forall f :: f in fields[1..] ==> f in fields;
      HeadersOfFields(fields[1..], decode);
      DecodedWasThere(decode, f.name, COLON);
      assert decode(FieldLine(f)) == decode(f.name) + ":" + decode(f.value);
      SplitOnceAtFresh(decode(f.name), ":", decode(f.value));
      var texts := DecodedLines(FieldLines(fields), decode);
      assert FieldLines(fields)[1..] == FieldLines(fields[1..]);
      assert texts[1..] == DecodedLines(FieldLines(fields)[1..], decode);
      hide DecodesLossily, DecodedLines, FieldLines;
    }
  }

  lemma {:induction false} SplitLinesOfJoin(lines: seq<string>)
    requires lines != [] && forall l :: l in lines ==> '\r' !in l
    ensures SplitLines(Join(lines, "\r\n")) == lines
  {
    var s := Join(lines, "\r\n");
    if |lines| == 1 {
      assert s == lines[0] && '\r' !in lines[0];
      NoSeparator(s);
    } else {
      var rest := Join(lines[1..], "\r\n");
      assert lines[0] in lines;
      SplitOnceAtFresh(lines[0], "\r\n", rest);
      SplitLinesOfJoin(lines[1..]);
    }
  }

  lemma NoSeparator(s: string)
    requires '\r' !in s
    ensures SplitOnce(s, "\r\n").None?
  {
    FindNeedsHead(s, "\r\n");
  }

  /** The lines of a head with a line end between every two. */
  function JoinLines(lines: seq<seq<byte>>): seq<byte> {
    if lines == [] then []
    else if |lines| == 1 then lines[0]
    else lines[0] + CRLF + JoinLines(lines[1..])
  }

  lemma {:induction false} DecodedJoin(lines: seq<seq<byte>>, decode: seq<byte> -> string)
    requires DecodesLossily(decode) && lines != []
    ensures decode(JoinLines(lines)) == Join(DecodedLines(lines, decode), "\r\n")
  {
    if |lines| > 1 {
      var rest := JoinLines(lines[1..]);
      DecodedJoin(lines[1..], decode);
      assert lines[0] + CRLF + rest == lines[0] + [CR] + ([] + [LF] + rest);
      assert decode(lines[0] + [CR] + ([] + [LF] + rest)) == decode(lines[0]) + [CR as char] + decode([] + [LF] + rest);
      assert decode([] + [LF] + rest) == decode([]) + [LF as char] + decode(rest);
      assert [CR as char] + [LF as char] == "\r\n";
      assert DecodedLines(lines, decode)[1..] == DecodedLines(lines[1..], decode);
    }
  }

  /** A carriage return of the head begins a line end with the next line right behind it. */
  lemma {:induction false} ReturnIsInside(lines: seq<seq<byte>>, i: nat)
    requires lines != [] && forall l :: l in lines ==> IsHeadLine(l)
    requires i < |JoinLines(lines)| && JoinLines(lines)[i] == CR
    ensures i + 2 < |JoinLines(lines)| && JoinLines(lines)[i + 2] != CR
  {
    assert lines[0] in lines;
    if |lines| > 1 {
      var rest := JoinLines(lines[1..]);
      assert forall l :: l in lines[1..] ==> l in lines;
      assert lines[1..][0] == lines[1] && lines[1] in lines && rest[0] == lines[1][0];
      if i >= |lines[0]| + 2 {
        ReturnIsInside(lines[1..], i - |lines[0]| - 2);
      }
    }
  }

  lemma {:induction false} BlankLineAt(raw: seq<byte>, n: nat)
    requires n + 4 <= |raw| && raw[n..n + 4] == BLANK_LINE
    requires forall i :: 0 <= i < n ==> raw[i] != CR || raw[i + 2] != CR
    ensures FindBlankLine(raw) == Some(n)
  {
    if n == 0 {
      assert raw[..4] == raw[0..4];
    } else {
      assert raw[..4][0] == raw[0] && raw[..4][2] == raw[2];
      assert raw[1..][n - 1..n + 3] == raw[n..n + 4];
      BlankLineAt(raw[1..], n - 1);
    }
  }

  // ----- the round trip

  function StatusBytes(version: seq<byte>, status: u16, reason: seq<byte>): seq<byte> {
    DigitsAreAscii(status);
    version + [SPACE] + (Bytes(Decimal(status)) + [SPACE] + reason)
  }

  lemma DigitsAreAscii(n: nat)
    ensures IsAscii(Decimal(n))
  {
    forall c | c in Decimal(n)
      ensures c < 128 as char
    {
      assert IsDigit(c);
    }
  }

  function HeadLines(version: seq<byte>, status: u16, reason: seq<byte>, fields: seq<Field>): seq<seq<byte>> {
    [StatusBytes(version, status, reason)] + FieldLines(fields)
  }

  /** Status line and header fields as they are sent, up to the blank line. */
  function HeadBytes(version: seq<byte>, status: u16, reason: seq<byte>, fields: seq<Field>): seq<byte> {
    JoinLines(HeadLines(version, status, reason, fields))
  }

  /** The version is one word; nothing else is asked of the bytes than that they stay on their lines. */
  predicate ValidHead(
    version: seq<byte>, status: u16, reason: seq<byte>, fields: seq<Field>, decode: seq<byte> -> string)
  {
    && IsWord(decode(version))
    && IsHeadLine(StatusBytes(version, status, reason))
    && forall f :: f in fields ==> ValidField(f)
  }

  lemma HeadLinesArePlain(
    version: seq<byte>, status: u16, reason: seq<byte>, fields: seq<Field>, decode: seq<byte> -> string)
    requires ValidHead(version, status, reason, fields, decode)
    ensures forall l :: l in HeadLines(version, status, reason, fields) ==> IsHeadLine(l)
  {
    hide IsHeadLine, StatusBytes, FieldLine;
    forall l | l in HeadLines(version, status, reason, fields)
      ensures IsHeadLine(l)
    {
      if l != StatusBytes(version, status, reason) {
        var i :| 0 <= i < |fields| && FieldLines(fields)[i] == l;
        assert fields[i] in fields;
      }
    }
  }

  /** The head ends where it was written to end. */
  lemma HeadEnds(lines: seq<seq<byte>>, body: seq<byte>)
    requires lines != [] && forall l :: l in lines ==> IsHeadLine(l)
    ensures FindBlankLine(JoinLines(lines) + BLANK_LINE + body) == Some(|JoinLines(lines)|)
  {
    var head := JoinLines(lines);
    var raw := head + BLANK_LINE + body;
    assert raw[|head|..|head| + 4] == BLANK_LINE;
    forall i | 0 <= i < |head|
      ensures raw[i] != CR || raw[i + 2] != CR
    {
      if head[i] == CR {
        ReturnIsInside(lines, i);
      }
    }
    BlankLineAt(raw, |head|);
  }

  lemma StatusDecodes(version: seq<byte>, status: u16, reason: seq<byte>, decode: seq<byte> -> string)
    requires DecodesLossily(decode)
    ensures decode(StatusBytes(version, status, reason)) == StatusLine(decode(version), status, decode(reason))
  {
    hide Decimal, DecodesLossily, Bytes, IsAscii;
    DigitsAreAscii(status);
    var digits := Decimal(status);
    var tail := [SPACE] + reason;
    SplitsAt(decode, version, SPACE, Bytes(digits) + tail);
    SplitsAt(decode, [], SPACE, reason);
    AsciiInFront(decode, digits, tail);
    assert Bytes(digits) + [SPACE] + reason == Bytes(digits) + tail;
    assert [SPACE as char] == " ";
  }

  lemma HeadDecodes(
    version: seq<byte>, status: u16, reason: seq<byte>, fields: seq<Field>, decode: seq<byte> -> string)
    requires ValidHead(version, status, reason, fields, decode) && DecodesLossily(decode)
    ensures var lines := SplitLines(decode(HeadBytes(version, status, reason, fields)));
            StatusOf(lines[0]) == Some(status) && HeadersOf(lines[1..]) == Normalised(fields, decode)
  {
    var lines := HeadLines(version, status, reason, fields);
    var texts := DecodedLines(lines, decode);
    HeadLinesArePlain(version, status, reason, fields, decode);
    DecodedJoin(lines, decode);
    StatusDecodes(version, status, reason, decode);
    StatusIsRead(decode(version), status, decode(reason));
    HeadersOfFields(fields, decode);
    forall text | text in texts
      ensures '\r' !in text
    {
      var i :| 0 <= i < |texts| && texts[i] == text;
      assert lines[i] in lines;
      DecodedWasThere(decode, lines[i], CR);
    }
    SplitLinesOfJoin(texts);
    assert lines[1..] == FieldLines(fields);
    assert texts[1..] == DecodedLines(lines[1..], decode);
    hide StatusOf, StatusLine, StatusBytes, SplitLines, HeadersOf, Join, DecodesLossily, FieldLines, Normalised, DecodedLines;
  }

  /** A written response is read back, whatever bytes its head holds: its status, its header fields with
      lower-case names and trimmed values, and its body, decoded exactly when a field named
      `Transfer-Encoding` in any case says `chunked` in any case. */
  lemma ResponseRoundTrip(
    version: seq<byte>, status: u16, reason: seq<byte>, fields: seq<Field>, body: seq<byte>,
    decode: seq<byte> -> string)
    requires ValidHead(version, status, reason, fields, decode) && DecodesLossily(decode)
    ensures var headers := Normalised(fields, decode);
            ParseResponse(HeadBytes(version, status, reason, fields) + BLANK_LINE + body, decode) ==
            if !SaysChunked(fields, decode) then Success(Response(status, headers, body))
            else match Dechunk(body, decode)
              case Failure(e) => Failure(BadBody(e))
              case Success(out) => Success(Response(status, headers, out))
  {
    ChunkedIff(fields, decode);
    hide SaysChunked;
    hide FindBlankLine, StatusOf, SplitLines, HeadersOf, Dechunk, IsChunked, Normalised, DecodesLossily, ValidHead;
    HeadLinesArePlain(version, status, reason, fields, decode);
    HeadEnds(HeadLines(version, status, reason, fields), body);
    HeadDecodes(version, status, reason, fields, decode);
    var head := HeadBytes(version, status, reason, fields);
    var raw := head + BLANK_LINE + body;
    assert raw[..|head|] == head && raw[|head| + 4..] == body;
    hide HeadLines, JoinLines;
  }

  /** A chunked response is read back whole, whatever the chunking. */
  lemma ChunkedResponseRoundTrip(
    version: seq<byte>, status: u16, reason: seq<byte>, fields: seq<Field>,
    chunks: seq<Chunk>, last: string, ext: seq<byte>, trailer: seq<byte>, decode: seq<byte> -> string)
    requires ValidHead(version, status, reason, fields, decode) && DecodesLossily(decode)
    requires SaysChunked(fields, decode)
    requires (forall c :: c in chunks ==> ValidChunk(c)) && ValidLine(last, ext, 0)
    ensures ParseResponse(
              HeadBytes(version, status, reason, fields) + BLANK_LINE + (Encode(chunks, last, ext) + trailer), decode)
            == Success(Response(status, Normalised(fields, decode), Payload(chunks)))
  {
    LossyDecodesAscii(decode);
    hide ValidHead, DecodesAscii, DecodesLossily, HeadBytes, ParseResponse, Encode, ValidChunk, Dechunk, IsChunked, SaysChunked;
    ResponseRoundTrip(version, status, reason, fields, Encode(chunks, last, ext) + trailer, decode);
    DechunkOfEncoding(chunks, last, ext, trailer, decode);
  }
}
