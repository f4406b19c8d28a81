/** The HTTP client's body decoding and path encoding: chunked transfer coding (section 7.1 of RFC 9112)
    and percent-encoding (section 2.1 of RFC 3986). Bytes are numbers below 256; the lossy decoding of
    bytes to text is a parameter. */
module HttpBody {
  import opened Wrappers
  import opened Text

  type byte = b: int | 0 <= b < 256

  const CR: byte := 13
  const LF: byte := 10
  const CRLF: seq<byte> := [CR, LF]

  predicate IsAscii(s: string) {
    forall c :: c in s ==> c < 128 as char
  }

  function Bytes(s: string): (b: seq<byte>)
    requires IsAscii(s)
    ensures |b| == |s| && forall i :: 0 <= i < |s| ==> b[i] == s[i] as int
  {
    if s == [] then []
    else
      assert s[0] in s && forall c :: c in s[1..] ==> c in s;
      [s[0] as int] + Bytes(s[1..])
  }

  /** What is used of `String::from_utf8_lossy`: ASCII text in front decodes to itself. */
  ghost predicate DecodesAscii(decode: seq<byte> -> string) {
    && decode([]) == ""
    && forall s: string, rest: seq<byte> :: IsAscii(s) ==> decode(Bytes(s) + rest) == s + decode(rest)
  }

  datatype HttpError = MalformedChunkHeader | MalformedChunkSize | TruncatedChunkBody

  // ----- decoding

  /** `windows(2).position(b"\r\n")`. */
  function FindCrlf(body: seq<byte>): (r: Option<nat>)
    ensures r.Some? ==> r.value + 2 <= |body| && body[r.value] == CR && body[r.value + 1] == LF
    ensures r.Some? ==> forall i :: 0 <= i < r.value ==> !(body[i] == CR && body[i + 1] == LF)
    ensures r.None? ==> forall i :: 0 <= i < |body| - 1 ==> !(body[i] == CR && body[i + 1] == LF)
  {
    if |body| < 2 then None
    else if body[0] == CR && body[1] == LF then Some(0)
    else match FindCrlf(body[1..])
      case None =>
        assert forall i :: 1 <= i < |body| - 1 ==> body[i] == body[1..][i - 1] && body[i + 1] == body[1..][i];
        None
      case Some(n) =>
        assert forall i :: 1 <= i < n + 1 ==> body[i] == body[1..][i - 1] && body[i + 1] == body[1..][i];
        Some(n + 1)
  }

  function HexDigitsValue(s: string): Option<nat> {
    if s == [] then Some(0)
    else match (HexDigitsValue(s[..|s| - 1]), HexValue(s[|s| - 1]))
      case (Some(n), Some(d)) => Some(16 * n + d)
      case _ => None
  }

  /** `usize::from_str_radix(_, 16)`: one leading `+` is accepted, overflow is not. */
  function ParseHex(s: string): Option<nat> {
    var digits := if s != [] && s[0] == '+' then s[1..] else s;
    if digits == [] then None
    else match HexDigitsValue(digits)
      case None => None
      case Some(n) => if n < U64_BOUND then Some(n) else None
  }

  /** The size in a chunk line: what stands before the extensions. */
  function ChunkSize(line: string): Option<nat> {
    ParseHex(Trim(SplitOn(Trim(line), ';')[0]))
  }

  function AfterData(body: seq<byte>): (r: seq<byte>)
    ensures |r| <= |body|
  {
    if |body| >= 2 && body[0] == CR && body[1] == LF then body[2..] else body
  }

  /** What is decoded already in front of what the rest decodes to. */
  function Behind(output: seq<byte>, r: Result<seq<byte>, HttpError>): Result<seq<byte>, HttpError> {
    match r
    case Failure(e) => Failure(e)
    case Success(out) => Success(output + out)
  }

  /** `dechunk`. */
  function Dechunk(body: seq<byte>, decode: seq<byte> -> string): Result<seq<byte>, HttpError>
    decreases |body|
  {
    match FindCrlf(body)
    case None => Failure(MalformedChunkHeader)
    case Some(lineEnd) =>
      match ChunkSize(decode(body[..lineEnd]))
      case None => Failure(MalformedChunkSize)
      case Some(size) =>
        var rest := body[lineEnd + 2..];
        if size == 0 then Success([])
        else if |rest| < size then Failure(TruncatedChunkBody)
        else Behind(rest[..size], Dechunk(AfterData(rest[size..]), decode))
  }

  lemma BehindTwice(output: seq<byte>, data: seq<byte>, r: Result<seq<byte>, HttpError>)
    ensures Behind(output, Behind(data, r)) == Behind(output + data, r)
  {
    if r.Success? {
      assert output + (data + r.value) == (output + data) + r.value;
    }
  }

  method DechunkLoop(raw: seq<byte>, decode: seq<byte> -> string) returns (r: Result<seq<byte>, HttpError>)
    ensures r == Dechunk(raw, decode)
  {
    hide ChunkSize, FindCrlf, Behind;
    var body := raw;
    var output: seq<byte> := [];
    NothingBefore(Dechunk(raw, decode));
    while true
      invariant Dechunk(raw, decode) == Behind(output, Dechunk(body, decode))
      decreases |body|
    {
      var lineEnd := FindCrlf(body);
      if lineEnd.None? { FailureBehind(output, MalformedChunkHeader); return Failure(MalformedChunkHeader); }
      assert lineEnd.value + 2 <= |body|;
      var size := ChunkSize(decode(body[..lineEnd.value]));
      if size.None? { FailureBehind(output, MalformedChunkSize); return Failure(MalformedChunkSize); }
      var rest := body[lineEnd.value + 2..];
      if size.value == 0 { break; }
      if |rest| < size.value { FailureBehind(output, TruncatedChunkBody); return Failure(TruncatedChunkBody); }
      BehindTwice(output, rest[..size.value], Dechunk(AfterData(rest[size.value..]), decode));
      output := output + rest[..size.value];
      body := AfterData(rest[size.value..]);
    }
    r := Success(output);
    NothingAfter(output);
  }

  lemma NothingBefore(r: Result<seq<byte>, HttpError>)
    ensures Behind([], r) == r
  {
    if r.Success? {
      assert [] + r.value == r.value;
    }
  }

  lemma NothingAfter(output: seq<byte>)
    ensures Behind(output, Success([])) == Success(output)
  {
    assert output + [] == output;
  }

  lemma FailureBehind(output: seq<byte>, e: HttpError)
    ensures Behind(output, Failure(e)) == Failure(e)
  {
  }

  // ----- the encoding of RFC 9112

  /** Hexadecimal digits, in either case and with any leading zeros, that say `n`. */
  predicate SaysSize(text: string, n: nat) {
    text != "" && HexDigitsValue(text) == Some(n) && n < U64_BOUND
  }

  function Sixteen(k: nat): nat {
    if k == 0 then 1 else 16 * Sixteen(k - 1)
  }

  predicate IsHexText(s: string) {
    forall i :: 0 <= i < |s| ==> HexValue(s[i]).Some?
  }

  /** The sum of the digits, each times sixteen to the power of its place. */
  function PlaceValue(s: string): nat
    requires IsHexText(s)
  {
    if s == "" then 0
    else
      assert forall i :: 0 <= i < |s[1..]| ==> s[1..][i] == s[i + 1];
      HexValue(s[0]).value * Sixteen(|s| - 1) + PlaceValue(s[1..])
  }

  lemma TimesSixteen(d: nat, p: nat)
    ensures d * (16 * p) == 16 * (d * p)
  {
  }

  lemma {:induction false} PlaceSnoc(s: string, c: char)
    requires IsHexText(s) && HexValue(c).Some?
    ensures IsHexText(s + [c]) && PlaceValue(s + [c]) == 16 * PlaceValue(s) + HexValue(c).value
  {
    hide HexValue;
    assert IsHexText(s + [c]);
    if s == "" {
      assert s + [c] == [c] && [c][1..] == "";
      assert PlaceValue([c]) == HexValue(c).value * Sixteen(0) + PlaceValue([c][1..]);
    } else {
      assert forall i :: 0 <= i < |s[1..]| ==> s[1..][i] == s[i + 1];
      PlaceSnoc(s[1..], c);
      assert (s + [c])[0] == s[0] && (s + [c])[1..] == s[1..] + [c];
      TimesSixteen(HexValue(s[0]).value, Sixteen(|s| - 1));
    }
  }

  lemma {:induction false} HexIsPlaceValue(s: string)
    ensures HexDigitsValue(s).Some? <==> IsHexText(s)
    ensures IsHexText(s) ==> HexDigitsValue(s) == Some(PlaceValue(s))
  {
    hide HexValue, PlaceValue;
    if s != "" {
      var n := |s| - 1;
      HexIsPlaceValue(s[..n]);
      assert forall i :: 0 <= i < n ==> s[..n][i] == s[i];
      assert s == s[..n] + [s[n]];
      if IsHexText(s) {
        PlaceSnoc(s[..n], s[n]);
      }
    } else {
      EmptyPlace();
    }
  }

  lemma EmptyPlace()
    ensures PlaceValue("") == 0
  {
  }

  /** A size is said by digits whose place values sum up to it and that 64 bits can hold. */
  lemma SaysSizeIff(text: string, n: nat)
    ensures SaysSize(text, n) <==>
              text != "" && IsHexText(text) && PlaceValue(text) == n && n < 0x1_0000_0000_0000_0000
  {
    hide HexDigitsValue, PlaceValue, IsHexText;
    HexIsPlaceValue(text);
  }

  predicate IsBlank(b: byte) {
    b == 32 || b == 9
  }

  /** No extension, or blanks, a semicolon and anything that stays on the line. */
  predicate IsExtension(ext: seq<byte>) {
    && LF !in ext
    && (ext == [] || exists k: nat :: k < |ext| && ext[k] == 59 && forall i :: 0 <= i < k ==> IsBlank(ext[i]))
  }

  datatype Chunk = Chunk(size: string, ext: seq<byte>, data: seq<byte>)

  predicate ValidLine(size: string, ext: seq<byte>, n: nat) {
    SaysSize(size, n) && IsExtension(ext)
  }

  predicate ValidChunk(c: Chunk) {
    c.data != [] && ValidLine(c.size, c.ext, |c.data|)
  }

  lemma {:induction false} HexIsAscii(s: string)
    requires HexDigitsValue(s).Some?
    ensures IsAscii(s) && forall c :: c in s ==> HexValue(c).Some?
  {
    if s != [] {
      HexIsAscii(s[..|s| - 1]);
      forall c | c in s
        ensures HexValue(c).Some?
      {
        assert c in s[..|s| - 1] || c == s[|s| - 1];
      }
    }
  }

  function ChunkLine(size: string, ext: seq<byte>, n: nat): seq<byte>
    requires ValidLine(size, ext, n)
  {
    HexIsAscii(size);
    Bytes(size) + ext
  }

  function EncodeChunk(c: Chunk): seq<byte>
    requires ValidChunk(c)
  {
    ChunkLine(c.size, c.ext, |c.data|) + CRLF + (c.data + CRLF)
  }

  /** Every chunk, then the line of the last chunk; the trailer and what follows it is not part of it. */
  function Encode(chunks: seq<Chunk>, last: string, ext: seq<byte>): seq<byte>
    requires (forall c :: c in chunks ==> ValidChunk(c)) && ValidLine(last, ext, 0)
  {
    if chunks == [] then ChunkLine(last, ext, 0) + CRLF
    else
      assert chunks[0] in chunks;
      EncodeChunk(chunks[0]) + Encode(chunks[1..], last, ext)
  }

  function Payload(chunks: seq<Chunk>): seq<byte> {
    if chunks == [] then [] else chunks[0].data + Payload(chunks[1..])
  }

  // ----- the chunk line

  lemma {:induction false} TrimEndKeeps(a: string, c: char, rest: string)
    requires !IsWhitespace(c)
    ensures TrimEnd(a + [c] + rest) == a + [c] + TrimEnd(rest)
  {
    var s := a + [c] + rest;
    if rest == [] {
      assert s[|s| - 1] == c;
    } else {
      assert s[|s| - 1] == rest[|rest| - 1];
      if IsWhitespace(rest[|rest| - 1]) {
        assert s[..|s| - 1] == a + [c] + rest[..|rest| - 1];
        TrimEndKeeps(a, c, rest[..|rest| - 1]);
      }
    }
  }

  lemma {:induction false} TrimEndDropsBlanks(a: string, blanks: string)
    requires forall c :: c in blanks ==> IsWhitespace(c)
    ensures TrimEnd(a + blanks) == TrimEnd(a)
  {
    if blanks == [] {
      assert a + blanks == a;
    } else {
      var s := a + blanks;
      assert s[|s| - 1] == blanks[|blanks| - 1] && blanks[|blanks| - 1] in blanks;
      assert s[..|s| - 1] == a + blanks[..|blanks| - 1];
      TrimEndDropsBlanks(a, blanks[..|blanks| - 1]);
    }
  }

  lemma HexIsTrimmed(s: string)
    requires s != "" && HexDigitsValue(s).Some?
    ensures !IsWhitespace(s[0]) && !IsWhitespace(s[|s| - 1]) && s[0] != '+' && ';' !in s
  {
    HexIsAscii(s);
    assert s[0] in s && s[|s| - 1] in s;
  }

  lemma TextOfSize(size: string, blanks: string, n: nat)
    requires SaysSize(size, n) && forall c :: c in blanks ==> IsWhitespace(c) && c != ';'
    ensures Trim(size + blanks) == size && ';' !in size + blanks && ParseHex(size) == Some(n)
  {
    HexIsTrimmed(size);
    assert (size + blanks)[0] == size[0];
    TrimEndDropsBlanks(size, blanks);
  }

  /** The text of a chunk line with an extension says its size. */
  lemma TextWithExtension(size: string, blanks: string, tail: string, n: nat)
    requires SaysSize(size, n) && forall c :: c in blanks ==> IsWhitespace(c) && c != ';'
    ensures ChunkSize(size + blanks + ";" + tail) == Some(n)
  {
    hide ParseHex, SplitOn, SaysSize;
    var text := size + blanks + ";" + tail;
    TextOfSize(size, blanks, n);
    SizeStarts(size, n);
    assert text[0] == size[0];
    assert TrimStart(text) == text;
    TrimEndKeeps(size + blanks, ';', tail);
    SplitOnSeparator(size + blanks, ';', TrimEnd(tail));
  }

  lemma SizeStarts(size: string, n: nat)
    requires SaysSize(size, n)
    ensures size != "" && !IsWhitespace(size[0])
  {
    HexIsTrimmed(size);
  }

  lemma TextWithoutExtension(size: string, n: nat)
    requires SaysSize(size, n)
    ensures ChunkSize(size) == Some(n)
  {
    assert size + "" == size;
    TextOfSize(size, "", n);
    SplitOnFresh(size, ';');
  }

  /** The chunk line says its size whatever the extensions are. */
  lemma LineSaysSize(size: string, ext: seq<byte>, n: nat, decode: seq<byte> -> string)
    requires ValidLine(size, ext, n) && DecodesAscii(decode)
    ensures ChunkSize(decode(ChunkLine(size, ext, n))) == Some(n)
  {
    hide ChunkSize;
    HexIsAscii(size);
    if ext == [] {
      TextWithoutExtension(size, n);
      assert decode(Bytes(size) + []) == size + decode([]);
      assert size + "" == size;
    } else {
      var k: nat :| k < |ext| && ext[k] == 59 && forall i :: 0 <= i < k ==> IsBlank(ext[i]);
      var blanks: string := seq(k, i requires 0 <= i < k => ext[i] as char);
      var rest := ext[k + 1..];
      hide HexDigitsValue;
      BytesOfLine(size, blanks, ext, k);
      assert decode(Bytes(size + blanks + ";") + rest) == size + blanks + ";" + decode(rest);
      TextWithExtension(size, blanks, decode(rest), n);
    }
  }

  lemma BytesOfLine(size: string, blanks: string, ext: seq<byte>, k: nat)
    requires IsAscii(size) && k < |ext| && ext[k] == 59 && |blanks| == k
    requires forall i :: 0 <= i < k ==> IsBlank(ext[i]) && blanks[i] == ext[i] as char
    ensures IsAscii(size + blanks + ";")
    ensures Bytes(size) + ext == Bytes(size + blanks + ";") + ext[k + 1..]
    ensures forall c :: c in blanks ==> IsWhitespace(c) && c != ';'
  {
    hide Bytes;
    var line := size + blanks + ";";
    assert IsAscii(line);
    var a, b := Bytes(size) + ext, Bytes(line) + ext[k + 1..];
    forall i | 0 <= i < |a|
      ensures a[i] == b[i]
    {
      if i < |size| {
        assert line[i] == size[i];
      } else if i < |size| + k {
        assert line[i] == blanks[i - |size|];
      }
    }
  }

  // ----- the theorems

  lemma LineEnds(line: seq<byte>, rest: seq<byte>)
    requires LF !in line
    ensures FindCrlf(line + CRLF + rest) == Some(|line|)
  {
    var body := line + CRLF + rest;
    assert body[|line|] == CR && body[|line| + 1] == LF;
    assert forall i :: 0 <= i < |line| ==> body[i] == line[i] && line[i] in line;
  }

  lemma LineHasNoLf(size: string, ext: seq<byte>, n: nat)
    requires ValidLine(size, ext, n)
    ensures LF !in ChunkLine(size, ext, n)
  {
    HexIsAscii(size);
    forall i | 0 <= i < |size|
      ensures Bytes(size)[i] != LF
    {
      assert size[i] in size;
    }
  }

  /** One chunk in front is decoded off. */
  lemma ChunkInFront(c: Chunk, rest: seq<byte>, decode: seq<byte> -> string)
    requires ValidChunk(c) && DecodesAscii(decode)
    ensures Dechunk(EncodeChunk(c) + rest, decode) == Behind(c.data, Dechunk(rest, decode))
  {
    hide ChunkLine, ChunkSize, FindCrlf;
    var n := |c.data|;
    var line := ChunkLine(c.size, c.ext, n);
    var after := c.data + CRLF + rest;
    var body := line + CRLF + after;
    assert EncodeChunk(c) + rest == body;
    LineHasNoLf(c.size, c.ext, n);
    LineEnds(line, after);
    LineSaysSize(c.size, c.ext, n, decode);
    assert body[..|line|] == line && body[|line| + 2..] == after;
    assert after[..n] == c.data && after[n..] == CRLF + rest;
    assert (CRLF + rest)[2..] == rest;
  }

  /** Chunked decoding inverts the encoding: whatever the chunks, their spelling of sizes, their
      extensions and what follows, the result is the concatenated data. */
  lemma {:induction false} DechunkOfEncoding(
    chunks: seq<Chunk>, last: string, ext: seq<byte>, trailer: seq<byte>, decode: seq<byte> -> string)
    requires (forall c :: c in chunks ==> ValidChunk(c)) && ValidLine(last, ext, 0) && DecodesAscii(decode)
    ensures Dechunk(Encode(chunks, last, ext) + trailer, decode) == Success(Payload(chunks))
  {
    hide ChunkLine, ChunkSize, FindCrlf, EncodeChunk, ValidChunk, DecodesAscii;
    if chunks == [] {
      var line := ChunkLine(last, ext, 0);
      LineHasNoLf(last, ext, 0);
      LineEnds(line, trailer);
      LineSaysSize(last, ext, 0, decode);
      assert (line + CRLF + trailer)[..|line|] == line;
    } else {
      assert chunks[0] in chunks;
      var rest := Encode(chunks[1..], last, ext) + trailer;
      assert Encode(chunks, last, ext) + trailer == EncodeChunk(chunks[0]) + rest;
      ChunkInFront(chunks[0], rest, decode);
      DechunkOfEncoding(chunks[1..], last, ext, trailer, decode);
    }
  }

  lemma NoLineEnd(line: seq<byte>, k: nat)
    requires LF !in line && k < |line| + 2
    ensures FindCrlf((line + CRLF)[..k]).None?
  {
    var cut := (line + CRLF)[..k];
    assert forall i :: 0 <= i < |cut| ==> cut[i] == (line + CRLF)[i];
    assert forall i :: 0 <= i < |line| ==> (line + CRLF)[i] == line[i] && line[i] in line;
  }

  /** A chunk cut anywhere is an error. */
  lemma CutChunkFails(c: Chunk, k: nat, decode: seq<byte> -> string)
    requires ValidChunk(c) && DecodesAscii(decode) && k < |EncodeChunk(c)|
    ensures Dechunk(EncodeChunk(c)[..k], decode).Failure?
  {
    hide ChunkLine, ChunkSize;
    var n := |c.data|;
    var line := ChunkLine(c.size, c.ext, n);
    var body := EncodeChunk(c)[..k];
    LineHasNoLf(c.size, c.ext, n);
    if k < |line| + 2 {
      NoLineEnd(line, k);
      assert body == (line + CRLF)[..k];
    } else {
      var after := (c.data + CRLF)[..k - |line| - 2];
      assert body == line + CRLF + after;
      LineEnds(line, after);
      LineSaysSize(c.size, c.ext, n, decode);
      assert body[..|line|] == line && body[|line| + 2..] == after;
      if |after| >= n {
        assert after[n..] == CRLF[..|after| - n];
        assert FindCrlf(AfterData(after[n..])).None?;
      }
    }
  }

  /** A response cut short is never taken for a shorter one: a prefix decodes if and only if it reaches
      the end of the last chunk's line. */
  lemma {:induction false} PrefixDecodesIff(
    chunks: seq<Chunk>, last: string, ext: seq<byte>, k: nat, decode: seq<byte> -> string)
    requires (forall c :: c in chunks ==> ValidChunk(c)) && ValidLine(last, ext, 0) && DecodesAscii(decode)
    requires k <= |Encode(chunks, last, ext)|
    ensures Dechunk(Encode(chunks, last, ext)[..k], decode).Success? <==> k == |Encode(chunks, last, ext)|
  {
    hide ChunkLine, ChunkSize, FindCrlf, EncodeChunk, ValidChunk, DecodesAscii;
    var all := Encode(chunks, last, ext);
    if k == |all| {
      assert all[..k] == all + [];
      DechunkOfEncoding(chunks, last, ext, [], decode);
    } else if chunks == [] {
      LineHasNoLf(last, ext, 0);
      NoLineEnd(ChunkLine(last, ext, 0), k);
    } else {
      assert chunks[0] in chunks;
      var first := EncodeChunk(chunks[0]);
      if k < |first| {
        assert all[..k] == first[..k];
        CutChunkFails(chunks[0], k, decode);
      } else {
        var rest := Encode(chunks[1..], last, ext);
        assert all[..k] == first + rest[..k - |first|];
        ChunkInFront(chunks[0], rest[..k - |first|], decode);
        PrefixDecodesIff(chunks[1..], last, ext, k - |first|, decode);
      }
    }
  }

  // ----- percent-encoding

  /** The bytes that stand for themselves in a request path. */
  predicate IsPlain(b: byte) {
    || 'A' as int <= b <= 'Z' as int || 'a' as int <= b <= 'z' as int || '0' as int <= b <= '9' as int
    || b == '-' as int || b == '_' as int || b == '.' as int || b == '~' as int || b == '/' as int
  }

  function UpperHexDigit(n: nat): char
    requires n < 16
  {
    if n < 10 then ('0' as int + n) as char else ('A' as int + (n - 10)) as char
  }

  function EncodeByte(b: byte): string {
    if IsPlain(b) then [b as char] else ['%', UpperHexDigit(b / 16), UpperHexDigit(b % 16)]
  }

  function EncodePath(value: seq<byte>): string {
    if value == [] then "" else EncodeByte(value[0]) + EncodePath(value[1..])
  }

  lemma {:induction false} EncodePathAppend(a: seq<byte>, b: seq<byte>)
    ensures EncodePath(a + b) == EncodePath(a) + EncodePath(b)
  {
    hide EncodeByte;
    if a == [] {
      assert a + b == b;
      assert "" + EncodePath(b) == EncodePath(b);
    } else {
      EncodePathAppend(a[1..], b);
      assert (a + b)[1..] == a[1..] + b;
      assert EncodeByte(a[0]) + (EncodePath(a[1..]) + EncodePath(b)) == EncodePath(a) + EncodePath(b);
    }
  }

  method EncodePathLoop(value: seq<byte>) returns (encoded: string)
    ensures encoded == EncodePath(value)
  {
    encoded := "";
    for i := 0 to |value|
      invariant encoded == EncodePath(value[..i])
    {
      assert value[..i + 1] == value[..i] + [value[i]];
      EncodePathAppend(value[..i], [value[i]]);
      assert [value[i]][1..] == [];
      assert EncodePath([value[i]]) == EncodeByte(value[i]) + "";
      if IsPlain(value[i]) {
        encoded := encoded + [value[i] as char];
      } else {
        encoded := encoded + "%" + [UpperHexDigit(value[i] / 16)] + [UpperHexDigit(value[i] % 16)];
      }
    }
    assert value[..|value|] == value;
  }

  /** Percent-decoding: `%` and two digits are one byte, every other character is itself. */
  function PercentDecode(s: string): Option<seq<byte>> {
    if s == [] then Some([])
    else if s[0] == '%' then
      if |s| < 3 then None
      else match (HexValue(s[1]), HexValue(s[2]), PercentDecode(s[3..]))
        case (Some(high), Some(low), Some(rest)) => Some([16 * high + low] + rest)
        case _ => None
    else if s[0] as int >= 128 then None
    else match PercentDecode(s[1..])
      case None => None
      case Some(rest) => Some([s[0] as int] + rest)
  }

  /** Percent-encoding loses nothing. */
  lemma {:induction false} PercentRoundTrip(value: seq<byte>)
    ensures PercentDecode(EncodePath(value)) == Some(value)
  {
    if value != [] {
      PercentRoundTrip(value[1..]);
      var b, rest := value[0], EncodePath(value[1..]);
      var s := EncodePath(value);
      assert value == [b] + value[1..];
      if IsPlain(b) {
        assert s[0] == b as char && s[1..] == rest;
      } else {
        assert s[0] == '%' && s[3..] == rest;
        UpperHexRoundTrip(b / 16);
        UpperHexRoundTrip(b % 16);
      }
    }
  }

  lemma UpperHexRoundTrip(n: nat)
    requires n < 16
    ensures HexValue(UpperHexDigit(n)) == Some(n)
  {
  }

  /** The unreserved characters of section 2.3 of RFC 3986. */
  predicate IsUnreserved(c: char) {
    'A' <= c <= 'Z' || 'a' <= c <= 'z' || '0' <= c <= '9' || c == '-' || c == '.' || c == '_' || c == '~'
  }

  /** The encoded path holds unreserved characters, slashes and percent signs, and nothing else that a
      request line could trip over. */
  lemma {:induction false} EncodedPathIsPlain(value: seq<byte>)
    ensures forall c :: c in EncodePath(value) ==> c == '%' || c == '/' || IsUnreserved(c)
  {
    hide IsUnreserved, EncodeByte;
    if value != [] {
      EncodedPathIsPlain(value[1..]);
      EncodedByteIsPlain(value[0]);
    }
  }

  /** A path of unreserved characters and slashes is sent as it is. */
  lemma {:induction false} PlainPathIsKept(value: seq<byte>)
    requires forall b :: b in value ==> b as char == '/' || IsUnreserved(b as char)
    ensures |EncodePath(value)| == |value| && forall i :: 0 <= i < |value| ==> EncodePath(value)[i] == value[i] as char
  {
    if value != [] {
      assert value[0] in value && forall b :: b in value[1..] ==> b in value;
      PlainPathIsKept(value[1..]);
    }
  }

  /** Every slash is kept, and no other byte becomes one. */
  lemma {:induction false} EncodedPathKeepsSlashes(value: seq<byte>)
    ensures multiset(EncodePath(value))['/'] == multiset(value)[47]
  {
    hide IsPlain, EncodeByte;
    if value != [] {
      EncodedPathKeepsSlashes(value[1..]);
      EncodedByteIsPlain(value[0]);
      assert value == [value[0]] + value[1..];
      CountAppend(EncodeByte(value[0]), EncodePath(value[1..]));
    }
  }

  lemma CountAppend(a: string, b: string)
    ensures multiset(a + b)['/'] == multiset(a)['/'] + multiset(b)['/']
  {
  }

  lemma EncodedByteIsPlain(b: byte)
    ensures forall c :: c in EncodeByte(b) ==> c == '%' || c == '/' || IsUnreserved(c)
    ensures multiset(EncodeByte(b))['/'] == if b == 47 then 1 else 0
  {
  }
}
