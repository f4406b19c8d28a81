/** The rules of an archive record, in its own terms: what a summary has to be, what validation makes of
    one, and what a reader can rely on in every record it believes. */
module ArchiveRules {
  import opened Wrappers
  import opened Text
  import opened Trimming
  import opened Identity
  import opened Summary
  import opened ArchiveRecord
  import opened ArchiveReader
  import opened ArchiveRoundTrip

  // ----- summaries

  /** A text of this length at most, without whitespace at its ends and without control characters but
      tabs; one of several lines may hold line feeds, but no second-level heading. */
  predicate IsText(s: string, limit: nat, singleLine: bool) {
    && 0 < |s| <= limit && !IsWhitespace(s[0]) && !IsWhitespace(s[|s| - 1])
    && (forall c :: c in s && IsControl(c) ==> c == '\t' || (c == '\n' && !singleLine))
    && (singleLine || forall i :: 0 <= i < |s| ==> !OccursAt(s, i, "\n## "))
  }

  predicate IsList(values: seq<string>, limit: nat) {
    |values| <= 200 && forall v :: v in values ==> IsText(v, limit, true)
  }

  predicate IsSummary(s: StructuredSummary) {
    && IsText(s.title, 200, true) && IsText(s.goal, 4000, false)
    && s.workCompleted != [] && IsList(s.workCompleted, 4000) && IsList(s.decisions, 4000)
    && IsList(s.filesChanged, 4000) && IsList(s.commandsAndValidation, 4000) && IsList(s.openItems, 4000)
    && IsList(s.tags, 100)
  }

  /** `t` is `s` with every line end written as one line feed. */
  predicate Folds(s: string, t: string) {
    if s == "" then t == ""
    else if t == "" then false
    else if s[0] == '\r' then t[0] == '\n' && Folds(s[if |s| >= 2 && s[1] == '\n' then 2 else 1..], t[1..])
    else t[0] == s[0] && Folds(s[1..], t[1..])
  }

  /** `text` is what a value says: its core, with its line ends folded. */
  ghost predicate Becomes(value: string, text: string) {
    exists core :: IsCore(value, core) && Folds(core, text)
  }

  ghost predicate EachBecomes(values: seq<string>, texts: seq<string>) {
    |values| == |texts| && forall i :: 0 <= i < |values| ==> Becomes(values[i], texts[i])
  }

  /** Replacing in two passes folds in one. */
  lemma {:induction false} FoldIff(s: string, t: string)
    ensures Folds(s, t) <==> t == ReplaceCr(ReplaceCrLf(s))
  {
    if s != "" {
      var n := if |s| >= 2 && s[0] == '\r' && s[1] == '\n' then 2 else 1;
      var once := ReplaceCrLf(s);
      assert once[1..] == ReplaceCrLf(s[n..]);
      if t != "" {
        FoldIff(s[n..], t[1..]);
        assert t == [t[0]] + t[1..];
      }
    }
  }

  lemma BecomesIff(value: string, text: string)
    ensures Becomes(value, text) <==> Trim(value) != "" && text == ReplaceCr(ReplaceCrLf(Trim(value)))
  {
    hide Trim, IsCore, Folds, ReplaceCr, ReplaceCrLf;
    forall core
      ensures IsCore(value, core) ==> core != "" && core == Trim(value)
    {
      CoreIsNotEmpty(value, core);
      TrimIff(value, core);
    }
    TrimIff(value, Trim(value));
    FoldIff(Trim(value), text);
  }

  lemma CoreIsNotEmpty(s: string, t: string)
    ensures IsCore(s, t) ==> t != ""
  {
  }

  lemma NormalTextIff(s: string, limit: nat, singleLine: bool)
    ensures NormalText(s, limit, singleLine) <==> IsText(s, limit, singleLine)
  {
    assert forall i :: i > |s| ==> !OccursAt(s, i, "\n## ");
    assert IsControl('\r') && IsControl('\n');
  }

  /** A text passes exactly when what it says keeps the rules, and that is what is taken over. */
  lemma TextPassesIff(value: string, limit: nat, singleLine: bool, text: string)
    ensures ValidateText(value, limit, singleLine) == Success(text) <==> Becomes(value, text) && IsText(text, limit, singleLine)
  {
    hide Becomes, IsText, Trim, ReplaceCr, ReplaceCrLf, NormalText, AcceptableText;
    ValidatedTextIsNormal(value, limit, singleLine);
    BecomesIff(value, text);
    NormalTextIff(text, limit, singleLine);
    EmptyIsRefused(value, limit, singleLine);
    NormalIsAcceptable(text, limit, singleLine);
  }

  lemma NormalIsAcceptable(text: string, limit: nat, singleLine: bool)
    ensures NormalText(text, limit, singleLine) ==> AcceptableText(text, limit, singleLine)
  {
  }

  lemma EmptyIsRefused(value: string, limit: nat, singleLine: bool)
    ensures Trim(value) == "" ==> ValidateText(value, limit, singleLine).Failure?
  {
    hide Trim;
  }

  lemma {:induction false} ItemsPassIff(values: seq<string>, limit: nat, texts: seq<string>)
    ensures ValidateItems(values, limit) == Success(texts) <==>
              EachBecomes(values, texts) && forall t :: t in texts ==> IsText(t, limit, true)
  {
    hide Becomes, IsText, ValidateText;
    if values != [] && texts != [] {
      TextPassesIff(values[0], limit, true, texts[0]);
      ItemsPassIff(values[1..], limit, texts[1..]);
      assert texts == [texts[0]] + texts[1..];
      assert EachBecomes(values, texts) <==> Becomes(values[0], texts[0]) && EachBecomes(values[1..], texts[1..]);
      assert forall t :: t in texts <==> t == texts[0] || t in texts[1..];
    } else if values != [] {
      assert ValidateItems(values, limit).Success? ==> ValidateItems(values, limit).value != [];
    }
  }

  lemma ListPassesIff(values: seq<string>, limit: nat, texts: seq<string>)
    ensures ValidateList(values, limit) == Success(texts) <==> EachBecomes(values, texts) && IsList(texts, limit)
  {
    hide Becomes, IsText, ValidateItems;
    ItemsPassIff(values, limit, texts);
    assert ValidateItems(values, limit) == Success(texts) ==> |texts| == |values|;
  }

  /** Validation takes over exactly what the fields say, each trimmed and with its line ends folded, and
      only when that keeps every rule of a summary. */
  lemma SummaryPassesIff(s: StructuredSummary, v: StructuredSummary)
    ensures ValidateSummary(s) == Success(v) <==>
              && IsSummary(v)
              && Becomes(s.title, v.title) && Becomes(s.goal, v.goal)
              && EachBecomes(s.workCompleted, v.workCompleted) && EachBecomes(s.decisions, v.decisions)
              && EachBecomes(s.filesChanged, v.filesChanged)
              && EachBecomes(s.commandsAndValidation, v.commandsAndValidation)
              && EachBecomes(s.openItems, v.openItems) && EachBecomes(s.tags, v.tags)
  {
    hide Becomes, EachBecomes, IsText, IsList, ValidateText, ValidateList;
    TextPassesIff(s.title, 200, true, v.title);
    TextPassesIff(s.goal, 4000, false, v.goal);
    ListPassesIff(s.workCompleted, 4000, v.workCompleted);
    ListPassesIff(s.decisions, 4000, v.decisions);
    ListPassesIff(s.filesChanged, 4000, v.filesChanged);
    ListPassesIff(s.commandsAndValidation, 4000, v.commandsAndValidation);
    ListPassesIff(s.openItems, 4000, v.openItems);
    ListPassesIff(s.tags, 100, v.tags);
  }

  // ----- records

  predicate IsHexDigit(c: char) {
    '0' <= c <= '9' || 'a' <= c <= 'f'
  }

  predicate IsDigest(h: string) {
    |h| == 64 && forall i :: 0 <= i < 64 ==> IsHexDigit(h[i])
  }

  predicate IsSha256(h: string) {
    |h| == 71 && h[..7] == "sha256:" && forall i :: 7 <= i < 71 ==> IsHexDigit(h[i])
  }

  predicate IsProject(p: ProjectIdentity) {
    && p.project != "" && p.identity != "" && p.component != "." && p.component != ".."
    && forall c :: c in p.component ==> c != '/' && c != '\\'
  }

  predicate IsCompletion(reason: string) {
    reason == "complete" || reason == "interrupted" || reason == "unknown"
  }

  predicate IsFallback(reason: Option<string>) {
    || reason == None || reason == Some("cursor-mismatch")
    || reason == Some("normalizer-changed") || reason == Some("source-truncated")
  }

  predicate IsEntry(e: ArtifactIndexEntry) {
    IsDigest(e.sha256) && e.eventKind != ""
  }

  lemma DigestIff(h: string)
    ensures |h| == 64 && IsLowerHex(h) <==> IsDigest(h)
  {
    assert forall i :: 0 <= i < |h| ==> h[i] in h;
  }

  lemma HashIff(h: string)
    ensures ValidHash(h) <==> IsSha256(h)
  {
    if |h| >= 7 && h[..7] == "sha256:" {
      assert StripPrefix(h, "sha256:") == Some(h[7..]);
      DigestIff(h[7..]);
      if |h| == 71 {
        assert forall i :: 7 <= i < 71 ==> h[i] == h[7..][i - 7];
        assert forall i :: 0 <= i < 64 ==> h[7..][i] == h[i + 7];
      }
    }
  }

  /** What a revision has to be to be written, member by member. */
  lemma WellFormedIff(r: Revision)
    ensures WellFormed(r) <==>
              && IsProject(r.project) && IsSha256(r.session.sourceHash)
              && r.session.sourcePrefixHash == r.session.sourceHash && r.session.sourceByteCursor == r.session.sourceBytes
              && r.number > 0 && IsCompletion(r.completionReason) && IsFallback(r.fallbackReason)
              && forall e :: e in r.session.extractedOutputs ==> IsEntry(e) && ' ' !in e.eventKind
  {
    hide IsSha256, ValidHash, IsDigest, IsLowerHex;
    HashIff(r.session.sourceHash);
    forall e: ArtifactIndexEntry
      ensures WellFormedEntry(e) <==> IsEntry(e) && ' ' !in e.eventKind
    {
      DigestIff(e.sha256);
    }
  }

  predicate HasEntries(state: ReadState) {
    forall e :: e in state.parsed.extractedOutputs ==> IsEntry(e)
  }

  lemma EntryIsValid(value: string)
    ensures ParseEntry(value).Success? ==> IsEntry(ParseEntry(value).value)
  {
    hide ReadTokens, ParseString, IsLowerHex, IsDigest, SplitOn;
    if ParseEntry(value).Success? {
      DigestIff(ParseEntry(value).value.sha256);
    }
  }

  lemma LineKeepsEntries(state: ReadState, line: string)
    requires HasEntries(state)
    ensures ReadLine(state, line).Success? ==> HasEntries(ReadLine(state, line).value)
  {
    hide IsEntry, ParseEntry, ParseString, SplitOnce;
    var item := StripPrefix(line, "  - ");
    if item.Some? {
      EntryIsValid(item.value);
    }
  }

  lemma {:induction false} LinesKeepEntries(state: ReadState, lines: seq<string>)
    requires HasEntries(state)
    ensures ReadLines(state, lines).Success? ==> HasEntries(ReadLines(state, lines).value)
    decreases |lines|
  {
    hide HasEntries, ReadLine;
    if lines != [] {
      LineKeepsEntries(state, lines[0]);
      var next := ReadLine(state, lines[0]);
      if next.Success? {
        LinesKeepEntries(next.value, lines[1..]);
      }
    }
  }

  lemma FrontmatterHasEntries(front: string)
    ensures ParseFrontmatter(front).Success? ==> forall e :: e in ParseFrontmatter(front).value.extractedOutputs ==> IsEntry(e)
  {
    hide IsEntry, ReadLines, Lines;
    assert HasEntries(START);
    LinesKeepEntries(START, Lines(front));
  }

  predicate IsCursor(c: ArchivedCursor, m: ArchivedMarkdown) {
    && c.normalizerVersion > 0 && c.recordCount == m.sourceCursor && c.byteOffset == c.sourceBytes
    && c.sourceHash == m.sourceHash && c.prefixHash == m.sourceHash
  }

  /** Everything but the summary and the times. */
  predicate IsHeader(m: ArchivedMarkdown) {
    && (m.schemaVersion == 1 || m.schemaVersion == 2)
    && 0 < m.revision < 0x1_0000_0000_0000_0000
    && IsProject(m.project) && IsSha256(m.sourceHash)
    && IsCompletion(m.completionReason) && IsFallback(m.fallbackReason)
    && (m.cursor.Some? <==> m.schemaVersion == 2)
    && (m.cursor.Some? ==> IsCursor(m.cursor.value, m))
    && (m.transcriptSha256.Some? ==> IsSha256(m.transcriptSha256.value))
  }

  lemma CursorIsValid(fields: map<string, string>, schema: nat, sourceCursor: nat, sourceHash: string)
    ensures ParseCursor(fields, schema, sourceCursor, sourceHash).Success? ==>
              var cursor := ParseCursor(fields, schema, sourceCursor, sourceHash).value;
              && (cursor.Some? <==> schema >= 2)
              && (cursor.Some? ==>
                    var c := cursor.value;
                    && c.normalizerVersion > 0 && c.recordCount == sourceCursor && c.byteOffset == c.sourceBytes
                    && c.sourceHash == sourceHash && c.prefixHash == sourceHash)
  {
    hide NumberField, StringField, ValidHash;
  }

  lemma ReasonsAreValid(fields: map<string, string>)
    ensures ParseReasons(fields).Success? ==>
              IsCompletion(ParseReasons(fields).value.0) && IsFallback(ParseReasons(fields).value.1)
  {
    hide OptionalString;
  }

  lemma IndexIsValid(fields: map<string, string>)
    ensures ParseIndex(fields).Success? ==>
              var transcript := ParseIndex(fields).value.1;
              transcript.Some? ==> IsSha256(transcript.value)
  {
    hide OptionalNumber, OptionalString, ValidHash, IsSha256;
    if ParseIndex(fields).Success? && ParseIndex(fields).value.1.Some? {
      HashIff(ParseIndex(fields).value.1.value);
    }
  }

  lemma HeaderIsValid(fields: map<string, string>, outputs: seq<ArtifactIndexEntry>, summary: StructuredSummary)
    ensures ParseHeader(fields, outputs, summary).Success? ==>
              var m := ParseHeader(fields, outputs, summary).value;
              IsHeader(m) && m.extractedOutputs == outputs
  {
    hide ParseCursor, ParseReasons, ParseIndex, ParseSession, ParseProject, StringField, ParsePlaceholderFlag;
    hide ValidHash, IsSha256, IsCompletion, IsFallback;
    if ParseHeader(fields, outputs, summary).Success? {
      var m := ParseHeader(fields, outputs, summary).value;
      CursorIsValid(fields, m.schemaVersion, m.sourceCursor, m.sourceHash);
      ReasonsAreValid(fields);
      IndexIsValid(fields);
      HashIff(m.sourceHash);
    }
    hide NumberField;
  }

  lemma NormalSummaryIff(s: StructuredSummary)
    ensures NormalSummary(s) <==> IsSummary(s)
  {
    hide NormalText, IsText;
    forall t, limit, singleLine
      ensures NormalText(t, limit, singleLine) <==> IsText(t, limit, singleLine)
    {
      NormalTextIff(t, limit, singleLine);
    }
  }

  /** Whatever a file says, a record read from it keeps every rule: a known schema, a positive revision, a
      routable project, hashes that are hashes, known reasons, a cursor at the end of the source exactly
      from the second schema on, a summary as it is written, and the placeholder's mark on the
      placeholder. */
  lemma BelievedIsValid(text: string)
    requires Parse(text).Success?
    ensures var m := Parse(text).value;
            && IsHeader(m)
            && (forall e :: e in m.extractedOutputs ==> IsEntry(e))
            && IsSummary(m.summary)
            && ("munshi-placeholder-summary" in m.summary.tags ==> m.summaryPlaceholder)
  {
    hide ParseFrontmatter, ParseHeader, ParseBody, ValidateSummary, OptionalString, StripPrefix, SplitOnce;
    hide IsProject, IsSha256, IsCompletion, IsFallback, IsSummary, IsEntry, NormalSummary;
    var (front, body) := SplitOnce(StripPrefix(text, "---\n").value, "\n---\n\n").value;
    FrontmatterHasEntries(front);
    var fm := ParseFrontmatter(front).value;
    HeaderIsValid(fm.fields, fm.extractedOutputs, StructuredSummary("", "", [], [], [], [], [], fm.tags));
    var raw := ParseBody(body, fm.tags).value;
    ValidatedSummaryIsNormal(raw);
    NormalSummaryIff(Parse(text).value.summary);
  }

  // ----- names and lines

  /** A session identifier is one path component of at most 128 characters: letters, digits, dots, dashes
      and underscores, and neither of the two names that every directory has. */
  lemma SessionIdIff(id: string)
    ensures ValidSessionId(id) <==>
              && 1 <= |id| <= 128 && id != "." && id != ".."
              && forall i :: 0 <= i < |id| ==>
                   || 'a' <= id[i] <= 'z' || 'A' <= id[i] <= 'Z' || '0' <= id[i] <= '9'
                   || id[i] == '.' || id[i] == '-' || id[i] == '_'
  {
    assert forall i :: 0 <= i < |id| ==> id[i] in id;
  }

  function Returned(lines: seq<string>): (r: seq<string>)
    ensures |r| == |lines| && forall i :: 0 <= i < |lines| ==> r[i] == lines[i] + "\r"
  {
    if lines == [] then [] else [lines[0] + "\r"] + Returned(lines[1..])
  }

  lemma ReturnDropped(line: string)
    ensures DropCarriageReturn(line + "\r") == line
  {
    assert (line + "\r")[..|line|] == line;
  }

  lemma SplitReturned(lines: seq<string>)
    requires forall l :: l in lines ==> '\n' !in l
    ensures SplitOn(Terminated(Returned(lines)), '\n') == Returned(lines) + [""]
  {
    forall l | l in Returned(lines)
      ensures '\n' !in l
    {
      var i :| 0 <= i < |lines| && Returned(lines)[i] == l;
      assert lines[i] in lines;
    }
    SplitOnTerminated(Returned(lines));
  }

  /** Lines that end in a carriage return and a line feed read as those that end in a line feed alone. */
  lemma LinesReadAlike(lines: seq<string>)
    requires forall l :: l in lines ==> IsPlainLine(l)
    ensures Lines(Terminated(Returned(lines))) == lines && Lines(Terminated(lines)) == lines
  {
    LinesOfTerminated(lines);
    SplitReturned(lines);
    hide SplitOn, Terminated;
    var parts := Returned(lines) + [""];
    assert parts[..|lines|] == Returned(lines);
    forall i | 0 <= i < |lines|
      ensures DropCarriageReturn(Returned(lines)[i]) == lines[i]
    {
      ReturnDropped(lines[i]);
    }
    hide DropCarriageReturn;
    assert MapDropCarriageReturn(Returned(lines)) == lines;
  }

  // ----- numbers

  function Ten(k: nat): nat {
    if k == 0 then 1 else 10 * Ten(k - 1)
  }

  predicate IsDigits(s: string) {
    forall i :: 0 <= i < |s| ==> '0' <= s[i] <= '9'
  }

  /** The sum of the digits, each times ten to the power of its place. */
  function PlaceValue(s: string): nat
    requires IsDigits(s)
  {
    if s == "" then 0
    else
      assert forall i :: 0 <= i < |s[1..]| ==> s[1..][i] == s[i + 1];
      (s[0] as int - '0' as int) * Ten(|s| - 1) + PlaceValue(s[1..])
  }

  lemma TimesTen(d: nat, p: nat)
    ensures d * (10 * p) == 10 * (d * p)
  {
  }

  lemma {:induction false} PlaceSnoc(s: string, c: char)
    requires IsDigits(s) && '0' <= c <= '9'
    ensures IsDigits(s + [c]) && PlaceValue(s + [c]) == 10 * PlaceValue(s) + (c as int - '0' as int)
  {
    assert IsDigits(s + [c]);
    if s == "" {
      assert s + [c] == [c] && [c][1..] == "";
      assert PlaceValue([c]) == (c as int - '0' as int) * Ten(0) + PlaceValue([c][1..]);
    } else {
      assert forall i :: 0 <= i < |s[1..]| ==> s[1..][i] == s[i + 1];
      PlaceSnoc(s[1..], c);
      assert (s + [c])[0] == s[0] && (s + [c])[1..] == s[1..] + [c];
      TimesTen(s[0] as int - '0' as int, Ten(|s| - 1));
    }
  }

  lemma {:induction false} DigitsArePlaceValue(s: string)
    ensures DigitsValue(s).Some? <==> IsDigits(s)
    ensures IsDigits(s) ==> DigitsValue(s) == Some(PlaceValue(s))
  {
    if s != "" {
      var n := |s| - 1;
      DigitsArePlaceValue(s[..n]);
      assert forall i :: 0 <= i < n ==> s[..n][i] == s[i];
      assert s == s[..n] + [s[n]];
      if IsDigits(s) {
        PlaceSnoc(s[..n], s[n]);
      }
      hide PlaceValue;
    }
  }

  /** A number is read from its decimal digits, at least one, behind one plus sign at most, and refused
      when it does not fit. */
  lemma NumberReadsIff(s: string, bound: nat, n: nat)
    ensures var digits := if s != "" && s[0] == '+' then s[1..] else s;
            ParseUnsigned(s, bound) == Some(n) <==>
              digits != "" && IsDigits(digits) && PlaceValue(digits) == n && n < bound
  {
    DigitsArePlaceValue(if s != "" && s[0] == '+' then s[1..] else s);
    hide DigitsValue, PlaceValue, IsDigits;
  }
}
