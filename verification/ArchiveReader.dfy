/** Reading an archive Markdown record back: frontmatter lines, field checks, the artifact index,
    the headed summary and its validation. */
module ArchiveReader {
  import opened Wrappers
  import opened Text
  import opened JsonText
  import opened Identity
  import opened Summary
  import opened ArchiveRecord

  datatype ArchiveError = InvalidArchive | InvalidSummary

  datatype ArchivedCursor = ArchivedCursor(
    normalizerVersion: nat,
    recordCount: nat,
    byteOffset: nat,
    prefixHash: string,
    sourceHash: string,
    sourceBytes: nat)

  datatype ArchivedMarkdown = ArchivedMarkdown(
    schemaVersion: nat,
    source: SourceKind,
    sessionId: string,
    project: ProjectIdentity,
    revision: nat,
    completionReason: string,
    fallbackReason: Option<string>,
    cursor: Option<ArchivedCursor>,
    sourceCursor: nat,
    sourceHash: string,
    startedAt: Option<string>,
    updatedAt: Option<string>,
    summaryPlaceholder: bool,
    artifactSetVersion: Option<nat>,
    transcriptSha256: Option<string>,
    extractedOutputs: seq<ArtifactIndexEntry>,
    summary: StructuredSummary)

  // ----- scalars

  function ParseString(value: string): Result<string, ArchiveError> {
    match Unquote(value)
    case None => Failure(InvalidArchive)
    case Some(text) => Success(text)
  }

  function ParseNumber(value: string, bound: nat): (r: Result<nat, ArchiveError>)
    ensures r.Success? ==> r.value < bound
  {
    match ParseUnsigned(value, bound)
    case None => Failure(InvalidArchive)
    case Some(n) => if n < bound then Success(n) else Failure(InvalidArchive)
  }

  predicate ValidHash(value: string) {
    match StripPrefix(value, "sha256:")
    case None => false
    case Some(digest) => |digest| == 64 && IsLowerHex(digest)
  }

  // ----- the artifact index

  /** The last value seen for each token kind. */
  datatype EntryTokens = EntryTokens(sha256: Option<string>, bytes: Option<u64>, eventKind: Option<string>)

  function ReadToken(seen: EntryTokens, token: string): Result<EntryTokens, ArchiveError> {
    match StripPrefix(token, "sha256:")
    case Some(hex) => Success(seen.(sha256 := Some(hex)))
    case None =>
      match StripPrefix(token, "bytes:")
      case Some(size) =>
        var n :- ParseNumber(size, U64_BOUND);
        Success(seen.(bytes := Some(n)))
      case None =>
        match StripPrefix(token, "label:")
        case Some(name) => Success(seen.(eventKind := Some(name)))
        case None => Failure(InvalidArchive)
  }

  function ReadTokens(seen: EntryTokens, tokens: seq<string>): Result<EntryTokens, ArchiveError>
    decreases |tokens|
  {
    if tokens == [] then Success(seen)
    else
      var next :- ReadToken(seen, tokens[0]);
      ReadTokens(next, tokens[1..])
  }

  function FinishEntry(seen: EntryTokens): Result<ArtifactIndexEntry, ArchiveError> {
    match (seen.sha256, seen.bytes, seen.eventKind)
    case (Some(hash), Some(size), Some(kind)) =>
      if |hash| == 64 && IsLowerHex(hash) && kind != ""
      then Success(ArtifactIndexEntry(hash, size, kind))
      else Failure(InvalidArchive)
    case _ => Failure(InvalidArchive)
  }

  /** The meaning of one index item, which `ReadArtifactIndexEntry` computes. */
  function ParseEntry(value: string): Result<ArtifactIndexEntry, ArchiveError> {
    var inner :- ParseString(value);
    var seen :- ReadTokens(EntryTokens(None, None, None), SplitOn(inner, ' '));
    FinishEntry(seen)
  }

  method ReadArtifactIndexEntry(value: string) returns (r: Result<ArtifactIndexEntry, ArchiveError>)
    ensures r == ParseEntry(value)
  {
    var inner :- ParseString(value);
    var tokens := SplitOn(inner, ' ');
    var sha256: Option<string>, bytes: Option<u64>, eventKind: Option<string> := None, None, None;
    for i := 0 to |tokens|
      invariant ParseEntry(value) ==
                match ReadTokens(EntryTokens(sha256, bytes, eventKind), tokens[i..])
                case Failure(e) => Failure(e)
                case Success(seen) => FinishEntry(seen)
    {
      var token := tokens[i];
      assert tokens[i..][1..] == tokens[i + 1..];
      if "sha256:" <= token {
        sha256 := Some(token[|"sha256:"|..]);
      } else if "bytes:" <= token {
        var size := ParseNumber(token[|"bytes:"|..], U64_BOUND);
        if size.Failure? {
          return Failure(size.error);
        }
        bytes := Some(size.value);
      } else if "label:" <= token {
        eventKind := Some(token[|"label:"|..]);
      } else {
        return Failure(InvalidArchive);
      }
    }
    r := FinishEntry(EntryTokens(sha256, bytes, eventKind));
  }

  // ----- frontmatter

  datatype ListKey = Tags | ExtractedOutputs

  datatype Frontmatter = Frontmatter(
    fields: map<string, string>,
    tags: seq<string>,
    extractedOutputs: seq<ArtifactIndexEntry>)

  /** What has been read so far and the list block that is still open. */
  datatype ReadState = ReadState(parsed: Frontmatter, list: Option<ListKey>)

  const START := ReadState(Frontmatter(map[], [], []), None)

  /** A line that opens no item of the open list. */
  function ReadPlainLine(parsed: Frontmatter, line: string): Result<ReadState, ArchiveError> {
    if line == "tags:" then Success(ReadState(parsed, Some(Tags)))
    else if line == "extracted_outputs:" then Success(ReadState(parsed, Some(ExtractedOutputs)))
    else match SplitOnce(line, ": ")
      case None => Failure(InvalidArchive)
      case Some((key, value)) =>
        if key == "tags" || key == "extracted_outputs" then
          if value == "[]" then Success(ReadState(parsed, None)) else Failure(InvalidArchive)
        else Success(ReadState(parsed.(fields := parsed.fields[key := value]), None))
  }

  function ReadLine(state: ReadState, line: string): Result<ReadState, ArchiveError> {
    match (state.list, StripPrefix(line, "  - "))
    case (Some(Tags), Some(value)) =>
      var tag :- ParseString(value);
      Success(state.(parsed := state.parsed.(tags := state.parsed.tags + [tag])))
    case (Some(ExtractedOutputs), Some(value)) =>
      var entry :- ParseEntry(value);
      Success(state.(parsed :=
        state.parsed.(extractedOutputs := state.parsed.extractedOutputs + [entry])))
    case _ => ReadPlainLine(state.parsed, line)
  }

  function ReadLines(state: ReadState, lines: seq<string>): Result<ReadState, ArchiveError>
    decreases |lines|
  {
    if lines == [] then Success(state)
    else
      var next :- ReadLine(state, lines[0]);
      ReadLines(next, lines[1..])
  }

  /** The meaning of a frontmatter block, which `ReadFrontmatter` computes. */
  function ParseFrontmatter(frontmatter: string): Result<Frontmatter, ArchiveError> {
    var state :- ReadLines(START, Lines(frontmatter));
    Success(state.parsed)
  }

  method ReadScalarOrHeader(parsed: Frontmatter, line: string) returns (r: Result<ReadState, ArchiveError>)
    ensures r == ReadPlainLine(parsed, line)
  {
    if line == "tags:" {
      return Success(ReadState(parsed, Some(Tags)));
    }
    if line == "extracted_outputs:" {
      return Success(ReadState(parsed, Some(ExtractedOutputs)));
    }
    var split := SplitOnce(line, ": ");
    if split.None? {
      return Failure(InvalidArchive);
    }
    var (key, value) := split.value;
    if key == "tags" || key == "extracted_outputs" {
      if value == "[]" {
        return Success(ReadState(parsed, None));
      }
      return Failure(InvalidArchive);
    }
    r := Success(ReadState(parsed.(fields := parsed.fields[key := value]), None));
  }

  /** The outcome once the lines from `i` on have been read. */
  function FinishFrom(state: ReadState, lines: seq<string>, i: nat): Result<Frontmatter, ArchiveError>
    requires i <= |lines|
  {
    var final :- ReadLines(state, lines[i..]);
    Success(final.parsed)
  }

  lemma FinishStep(state: ReadState, lines: seq<string>, i: nat)
    requires i < |lines|
    ensures FinishFrom(state, lines, i) ==
            match ReadLine(state, lines[i])
            case Failure(e) => Failure(e)
            case Success(next) => FinishFrom(next, lines, i + 1)
  {
    assert lines[i..][1..] == lines[i + 1..];
  }

  method ReadFrontmatter(frontmatter: string) returns (r: Result<Frontmatter, ArchiveError>)
    ensures r == ParseFrontmatter(frontmatter)
  {
    hide Lines, ParseString, ParseEntry, ReadPlainLine, SplitOnce;
    var parsed := START.parsed;
    var list: Option<ListKey> := None;
    var lines := Lines(frontmatter);
    assert lines[0..] == lines;
    for i := 0 to |lines|
      invariant ParseFrontmatter(frontmatter) == FinishFrom(ReadState(parsed, list), lines, i)
    {
      FinishStep(ReadState(parsed, list), lines, i);
      var item := StripPrefix(lines[i], "  - ");
      if list.Some? && item.Some? {
        match list.value {
          case Tags =>
            var tag :- ParseString(item.value);
            parsed := parsed.(tags := parsed.tags + [tag]);
          case ExtractedOutputs =>
            var entry :- ReadArtifactIndexEntry(item.value);
            parsed := parsed.(extractedOutputs := parsed.extractedOutputs + [entry]);
        }
        continue;
      }
      list := None;
      var next :- ReadScalarOrHeader(parsed, lines[i]);
      parsed, list := next.parsed, next.list;
    }
    r := Success(parsed);
  }

  // ----- fields

  function Lookup(fields: map<string, string>, k: Key): Option<string> {
    if Name(k) in fields then Some(fields[Name(k)]) else None
  }

  function Field(fields: map<string, string>, k: Key): Result<string, ArchiveError> {
    match Lookup(fields, k)
    case None => Failure(InvalidArchive)
    case Some(value) => Success(value)
  }

  function StringField(fields: map<string, string>, k: Key): Result<string, ArchiveError> {
    var value :- Field(fields, k);
    ParseString(value)
  }

  function NumberField(fields: map<string, string>, k: Key, bound: nat): Result<nat, ArchiveError> {
    var value :- Field(fields, k);
    ParseNumber(value, bound)
  }

  function OptionalString(fields: map<string, string>, k: Key): Result<Option<string>, ArchiveError> {
    match Lookup(fields, k)
    case None => Success(None)
    case Some(value) =>
      var text :- ParseString(value);
      Success(Some(text))
  }

  function OptionalNumber(
    fields: map<string, string>, k: Key, bound: nat): Result<Option<nat>, ArchiveError>
  {
    match Lookup(fields, k)
    case None => Success(None)
    case Some(value) =>
      var n :- ParseNumber(value, bound);
      Success(Some(n))
  }

  function OrElse(value: Option<string>, default: string): string {
    match value
    case None => default
    case Some(text) => text
  }

  function FromAgentLabel(name: string): Result<SourceKind, ArchiveError> {
    if name == Copilot.AgentLabel() then Success(Copilot)
    else if name == ClaudeCode.AgentLabel() then Success(ClaudeCode)
    else if name == Codex.AgentLabel() then Success(Codex)
    else Failure(InvalidArchive)
  }

  function ParseOrigin(fields: map<string, string>): Result<ProjectOrigin, ArchiveError> {
    var marker :- OptionalString(fields, ProjectOriginKey);
    match marker
    case None => Success(Live)
    case Some(text) =>
      if text == "live" then Success(Live)
      else if text == "recorded" then Success(Recorded)
      else Failure(InvalidArchive)
  }

  function ParseProject(fields: map<string, string>): Result<ProjectIdentity, ArchiveError> {
    var name :- StringField(fields, Project);
    var identity :- StringField(fields, ProjectIdentityKey);
    var component :- OptionalString(fields, ProjectComponent);
    var repository :- OptionalString(fields, Repository);
    var branch :- OptionalString(fields, Branch);
    var origin :- ParseOrigin(fields);
    Success(ProjectIdentity(identity, OrElse(component, ""), name, repository, branch, origin))
  }

  predicate ValidProject(p: ProjectIdentity) {
    && p.project != "" && p.identity != ""
    && p.component != "." && p.component != ".."
    && '/' !in p.component && '\\' !in p.component
  }

  predicate ValidCompletion(reason: string) {
    reason == "complete" || reason == "interrupted" || reason == "unknown"
  }

  predicate ValidFallback(reason: Option<string>) {
    match reason
    case None => true
    case Some(text) =>
      text == "cursor-mismatch" || text == "normalizer-changed" || text == "source-truncated"
  }

  predicate ValidCursor(c: ArchivedCursor, sourceCursor: nat) {
    && c.normalizerVersion != 0
    && c.byteOffset == c.sourceBytes
    && ValidHash(c.prefixHash)
    && c.prefixHash == c.sourceHash
    && c.recordCount == sourceCursor
  }

  function ParseCursor(
    fields: map<string, string>, schema: nat, sourceCursor: nat, sourceHash: string)
    : Result<Option<ArchivedCursor>, ArchiveError>
  {
    if schema < 2 then Success(None)
    else
      var version :- NumberField(fields, NormalizerVersion, U32_BOUND);
      var records :- NumberField(fields, SourceCursorRecords, U64_BOUND);
      var bytes :- NumberField(fields, SourceCursorBytes, U64_BOUND);
      var prefix :- StringField(fields, SourcePrefixHash);
      var total :- NumberField(fields, SourceBytes, U64_BOUND);
      var cursor := ArchivedCursor(version, records, bytes, prefix, sourceHash, total);
      if ValidCursor(cursor, sourceCursor) then Success(Some(cursor)) else Failure(InvalidArchive)
  }

  function ParsePlaceholderFlag(fields: map<string, string>): Result<bool, ArchiveError> {
    match Lookup(fields, SummaryPlaceholder)
    case None => Success(false)
    case Some(text) =>
      if text == "true" then Success(true)
      else if text == "false" then Success(false)
      else Failure(InvalidArchive)
  }

  /** The harness and the session, which the identity must restate. */
  function ParseSession(fields: map<string, string>): Result<(SourceKind, string), ArchiveError> {
    var session :- StringField(fields, SessionId);
    var agent :- StringField(fields, Agent);
    var source :- FromAgentLabel(agent);
    var id :- StringField(fields, Id);
    if id == ArchiveId(source, session) then Success((source, session)) else Failure(InvalidArchive)
  }

  /** Completion and fallback reasons. */
  function ParseReasons(fields: map<string, string>): Result<(string, Option<string>), ArchiveError> {
    var completion :- OptionalString(fields, CompletionReason);
    var fallback :- OptionalString(fields, CursorFallbackReason);
    var reason := OrElse(completion, "complete");
    if ValidCompletion(reason) && ValidFallback(fallback)
    then Success((reason, fallback)) else Failure(InvalidArchive)
  }

  /** Snapshot version and transcript hash; both may be absent. */
  function ParseIndex(fields: map<string, string>): Result<(Option<nat>, Option<string>), ArchiveError> {
    var version :- OptionalNumber(fields, ArtifactSetVersion, U16_BOUND);
    var transcript :- OptionalString(fields, TranscriptSha256);
    if transcript.Some? && !ValidHash(transcript.value)
    then Failure(InvalidArchive) else Success((version, transcript))
  }

  /** Every check up to the summary; the two timestamps are read after it. */
  function ParseHeader(
    fields: map<string, string>, outputs: seq<ArtifactIndexEntry>, summary: StructuredSummary)
    : Result<ArchivedMarkdown, ArchiveError>
  {
    var schema :- NumberField(fields, SchemaVersion, U32_BOUND);
    var (source, session) :- ParseSession(fields);
    var project :- ParseProject(fields);
    var revision :- NumberField(fields, SummaryRevision, U64_BOUND);
    var sourceCursor :- NumberField(fields, SourceCursor, U64_BOUND);
    var sourceHash :- StringField(fields, SourceHash);
    var (completion, fallback) :- ParseReasons(fields);
    var cursor :- ParseCursor(fields, schema, sourceCursor, sourceHash);
    var (version, transcript) :- ParseIndex(fields);
    var flag :- ParsePlaceholderFlag(fields);
    if (schema != 1 && schema != 2) || revision == 0 || !ValidProject(project) || !ValidHash(sourceHash)
    then Failure(InvalidArchive)
    else
      Success(ArchivedMarkdown(
        schema, source, session, project, revision, completion, fallback, cursor, sourceCursor,
        sourceHash, None, None, flag, version, transcript, outputs, summary))
  }

  // ----- the summary body

  function ParseBullets(lines: seq<string>): Result<seq<string>, ArchiveError> {
    if lines == [] then Success([])
    else match StripPrefix(lines[0], "- ")
      case None => Failure(InvalidArchive)
      case Some(item) =>
        var rest :- ParseBullets(lines[1..]);
        Success([item] + rest)
  }

  function TrimNewlines(s: string): string {
    if s != [] && s[|s| - 1] == '\n' then TrimNewlines(s[..|s| - 1]) else s
  }

  function ParseList(value: string): Result<seq<string>, ArchiveError> {
    var text := TrimNewlines(value);
    if text == "- None." then Success([]) else ParseBullets(Lines(text))
  }

  function Cut(s: string, heading: string): Result<(string, string), ArchiveError> {
    match SplitOnce(s, "\n\n## " + heading + "\n\n")
    case None => Failure(InvalidArchive)
    case Some(parts) => Success(parts)
  }

  function ParseBody(body: string, tags: seq<string>): Result<StructuredSummary, ArchiveError> {
    match StripPrefix(body, "# ")
    case None => Failure(InvalidArchive)
    case Some(text) =>
      var (title, afterTitle) :- Cut(text, "Goal");
      var (goal, afterGoal) :- Cut(afterTitle, "Work completed");
      var (work, afterWork) :- Cut(afterGoal, "Decisions");
      var (decisions, afterDecisions) :- Cut(afterWork, "Files changed");
      var (files, afterFiles) :- Cut(afterDecisions, "Commands and validation");
      var (commands, open) :- Cut(afterFiles, "Open items");
      var workItems :- ParseList(work);
      var decisionItems :- ParseList(decisions);
      var fileItems :- ParseList(files);
      var commandItems :- ParseList(commands);
      var openItems :- ParseList(open);
      Success(StructuredSummary(
        title, goal, workItems, decisionItems, fileItems, commandItems, openItems, tags))
  }

  // ----- the record

  function Parse(markdown: string): Result<ArchivedMarkdown, ArchiveError> {
    match StripPrefix(markdown, "---\n")
    case None => Failure(InvalidArchive)
    case Some(content) =>
      match SplitOnce(content, "\n---\n\n")
      case None => Failure(InvalidArchive)
      case Some((front, body)) =>
        var fm :- ParseFrontmatter(front);
        var blank := StructuredSummary("", "", [], [], [], [], [], fm.tags);
        var header :- ParseHeader(fm.fields, fm.extractedOutputs, blank);
        var raw :- ParseBody(body, fm.tags);
        match ValidateSummary(raw)
        case Failure(_) => Failure(InvalidSummary)
        case Success(summary) =>
          var startedAt :- OptionalString(fm.fields, StartedAt);
          var updatedAt :- OptionalString(fm.fields, UpdatedAt);
          Success(header.(
            startedAt := startedAt, updatedAt := updatedAt, summary := summary,
            summaryPlaceholder := header.summaryPlaceholder || summary.IsPlaceholder()))
  }
}
