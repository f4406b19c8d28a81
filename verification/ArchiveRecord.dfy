/** The archive Markdown record and its writer: frontmatter scalars, the artifact index and the
    tags as YAML lines, then the summary as headed Markdown. */
module ArchiveRecord {
  import opened Wrappers
  import opened Text
  import opened JsonText
  import opened Identity
  import opened Summary

  const NORMALIZER_VERSION: u32 := 3
  const CURRENT_ARTIFACT_SET_VERSION: u16 := 2

  datatype ProjectOrigin = Live | Recorded

  datatype ProjectIdentity = ProjectIdentity(
    identity: string,
    component: string,
    project: string,
    repository: Option<string>,
    branch: Option<string>,
    origin: ProjectOrigin)

  /** One extracted output: bare content hash, size and the kind of event it came from. */
  datatype ArtifactIndexEntry = ArtifactIndexEntry(sha256: string, bytes: u64, eventKind: string)

  /** The part of a captured session that its archive record states. */
  datatype NormalizedSession = NormalizedSession(
    source: SourceKind,
    sessionId: string,
    sourceCursor: u64,
    sourceByteCursor: u64,
    sourcePrefixHash: string,
    sourceHash: string,
    sourceBytes: u64,
    startedAt: Option<string>,
    updatedAt: Option<string>,
    extractedOutputs: seq<ArtifactIndexEntry>)

  /** Everything one revision is rendered from. */
  datatype Revision = Revision(
    session: NormalizedSession,
    project: ProjectIdentity,
    summary: StructuredSummary,
    number: u64,
    completionReason: string,
    fallbackReason: Option<string>)

  // ----- frontmatter keys

  datatype Key =
    | SchemaVersion | Id | Agent | SessionId | Project | ProjectIdentityKey | ProjectComponent
    | ProjectOriginKey | Repository | Branch | StartedAt | UpdatedAt | CompletionReason
    | CursorFallbackReason | SummaryRevision | SourceCursor | NormalizerVersion
    | SourceCursorRecords | SourceCursorBytes | SourcePrefixHash | SourceBytes | SourceHash
    | ArtifactSetVersion | TranscriptSha256 | SummaryPlaceholder

  function Name(k: Key): string {
    match k
    case SchemaVersion => "schema_version"
    case Id => "id"
    case Agent => "agent"
    case SessionId => "session_id"
    case Project => "project"
    case ProjectIdentityKey => "project_identity"
    case ProjectComponent => "project_component"
    case ProjectOriginKey => "project_origin"
    case Repository => "repository"
    case Branch => "branch"
    case StartedAt => "started_at"
    case UpdatedAt => "updated_at"
    case CompletionReason => "completion_reason"
    case CursorFallbackReason => "cursor_fallback_reason"
    case SummaryRevision => "summary_revision"
    case SourceCursor => "source_cursor"
    case NormalizerVersion => "normalizer_version"
    case SourceCursorRecords => "source_cursor_records"
    case SourceCursorBytes => "source_cursor_bytes"
    case SourcePrefixHash => "source_prefix_hash"
    case SourceBytes => "source_bytes"
    case SourceHash => "source_hash"
    case ArtifactSetVersion => "artifact_set_version"
    case TranscriptSha256 => "transcript_sha256"
    case SummaryPlaceholder => "summary_placeholder"
  }

  /** The scalar keys written before the artifact index, in the writer's order. */
  const HEAD_KEYS: seq<Key> := [
    SchemaVersion, Id, Agent, SessionId, Project, ProjectIdentityKey, ProjectComponent,
    ProjectOriginKey, Repository, Branch, StartedAt, UpdatedAt, CompletionReason,
    CursorFallbackReason, SummaryRevision, SourceCursor, NormalizerVersion, SourceCursorRecords,
    SourceCursorBytes, SourcePrefixHash, SourceBytes, SourceHash, ArtifactSetVersion,
    TranscriptSha256]

  function QuoteOptional(value: Option<string>): Option<string> {
    match value
    case None => None
    case Some(text) => Some(Quote(text))
  }

  /** The text written behind a key, or `None` when the key is left out. */
  function ScalarValue(r: Revision, k: Key): Option<string> {
    var s := r.session;
    match k
    case SchemaVersion => Some(Decimal(2))
    case Id => Some(Quote(ArchiveId(s.source, s.sessionId)))
    case Agent => Some(Quote(s.source.AgentLabel()))
    case SessionId => Some(Quote(s.sessionId))
    case Project => Some(Quote(r.project.project))
    case ProjectIdentityKey => Some(Quote(r.project.identity))
    case ProjectComponent => Some(Quote(r.project.component))
    case ProjectOriginKey => if r.project.origin.Recorded? then Some(Quote("recorded")) else None
    case Repository => QuoteOptional(r.project.repository)
    case Branch => QuoteOptional(r.project.branch)
    case StartedAt => QuoteOptional(s.startedAt)
    case UpdatedAt => QuoteOptional(s.updatedAt)
    case CompletionReason => Some(Quote(r.completionReason))
    case CursorFallbackReason => QuoteOptional(r.fallbackReason)
    case SummaryRevision => Some(Decimal(r.number))
    case SourceCursor => Some(Decimal(s.sourceCursor))
    case NormalizerVersion => Some(Decimal(NORMALIZER_VERSION))
    case SourceCursorRecords => Some(Decimal(s.sourceCursor))
    case SourceCursorBytes => Some(Decimal(s.sourceByteCursor))
    case SourcePrefixHash => Some(Quote(s.sourcePrefixHash))
    case SourceBytes => Some(Decimal(s.sourceBytes))
    case SourceHash => Some(Quote(s.sourceHash))
    case ArtifactSetVersion => Some(Decimal(CURRENT_ARTIFACT_SET_VERSION))
    case TranscriptSha256 => Some(Quote(s.sourceHash))
    case SummaryPlaceholder => if r.summary.IsPlaceholder() then Some("true") else None
  }

  // ----- writing

  function ScalarLines(r: Revision, keys: seq<Key>): seq<string> {
    if keys == [] then []
    else match ScalarValue(r, keys[0])
      case None => ScalarLines(r, keys[1..])
      case Some(value) => [Name(keys[0]) + ": " + value] + ScalarLines(r, keys[1..])
  }

  function ItemLines(items: seq<string>): (lines: seq<string>)
    ensures |lines| == |items|
  {
    if items == [] then [] else ["  - " + Quote(items[0])] + ItemLines(items[1..])
  }

  /** A YAML list: inline when empty, otherwise a header and one quoted scalar per line. */
  function ListLines(key: string, items: seq<string>): seq<string> {
    if items == [] then [key + ": []"] else [key + ":"] + ItemLines(items)
  }

  function EntryText(entry: ArtifactIndexEntry): string {
    Join(["sha256:" + entry.sha256, "bytes:" + Decimal(entry.bytes), "label:" + entry.eventKind], " ")
  }

  function EntryTexts(entries: seq<ArtifactIndexEntry>): (texts: seq<string>)
    ensures |texts| == |entries|
    ensures forall i :: 0 <= i < |entries| ==> texts[i] == EntryText(entries[i])
  {
    if entries == [] then [] else [EntryText(entries[0])] + EntryTexts(entries[1..])
  }

  /** The scalars of `head`, the artifact index, the scalars of `tail` and the tags. */
  function LinesFor(r: Revision, head: seq<Key>, tail: seq<Key>): seq<string> {
    ScalarLines(r, head)
    + ListLines("extracted_outputs", EntryTexts(r.session.extractedOutputs))
    + ScalarLines(r, tail)
    + ListLines("tags", r.summary.tags)
  }

  function FrontmatterLines(r: Revision): seq<string> {
    LinesFor(r, HEAD_KEYS, [SummaryPlaceholder])
  }

  function BulletLines(items: seq<string>): (lines: seq<string>)
    ensures |lines| == |items|
  {
    if items == [] then [] else ["- " + items[0]] + BulletLines(items[1..])
  }

  /** A heading and its bullets, with the blank line that ends the section. */
  function RenderList(heading: string, items: seq<string>): string {
    "## " + heading + "\n\n"
    + (if items == [] then "- None.\n\n" else Terminated(BulletLines(items)) + "\n")
  }

  function RenderBody(s: StructuredSummary): string {
    "# " + s.title + "\n\n## Goal\n\n" + s.goal + "\n\n"
    + (RenderList("Work completed", s.workCompleted)
       + (RenderList("Decisions", s.decisions)
          + (RenderList("Files changed", s.filesChanged)
             + (RenderList("Commands and validation", s.commandsAndValidation)
                + RenderList("Open items", s.openItems)))))
  }

  function DropLast(s: string): string {
    if s == [] then s else s[..|s| - 1]
  }

  /** `render_revision_markdown`. */
  function Render(r: Revision): string {
    DropLast("---\n" + Terminated(FrontmatterLines(r)) + "---\n\n" + RenderBody(r.summary))
  }

  // ----- facts about the keys

  /** Reads a key back from its name; only lengths and two characters are needed. */
  function Unname(s: string): Option<Key> {
    if |s| == 14 then Some(if s[0] == 's' then SchemaVersion else ProjectOriginKey)
    else if |s| == 2 then Some(Id)
    else if |s| == 5 then Some(Agent)
    else if |s| == 10 then
      Some(if s[0] == 'r' then Repository else if s[0] == 'u' then UpdatedAt
           else if s[1] == 'e' then SessionId else StartedAt)
    else if |s| == 7 then Some(Project)
    else if |s| == 16 then Some(if s[0] == 'p' then ProjectIdentityKey else SummaryRevision)
    else if |s| == 17 then
      Some(if s[0] == 'p' then ProjectComponent else if s[0] == 'c' then CompletionReason
           else TranscriptSha256)
    else if |s| == 6 then Some(Branch)
    else if |s| == 22 then Some(CursorFallbackReason)
    else if |s| == 13 then Some(SourceCursor)
    else if |s| == 18 then Some(if s[0] == 'n' then NormalizerVersion else SourcePrefixHash)
    else if |s| == 21 then Some(SourceCursorRecords)
    else if |s| == 19 then Some(if s[1] == 'o' then SourceCursorBytes else SummaryPlaceholder)
    else if |s| == 12 then Some(SourceBytes)
    else if |s| == 11 then Some(SourceHash)
    else if |s| == 20 then Some(ArtifactSetVersion)
    else None
  }

  lemma UnnameOfName(k: Key)
    ensures Unname(Name(k)) == Some(k)
  {
  }

  lemma NameInjective(j: Key, k: Key)
    requires Name(j) == Name(k)
    ensures j == k
  {
    UnnameOfName(j);
    UnnameOfName(k);
  }

  /** A key name is one identifier: it can be split off at `: ` and opens no list item. */
  predicate IsKeyName(s: string) {
    && s != ""
    && 'a' <= s[0] <= 'z'
    && (forall c :: c in s ==> 'a' <= c <= 'z' || c == '_' || IsDigit(c))
  }

  lemma NameIsKeyName(k: Key)
    ensures IsKeyName(Name(k))
    ensures Name(k) != "tags" && Name(k) != "extracted_outputs"
  {
    if |Name(k)| <= 13 {
      ShortNameIsKeyName(k);
    } else if |Name(k)| <= 17 {
      MiddleNameIsKeyName(k);
    } else {
      LongNameIsKeyName(k);
    }
    assert "extracted_outputs"[0] == 'e';
  }

  lemma ShortNameIsKeyName(k: Key)
    requires |Name(k)| <= 13
    ensures IsKeyName(Name(k))
  {
  }

  lemma MiddleNameIsKeyName(k: Key)
    requires 14 <= |Name(k)| <= 17
    ensures IsKeyName(Name(k)) && Name(k)[0] != 'e'
  {
  }

  lemma LongNameIsKeyName(k: Key)
    requires 18 <= |Name(k)|
    ensures IsKeyName(Name(k))
  {
  }

  lemma EveryKeyIsWritten(k: Key)
    ensures k in HEAD_KEYS || k == SummaryPlaceholder
  {
    match k
    case SchemaVersion => assert HEAD_KEYS[0] == k;
    case Id => assert HEAD_KEYS[1] == k;
    case Agent => assert HEAD_KEYS[2] == k;
    case SessionId => assert HEAD_KEYS[3] == k;
    case Project => assert HEAD_KEYS[4] == k;
    case ProjectIdentityKey => assert HEAD_KEYS[5] == k;
    case ProjectComponent => assert HEAD_KEYS[6] == k;
    case ProjectOriginKey => assert HEAD_KEYS[7] == k;
    case Repository => assert HEAD_KEYS[8] == k;
    case Branch => assert HEAD_KEYS[9] == k;
    case StartedAt => assert HEAD_KEYS[10] == k;
    case UpdatedAt => assert HEAD_KEYS[11] == k;
    case CompletionReason => assert HEAD_KEYS[12] == k;
    case CursorFallbackReason => assert HEAD_KEYS[13] == k;
    case SummaryRevision => assert HEAD_KEYS[14] == k;
    case SourceCursor => assert HEAD_KEYS[15] == k;
    case NormalizerVersion => assert HEAD_KEYS[16] == k;
    case SourceCursorRecords => assert HEAD_KEYS[17] == k;
    case SourceCursorBytes => assert HEAD_KEYS[18] == k;
    case SourcePrefixHash => assert HEAD_KEYS[19] == k;
    case SourceBytes => assert HEAD_KEYS[20] == k;
    case SourceHash => assert HEAD_KEYS[21] == k;
    case ArtifactSetVersion => assert HEAD_KEYS[22] == k;
    case TranscriptSha256 => assert HEAD_KEYS[23] == k;
    case SummaryPlaceholder =>
  }
}
