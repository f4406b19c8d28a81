/** Delivery of one session's summary to the note vault: routing, the attempt itself with every
    failure branch, and the delivery row it leaves. */
module Delivery {
  import opened Wrappers
  import opened Text
  import opened Identity
  import opened Vault

  // ----- routing

  function TrimSlashesStart(s: string): string {
    if s != [] && s[0] == '/' then TrimSlashesStart(s[1..]) else s
  }

  function TrimSlashesEnd(s: string): string {
    if s != [] && s[|s| - 1] == '/' then TrimSlashesEnd(s[..|s| - 1]) else s
  }

  /** `note_route`: the folder and the title of a session's note. */
  function NoteDirectory(folder: Option<string>, component: string): string {
    if folder.None? then component
    else
      var trimmed := TrimSlashesEnd(TrimSlashesStart(folder.value));
      if trimmed == "" then component else trimmed + "/" + component
  }

  function NoteTitle(source: SourceKind, session: string): string {
    source.Selector() + "-" + session
  }

  function NotePath(folder: Option<string>, component: string, source: SourceKind, session: string): string {
    NoteDirectory(folder, component) + "/" + NoteTitle(source, session) + ".md"
  }

  lemma TitleInjective(source: SourceKind, session: string, source': SourceKind, session': string)
    requires NoteTitle(source, session) == NoteTitle(source', session')
    ensures source == source' && session == session'
  {
    assert |source.Selector()| >= 5 && |source'.Selector()| >= 5;
    assert NoteTitle(source, session)[1] == source.Selector()[1] && NoteTitle(source, session)[2] == source.Selector()[2];
    assert NoteTitle(source', session')[1] == source'.Selector()[1] && NoteTitle(source', session')[2] == source'.Selector()[2];
    assert source == source';
    var k := |source.Selector()| + 1;
    assert NoteTitle(source, session)[k..] == session;
    assert NoteTitle(source', session')[k..] == session';
  }

  /** Two sessions of one project never share a note. */
  lemma NotePathInjective(
    folder: Option<string>, component: string,
    source: SourceKind, session: string, source': SourceKind, session': string)
    requires NotePath(folder, component, source, session) == NotePath(folder, component, source', session')
    ensures source == source' && session == session'
  {
    var dir := NoteDirectory(folder, component) + "/";
    hide NoteDirectory, NoteTitle;
    var a, b := NoteTitle(source, session), NoteTitle(source', session');
    assert (dir + a + ".md")[|dir|..|dir + a|] == a;
    assert (dir + b + ".md")[|dir|..|dir + b|] == b;
    TitleInjective(source, session, source', session');
  }

  /** Two projects never share a note either: the path determines project, harness and session. */
  lemma NotesAreApart(
    folder: Option<string>, component: string, source: SourceKind, session: string,
    component': string, source': SourceKind, session': string)
    requires '/' !in component && '/' !in component'
    requires NotePath(folder, component, source, session) == NotePath(folder, component', source', session')
    ensures component == component' && source == source' && session == session'
  {
    hide NotePath, NoteTitle, NoteRoot;
    var a, b := NoteTitle(source, session) + ".md", NoteTitle(source', session') + ".md";
    NotePathParts(folder, component, source, session);
    NotePathParts(folder, component', source', session');
    SameRest(NoteRoot(folder), component + "/" + a, component' + "/" + b);
    SplitOnceAtFresh(component, "/", a);
    SplitOnceAtFresh(component', "/", b);
    NotePathInjective(folder, component, source, session, source', session');
  }

  lemma SameRest(root: string, a: string, b: string)
    requires root + a == root + b
    ensures a == b
  {
    assert (root + a)[|root|..] == a && (root + b)[|root|..] == b;
  }

  lemma Regroup(a: string, b: string, c: string)
    ensures (a + b) + c == a + (b + c)
  {
  }

  lemma NotePathParts(folder: Option<string>, component: string, source: SourceKind, session: string)
    ensures NotePath(folder, component, source, session)
            == NoteRoot(folder) + (component + "/" + (NoteTitle(source, session) + ".md"))
  {
    var dir, title := NoteDirectory(folder, component), NoteTitle(source, session);
    assert dir == NoteRoot(folder) + component by { DirectoryParts(folder, component); }
    hide NoteDirectory, NoteTitle, NoteRoot;
    Regroup(dir + "/", title, ".md");
    Regroup(NoteRoot(folder), component, "/");
    Regroup(NoteRoot(folder), component + "/", title + ".md");
  }

  lemma DirectoryParts(folder: Option<string>, component: string)
    ensures NoteDirectory(folder, component) == NoteRoot(folder) + component
  {
    hide TrimSlashesStart, TrimSlashesEnd;
    assert "" + component == component;
  }

  function NoteRoot(folder: Option<string>): string {
    var trimmed := if folder.Some? then TrimSlashesEnd(TrimSlashesStart(folder.value)) else "";
    if trimmed == "" then "" else trimmed + "/"
  }

  predicate AllSlashes(s: string) {
    forall c :: c in s ==> c == '/'
  }

  /** `core` is what is left of `folder` without the slashes at both its ends. */
  ghost predicate IsCore(folder: string, core: string) {
    && (exists a, b :: AllSlashes(a) && AllSlashes(b) && folder == a + core + b)
    && (core != "" ==> core[0] != '/' && core[|core| - 1] != '/')
  }

  lemma {:induction false} StartIsTrimmed(s: string) returns (a: string)
    ensures AllSlashes(a) && s == a + TrimSlashesStart(s)
    ensures TrimSlashesStart(s) != "" ==> TrimSlashesStart(s)[0] != '/'
  {
    if s != [] && s[0] == '/' {
      var rest := StartIsTrimmed(s[1..]);
      a := "/" + rest;
    } else {
      a := "";
    }
  }

  lemma {:induction false} EndIsTrimmed(s: string) returns (b: string)
    ensures AllSlashes(b) && s == TrimSlashesEnd(s) + b
    ensures TrimSlashesEnd(s) != "" ==> TrimSlashesEnd(s)[|TrimSlashesEnd(s)| - 1] != '/'
  {
    if s != [] && s[|s| - 1] == '/' {
      var rest := EndIsTrimmed(s[..|s| - 1]);
      b := rest + "/";
      assert s == s[..|s| - 1] + "/";
    } else {
      b := "";
    }
  }

  lemma TrimmedIsCore(folder: string)
    ensures IsCore(folder, TrimSlashesEnd(TrimSlashesStart(folder)))
  {
    var start := TrimSlashesStart(folder);
    var a := StartIsTrimmed(folder);
    var b := EndIsTrimmed(start);
    var core := TrimSlashesEnd(start);
    hide TrimSlashesStart, TrimSlashesEnd;
    assert core != "" ==> core[0] == start[0];
    assert folder == a + core + b;
  }

  /** A note lies at `<project>/<harness>-<session>.md` below the configured folder without the slashes at
      its ends, or at the top when there is none. */
  lemma NotePathShape(folder: Option<string>, component: string, source: SourceKind, session: string)
    ensures var tail := component + (match source
                                     case Copilot => "/copilot-"
                                     case ClaudeCode => "/claude-code-"
                                     case Codex => "/codex-") + session + ".md";
            var path := NotePath(folder, component, source, session);
            match folder
            case None => path == tail
            case Some(f) =>
              exists core :: IsCore(f, core) && path == (if core == "" then tail else core + "/" + tail)
  {
    NotePathParts(folder, component, source, session);
    TailParts(component, source, session);
    var tail := component + "/" + (NoteTitle(source, session) + ".md");
    if folder.Some? {
      TrimmedIsCore(folder.value);
      var core := TrimSlashesEnd(TrimSlashesStart(folder.value));
      hide TrimSlashesStart, TrimSlashesEnd;
      assert IsCore(folder.value, core);
      Regroup(core, "/", tail);
    }
    assert "" + tail == tail;
    hide IsCore, NotePath, NoteTitle;
  }

  lemma TailParts(component: string, source: SourceKind, session: string)
    ensures component + "/" + (NoteTitle(source, session) + ".md") ==
            component + (match source
                         case Copilot => "/copilot-"
                         case ClaudeCode => "/claude-code-"
                         case Codex => "/codex-") + session + ".md"
  {
    var mark := match source case Copilot => "/copilot-" case ClaudeCode => "/claude-code-" case Codex => "/codex-";
    assert "/" + (source.Selector() + "-") == mark;
    hide SourceKind.Selector;
    Regroup(component, "/", NoteTitle(source, session) + ".md");
    Regroup("/", source.Selector() + "-", session);
    Regroup("/", NoteTitle(source, session), ".md");
    Regroup(component, mark, session);
    Regroup(component, mark + session, ".md");
    Regroup(mark, session, ".md");
  }

  /** The commit message that correlates a delivered revision with its archive commit. */
  function Subject(source: SourceKind, session: string, revision: nat): string {
    "munshi: " + (ArchiveId(source, session) + " revision " + Decimal(revision))
  }

  /** The message names one harness, one session and one revision. */
  lemma SubjectInjective(
    source: SourceKind, session: string, revision: nat, source': SourceKind, session': string, revision': nat)
    requires ValidSessionId(session) && ValidSessionId(session')
    requires Subject(source, session, revision) == Subject(source', session', revision')
    ensures source == source' && session == session' && revision == revision'
  {
    var a, b := ArchiveId(source, session), ArchiveId(source', session');
    var m, n := Decimal(revision), Decimal(revision');
    assert Subject(source, session, revision)[8..] == a + " revision " + m;
    assert Subject(source', session', revision')[8..] == b + " revision " + n;
    IdHasNoSpace(source, session);
    IdHasNoSpace(source', session');
    hide ArchiveId, Decimal, Subject;
    SplitOnceAtFresh(a, " revision ", m);
    SplitOnceAtFresh(b, " revision ", n);
    ArchiveIdInjective(source, session, source', session');
    DecimalInjective(revision, revision');
  }

  lemma IdHasNoSpace(source: SourceKind, session: string)
    requires ValidSessionId(session)
    ensures ' ' !in ArchiveId(source, session)
  {
    var id := ArchiveId(source, session);
    assert id == source.IdPrefix() + ":" + session;
    assert ' ' !in source.IdPrefix();
  }

  // ----- the archive body

  function TrimNewlinesStart(s: string): string {
    if s != [] && s[0] == '\n' then TrimNewlinesStart(s[1..]) else s
  }

  /** `archive_body`: the archive without its own frontmatter. */
  function ArchiveBody(markdown: string): string {
    match StripPrefix(markdown, "---\n")
    case None => markdown
    case Some(rest) =>
      match SplitOnce(rest, "\n---\n")
      case None => markdown
      case Some((_, after)) => TrimNewlinesStart(after)
  }

  // ----- the row

  datatype DeliveryState = Pending | Delivered | Failing | Blocked | DeadLetter

  datatype DeliveryRow = DeliveryRow(
    state: DeliveryState,
    attempts: u32,
    nextAttempt: Option<int>,
    lastError: Option<string>,
    notePath: Option<string>,
    revision: Option<nat>,
    summaryHash: Option<string>,
    historyCommit: Option<nat>)

  const NEW_ROW := DeliveryRow(Pending, 0, None, None, None, None, None, None)

  const BASE_BACKOFF_MS: nat := 60_000
  const MAX_BACKOFF_MS: nat := 3_600_000

  function Doubled(n: nat, times: nat): nat {
    if times == 0 then n else 2 * Doubled(n, times - 1)
  }

  function BackoffMs(attempts: u32): nat {
    var shift := if attempts == 0 then 0 else attempts - 1;
    var delay := Doubled(BASE_BACKOFF_MS, if shift > 16 then 16 else shift);
    if delay > MAX_BACKOFF_MS then MAX_BACKOFF_MS else delay
  }

  /** Later attempts wait no less, never less than a minute and never more than an hour. */
  lemma BackoffGrows(a: u32, b: u32)
    requires a <= b
    ensures BASE_BACKOFF_MS <= BackoffMs(a) <= BackoffMs(b) <= MAX_BACKOFF_MS
  {
    var m := if a == 0 then 0 else if a - 1 > 16 then 16 else a - 1;
    var n := if b == 0 then 0 else if b - 1 > 16 then 16 else b - 1;
    DoubledGrows(BASE_BACKOFF_MS, 0, m);
    DoubledGrows(BASE_BACKOFF_MS, m, n);
  }

  lemma {:induction false} DoubledGrows(base: nat, m: nat, n: nat)
    requires m <= n
    ensures Doubled(base, m) <= Doubled(base, n)
  {
    if m < n {
      DoubledGrows(base, m, n - 1);
    }
  }

  function Power(n: nat): nat {
    if n == 0 then 1 else 2 * Power(n - 1)
  }

  lemma {:induction false} DoubledIsPower(base: nat, n: nat)
    ensures Doubled(base, n) == base * Power(n)
  {
    if n > 0 {
      DoubledIsPower(base, n - 1);
    }
  }

  lemma {:induction false} PowerGrows(m: nat, n: nat)
    requires m <= n
    ensures 1 <= Power(m) <= Power(n)
  {
    if n > 0 {
      PowerGrows(if m < n then m else m - 1, n - 1);
    }
  }

  /** The n-th failure waits a minute doubled n - 1 times, and never more than an hour. */
  lemma WaitAfter(n: u32)
    requires n > 0
    ensures BackoffMs(n) == if 60_000 * Power(n - 1) > 3_600_000 then 3_600_000 else 60_000 * Power(n - 1)
  {
    DoubledIsPower(60_000, if n - 1 > 16 then 16 else n - 1);
    assert Power(2) == 4 && Power(4) == 16 && Power(6) == 64;
    if n - 1 > 16 {
      PowerGrows(6, 16);
      PowerGrows(6, n - 1);
    }
    hide Power, Doubled;
  }

  const I64_MAX: int := 0x7FFF_FFFF_FFFF_FFFF

  function SaturatingAdd(a: int, b: nat): int {
    if a + b > I64_MAX then I64_MAX else a + b
  }

  function Increment(attempts: u32): u32 {
    if attempts + 1 < U32_BOUND then attempts + 1 else attempts
  }

  /** `record_delivery_failure`. */
  function RecordFailure(row: DeliveryRow, category: string, maxAttempts: u32, now: int): DeliveryRow {
    var attempts := Increment(row.attempts);
    var exhausted := attempts >= (if maxAttempts == 0 then 1 else maxAttempts);
    row.(state := if exhausted then DeadLetter else Failing,
         attempts := attempts,
         nextAttempt := if exhausted then None else Some(SaturatingAdd(now, BackoffMs(attempts))),
         lastError := Some(category))
  }

  /** The n-th failure in a row at `now` makes a dead letter when n is the limit, and otherwise puts the
      next attempt off by the n-th wait. */
  lemma FailureIsDue(row: DeliveryRow, category: string, maxAttempts: u32, now: int, n: u32)
    requires n == row.attempts + 1 && maxAttempts > 0 && now + 3_600_000 <= 0x7FFF_FFFF_FFFF_FFFF
    ensures var after := RecordFailure(row, category, maxAttempts, now);
            var wait := if 60_000 * Power(n - 1) > 3_600_000 then 3_600_000 else 60_000 * Power(n - 1);
            && after.attempts == n
            && (n >= maxAttempts ==> after.state == DeadLetter && after.nextAttempt == None)
            && (n < maxAttempts ==> after.state == Failing && after.nextAttempt == Some(now + wait))
  {
    WaitAfter(n);
    hide BackoffMs, Power;
  }

  /** `record_delivery_blocked`: the attempt count stays. */
  function RecordBlocked(row: DeliveryRow, category: string): DeliveryRow {
    row.(state := Blocked, nextAttempt := None, lastError := Some(category))
  }

  /** `reset_delivery_for_retry`. */
  function ResetForRetry(row: DeliveryRow, force: bool): DeliveryRow {
    if row.state == DeadLetter && !force then row
    else row.(state := Pending, nextAttempt := None, attempts := if force then 0 else row.attempts)
  }

  // ----- one attempt

  datatype Config = Config(addressed: bool, folder: Option<string>, maxAttempts: u32)

  datatype Project = Project(identity: string, component: string, disabled: bool)

  /** The session row as delivery reads it; `markdown` is `None` when the file cannot be read. */
  datatype Record = Record(
    source: SourceKind,
    session: string,
    revision: nat,
    hasArchivePath: bool,
    project: Option<Project>,
    summaryHash: Option<string>,
    markdown: Option<string>)

  datatype Gate = NotRequired | Available | Closed(reason: string)

  /** One fate for each call an attempt can make. */
  datatype Fates = Fates(status: Fate, replace: Fate, create: Fate, adopt: Fate, commit: Fate, find: Fate)

  const ALL_WORK := Fates(Works, Works, Works, Works, Works, Works)

  datatype Call =
    | StatusCall
    | CreateCall(path: string)
    | ReplaceCall(path: string)
    | CommitCall(subject: string)
    | FindCall(subject: string)

  datatype Outcome =
    | Skipped(reason: string)
    | AlreadyDelivered
    | Withheld(reason: string)
    | Failed(category: string)
    | Unreadable
    | Created(path: string)
    | Replaced(path: string)

  datatype Attempt = Attempt(row: DeliveryRow, vault: Vault, outcome: Outcome, calls: seq<Call>)

  predicate Deliverable(cfg: Config, rec: Record) {
    cfg.addressed && rec.revision > 0 && rec.hasArchivePath && rec.project.Some? && !rec.project.value.disabled
  }

  /** Why an undeliverable session is skipped, in the order the checks are made. */
  function SkipReason(cfg: Config, rec: Record): string {
    if !cfg.addressed then "not-configured"
    else if rec.revision == 0 then "not-archived"
    else if !rec.hasArchivePath then "no-archive-file"
    else if rec.project.None? then "no-project-identity"
    else "project-disabled"
  }

  /** The row says that this very revision and summary was delivered. */
  predicate IsCurrent(row: DeliveryRow, rec: Record) {
    && row.state == Delivered
    && row.revision == Some(rec.revision)
    && row.summaryHash == rec.summaryHash
    && rec.summaryHash.Some?
  }

  function Route(cfg: Config, rec: Record): string
    requires Deliverable(cfg, rec)
  {
    NotePath(cfg.folder, rec.project.value.component, rec.source, rec.session)
  }

  function IdentityOf(rec: Record): NoteIdentity
    requires rec.project.Some?
  {
    NoteIdentity(rec.session, rec.source.Selector(), rec.project.value.identity, rec.revision)
  }

  function CreatedContent(rec: Record): Content
    requires rec.project.Some? && rec.markdown.Some?
  {
    Note(IdentityOf(rec), ArchiveBody(rec.markdown.value))
  }

  /** `delivery_document`: a replacement carries the body without its trailing blank space. */
  function ReplacedContent(rec: Record): Content
    requires rec.project.Some? && rec.markdown.Some?
  {
    Note(IdentityOf(rec), TrimEnd(ArchiveBody(rec.markdown.value)) + "\n")
  }

  lemma {:induction false} EndTrimmed(s: string)
    ensures |TrimEnd(s)| <= |s| && TrimEnd(s) == s[..|TrimEnd(s)|]
    ensures forall i :: |TrimEnd(s)| <= i < |s| ==> IsWhitespace(s[i])
    ensures TrimEnd(s) != "" ==> !IsWhitespace(TrimEnd(s)[|TrimEnd(s)| - 1])
  {
    if s != "" && IsWhitespace(s[|s| - 1]) {
      EndTrimmed(s[..|s| - 1]);
    }
  }

  /** A note is created with the archive's body as it is, and replaced by the same body with one line feed
      for whatever white space ends it; either way it carries who it belongs to. */
  lemma NoteCarries(rec: Record)
    requires rec.project.Some? && rec.markdown.Some?
    ensures var body, created, replaced := ArchiveBody(rec.markdown.value), CreatedContent(rec), ReplacedContent(rec);
            && created.Note? && replaced.Note? && created.body == body && replaced.body != ""
            && (var n := |replaced.body| - 1;
                && n <= |body| && replaced.body == body[..n] + "\n"
                && (n > 0 ==> !IsWhitespace(body[n - 1])) && forall i :: n <= i < |body| ==> IsWhitespace(body[i]))
            && created.identity == replaced.identity
            && created.identity.session == rec.session && created.identity.revision == rec.revision
            && created.identity.project == rec.project.value.identity
            && created.identity.source == match rec.source case Copilot => "copilot" case ClaudeCode => "claude-code" case Codex => "codex"
  {
    hide ArchiveBody, TrimEnd, IsWhitespace;
    EndTrimmed(ArchiveBody(rec.markdown.value));
  }

  /** `normalize_note_path`. */
  function NormalizeNotePath(path: string): string {
    TrimSlashesStart(path)
  }

  function Own(cfg: Config, rec: Record, row: DeliveryRow): set<string>
    requires Deliverable(cfg, rec)
  {
    {Route(cfg, rec)} + (if row.notePath.Some? then {row.notePath.value} else {})
  }

  /** Dirty paths that are not this session's own note. */
  function Unrelated(cfg: Config, rec: Record, row: DeliveryRow, v: Vault): set<string>
    requires Deliverable(cfg, rec)
  {
    set p | p in Dirty(v) && forall o :: o in Own(cfg, rec, row) ==> NormalizeNotePath(o) != NormalizeNotePath(p)
  }

  /** What a write left, the path it went to and whether it created the note. */
  datatype Written = Written(vault: Vault, result: Result<(string, bool), SinkError>, calls: seq<Call>)

  /** `create_or_adopt`. */
  function CreateOrAdopt(rec: Record, path: string, v: Vault, f: Fates): Written
    requires rec.project.Some? && rec.markdown.Some?
  {
    var (v1, created) := CreateNote(v, path, CreatedContent(rec), f.create);
    match created
    case Success(at) => Written(v1, Success((at, true)), [CreateCall(path)])
    case Failure(AlreadyExists) =>
      var (v2, adopted) := ReplaceNote(v1, path, ReplacedContent(rec), f.adopt);
      Written(v2, if adopted.Success? then Success((adopted.value, false)) else Failure(adopted.error),
              [CreateCall(path), ReplaceCall(path)])
    case Failure(e) => Written(v1, Failure(e), [CreateCall(path)])
  }

  /** `replace_or_create`. */
  function ReplaceOrCreate(rec: Record, known: string, path: string, v: Vault, f: Fates): Written
    requires rec.project.Some? && rec.markdown.Some?
  {
    var (v1, replaced) := ReplaceNote(v, known, ReplacedContent(rec), f.replace);
    match replaced
    case Success(at) => Written(v1, Success((at, false)), [ReplaceCall(known)])
    case Failure(NotFound) =>
      var next := CreateOrAdopt(rec, path, v1, f);
      next.(calls := [ReplaceCall(known)] + next.calls)
    case Failure(e) => Written(v1, Failure(e), [ReplaceCall(known)])
  }

  function WriteNote(cfg: Config, rec: Record, row: DeliveryRow, v: Vault, f: Fates): Written
    requires Deliverable(cfg, rec) && rec.markdown.Some?
  {
    if row.notePath.Some? then ReplaceOrCreate(rec, row.notePath.value, Route(cfg, rec), v, f)
    else CreateOrAdopt(rec, Route(cfg, rec), v, f)
  }

  /** `commit_and_correlate`: the correlated commit, or the category of the failure. */
  function CommitAndCorrelate(v: Vault, subject: string, f: Fates): (Vault, Result<nat, string>) {
    var (v1, committed) := CommitRevision(v, subject, f.commit);
    var found := FindCommit(v1, subject, f.find);
    var result :=
      match (committed, found)
      case (_, Success(Some(commit))) => Success(commit.sha)
      case (Success(Some(sha)), Success(None)) => Success(sha)
      case (Success(None), Success(None)) => Failure("remote-history-missing")
      case (Success(_), Failure(e)) => Failure(Category(e))
      case (Failure(e), _) => Failure(Category(e));
    (v1, result)
  }

  function RecordSuccess(row: DeliveryRow, rec: Record, path: string, commit: Option<nat>): DeliveryRow {
    DeliveryRow(Delivered, 0, None, None, Some(path), Some(rec.revision),
                Some(if rec.summaryHash.Some? then rec.summaryHash.value else ""), commit)
  }

  /** The attempt after its gate and its clean-tree check. */
  function WriteAndCorrelate(
    cfg: Config, rec: Record, gate: Gate, row: DeliveryRow, v: Vault, now: int, f: Fates): Attempt
    requires Deliverable(cfg, rec) && rec.markdown.Some?
  {
    var w := WriteNote(cfg, rec, row, v, f);
    match w.result
    case Failure(e) => Attempt(RecordFailure(row, Category(e), cfg.maxAttempts, now), w.vault, Failed(Category(e)), w.calls)
    case Success((path, created)) =>
      var outcome := if created then Created(path) else Replaced(path);
      if gate != Available then Attempt(RecordSuccess(row, rec, path, None), w.vault, outcome, w.calls)
      else
        var subject := Subject(rec.source, rec.session, rec.revision);
        var (v2, commit) := CommitAndCorrelate(w.vault, subject, f);
        var calls := w.calls + [CommitCall(subject), FindCall(subject)];
        match commit
        case Success(sha) => Attempt(RecordSuccess(row, rec, path, Some(sha)), v2, outcome, calls)
        case Failure(category) =>
          Attempt(RecordFailure(row, category, cfg.maxAttempts, now), v2, Failed(category), calls)
  }

  /** `deliver_one`, on the row that `ensure_delivery_target` finds or makes. */
  function DeliverOne(
    cfg: Config, rec: Record, gate: Gate, row: DeliveryRow, v: Vault, now: int, f: Fates): Attempt
  {
    if !Deliverable(cfg, rec) then Attempt(row, v, Skipped(SkipReason(cfg, rec)), [])
    else if row.state == DeadLetter then Attempt(row, v, Skipped("dead-letter"), [])
    else if IsCurrent(row, rec) then Attempt(row, v, AlreadyDelivered, [])
    else if gate.Closed? then Attempt(RecordBlocked(row, gate.reason), v, Withheld(gate.reason), [])
    else if rec.markdown.None? then Attempt(row, v, Unreadable, [])
    else if gate == NotRequired then WriteAndCorrelate(cfg, rec, gate, row, v, now, f)
    else if !f.status.Works? then
      Attempt(RecordFailure(row, f.status.category, cfg.maxAttempts, now), v, Failed(f.status.category), [StatusCall])
    else if Unrelated(cfg, rec, row, v) != {} then
      Attempt(RecordBlocked(row, "remote-history-dirty"), v, Withheld("remote-history-dirty"), [StatusCall])
    else
      var a := WriteAndCorrelate(cfg, rec, gate, row, v, now, f);
      a.(calls := [StatusCall] + a.calls)
  }

  // ----- who is delivered at all

  /** Why an attempt ends before the gate, check by check: each reason exactly when it is the first that
      holds; then a dead letter, and then what the row says was delivered. None of these makes a call or
      changes anything. */
  lemma SkippedIff(cfg: Config, rec: Record, gate: Gate, row: DeliveryRow, v: Vault, now: int, f: Fates)
    ensures var a := DeliverOne(cfg, rec, gate, row, v, now, f);
            var archived := cfg.addressed && rec.revision > 0;
            var identified := archived && rec.hasArchivePath && rec.project.Some?;
            var due := identified && !rec.project.value.disabled && row.state != DeadLetter;
            && (a.outcome == Skipped("not-configured") <==> !cfg.addressed)
            && (a.outcome == Skipped("not-archived") <==> cfg.addressed && rec.revision == 0)
            && (a.outcome == Skipped("no-archive-file") <==> archived && !rec.hasArchivePath)
            && (a.outcome == Skipped("no-project-identity") <==> archived && rec.hasArchivePath && rec.project.None?)
            && (a.outcome == Skipped("project-disabled") <==> identified && rec.project.value.disabled)
            && (a.outcome == Skipped("dead-letter") <==> identified && !rec.project.value.disabled && row.state == DeadLetter)
            && (a.outcome == AlreadyDelivered <==>
                  && due && row.state == Delivered && row.revision == Some(rec.revision)
                  && rec.summaryHash.Some? && row.summaryHash == rec.summaryHash)
            && (a.outcome.Skipped? || a.outcome == AlreadyDelivered ==> a == Attempt(row, v, a.outcome, []))
            && (a.calls != [] ==> due && !gate.Closed?)
  {
    hide NotePath, WriteNote, CommitAndCorrelate, Unrelated, RecordFailure, RecordSuccess, ArchiveBody;
  }

  /** A retry makes the next attempt due at once and forgets nothing that was delivered. A dead letter
      takes one only by force, and force alone gives back the whole number of attempts: the next failure
      is then a first one whatever went before, and otherwise it counts on. */
  lemma RetryIs(row: DeliveryRow, force: bool, category: string, maxAttempts: u32, now: int)
    requires row.attempts + 1 < 0x1_0000_0000
    ensures var after := ResetForRetry(row, force);
            var failed := RecordFailure(after, category, maxAttempts, now);
            && (after == row || (after.state == Pending && after.nextAttempt == None))
            && (after.state == DeadLetter <==> row.state == DeadLetter && !force)
            && failed.attempts == (if force then 1 else row.attempts + 1)
            && (force && maxAttempts > 1 ==> failed.state == Failing)
            && (failed.notePath, failed.revision) == (row.notePath, row.revision)
            && (failed.summaryHash, failed.historyCommit) == (row.summaryHash, row.historyCommit)
  {
    hide BackoffMs, SaturatingAdd;
  }
}
