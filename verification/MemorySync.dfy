/** Mirroring of the harness's memory directories into the vault: which directories a pass syncs, what
    syncing one does, and the rows it leaves. */
module MemorySync {
  import opened Wrappers
  import opened Text
  import opened Vault
  import opened MemoryMirror
  import Delivery

  // ----- rows

  datatype SyncState = Pending | Synced | Failing | Blocked | DeadLetter

  datatype SyncRow = SyncRow(
    state: SyncState,
    attempts: u32,
    nextAttempt: Option<int>,
    lastError: Option<string>,
    manifestHash: Option<string>,
    revision: nat,
    historyCommit: Option<nat>)

  const NEW_ROW := SyncRow(Pending, 0, None, None, None, 0, None)

  function RecordSuccess(row: SyncRow, manifestHash: string, commit: nat): SyncRow {
    SyncRow(Synced, 0, None, None, Some(manifestHash), row.revision + 1, Some(commit))
  }

  function RecordBlocked(row: SyncRow, category: string): SyncRow {
    row.(state := Blocked, nextAttempt := None, lastError := Some(category))
  }

  function RecordFailure(row: SyncRow, category: string, maxAttempts: u32, now: int): SyncRow {
    var attempts := Delivery.Increment(row.attempts);
    var exhausted := attempts >= maxAttempts;
    row.(state := if exhausted then DeadLetter else Failing,
         attempts := attempts,
         nextAttempt := if exhausted then None else Some(Delivery.SaturatingAdd(now, Delivery.BackoffMs(attempts))),
         lastError := Some(category))
  }

  /** `reset_memory_sync_for_retry` with force. */
  function ForceRetry(row: SyncRow): SyncRow {
    row.(state := Pending, nextAttempt := None, attempts := 0)
  }

  // ----- one directory

  /** A file of the directory and its text; `None` when it cannot be read any more. */
  datatype Source = Source(file: File, content: Option<string>)

  datatype Directory = Directory(slug: string, sources: seq<Source>, manifestHash: string)

  datatype Config = Config(folder: Option<string>, machine: string, maxAttempts: u32)

  /** The fate of every call one directory can cause. */
  datatype DirectoryFates = DirectoryFates(status: Fate, write: nat -> Fate, manifest: Fate, commit: Fate, find: Fate)

  const CHANGED := "memory-source-changed"
  const DIRTY := "remote-history-dirty"

  function FilePath(cfg: Config, dir: Directory, i: nat): string
    requires i < |dir.sources|
  {
    MirrorPath(cfg.folder, cfg.machine, dir.slug, dir.sources[i].file.path)
  }

  function NotePath(cfg: Config, dir: Directory): string {
    ManifestNotePath(cfg.folder, cfg.machine, dir.slug)
  }

  function TableRows(sources: seq<Source>): string {
    if sources == [] then ""
    else
      var f := sources[0].file;
      "| " + f.path + " | " + f.digest + " | " + Decimal(f.size) + " |\n" + TableRows(sources[1..])
  }

  /** The identity lines and the file table of the manifest note. */
  function ManifestNote(cfg: Config, dir: Directory, revision: nat): string {
    "munshi_machine: " + cfg.machine + "\nmunshi_memory_slug: " + dir.slug
    + "\nmunshi_revision: " + Decimal(revision)
    + "\nmunshi_manifest_sha256: " + dir.manifestHash + "\n" + TableRows(dir.sources)
  }

  /** `PUT` as the mirror relies on it: it makes the document when there is none. */
  function PutDocument(v: Vault, path: string, text: string, fate: Fate): (Vault, Option<string>) {
    match fate
    case Refuses(category) => (v, Some(category))
    case Works => (Write(v, path, Foreign(text)), None)
    case Lost(category) => (Write(v, path, Foreign(text)), Some(category))
  }

  /** Some dirty path is not the mirror's own. */
  predicate HasUnrelated(cfg: Config, dir: Directory, v: Vault) {
    exists p :: p in Dirty(v) && !IsOwnDirty(cfg.folder, cfg.machine, dir.slug, p)
  }

  /** Mirrors the files from the i-th on; a category stops it. */
  function MirrorFiles(cfg: Config, dir: Directory, i: nat, v: Vault, write: nat -> Fate): (Vault, Option<string>)
    requires i <= |dir.sources|
    decreases |dir.sources| - i
  {
    if i == |dir.sources| then (v, None)
    else if dir.sources[i].content.None? then (v, Some(CHANGED))
    else
      var (v1, error) := PutDocument(v, FilePath(cfg, dir, i), dir.sources[i].content.value, write(i));
      if error.Some? then (v1, error) else MirrorFiles(cfg, dir, i + 1, v1, write)
  }

  /** `sync_directory`: the correlated commit, or the category it failed with. */
  function SyncDirectory(cfg: Config, dir: Directory, row: SyncRow, v: Vault, f: DirectoryFates)
    : (Vault, Result<nat, string>)
  {
    if !f.status.Works? then (v, Failure(f.status.category))
    else if HasUnrelated(cfg, dir, v) then (v, Failure(DIRTY))
    else
      var (v1, fileError) := MirrorFiles(cfg, dir, 0, v, f.write);
      if fileError.Some? then (v1, Failure(fileError.value))
      else
        var revision := row.revision + 1;
        var (v2, noteError) := PutDocument(v1, NotePath(cfg, dir), ManifestNote(cfg, dir, revision), f.manifest);
        if noteError.Some? then (v2, Failure(noteError.value))
        else Correlate(v2, MemoryMessage(cfg.machine, dir.slug, revision), f)
  }

  function Correlate(v: Vault, subject: string, f: DirectoryFates): (Vault, Result<nat, string>) {
    Delivery.CommitAndCorrelate(v, subject, Delivery.ALL_WORK.(commit := f.commit, find := f.find))
  }

  // ----- one pass

  datatype Eligibility = Unchanged | Deferred | Sync

  function Eligible(row: Option<SyncRow>, manifestHash: string, now: int, force: bool): Eligibility {
    match row
    case None => Sync
    case Some(r) =>
      match r.state
      case Synced => if r.manifestHash == Some(manifestHash) then Unchanged else Sync
      case Pending => Sync
      case Blocked => Sync
      case Failing => if force || r.nextAttempt.None? || r.nextAttempt.value <= now then Sync else Deferred
      case DeadLetter => if force then Sync else Unchanged
  }

  /** A directory whose n-th sync in a row failed at `failed` is left alone by an unforced pass exactly
      until a minute doubled n - 1 times, or an hour, has gone by, and for good once n is the limit; a
      forced pass takes it up at once. */
  lemma FailingIsDue(row: SyncRow, category: string, maxAttempts: u32, failed: int, manifestHash: string, now: int, n: u32)
    requires n == row.attempts + 1 && failed + 3_600_000 <= 0x7FFF_FFFF_FFFF_FFFF
    ensures var after := RecordFailure(row, category, maxAttempts, failed);
            var wait := if 60_000 * Delivery.Power(n - 1) > 3_600_000 then 3_600_000 else 60_000 * Delivery.Power(n - 1);
            && after.attempts == n
            && Eligible(Some(after), manifestHash, now, false) ==
               (if n >= maxAttempts then Unchanged else if now < failed + wait then Deferred else Sync)
            && Eligible(Some(after), manifestHash, now, true) == Sync
  {
    Delivery.WaitAfter(n);
    hide Delivery.BackoffMs, Delivery.Power;
  }

  /** What else decides: an unknown directory, a pending or a blocked one is taken up, and a synced one
      exactly when its files changed since. */
  lemma OthersAreDue(row: Option<SyncRow>, manifestHash: string, now: int, force: bool)
    requires row.Some? ==> row.value.state != Failing && row.value.state != DeadLetter
    ensures Eligible(row, manifestHash, now, force) ==
            if row.Some? && row.value.state == Synced && row.value.manifestHash == Some(manifestHash) then Unchanged else Sync
  {
  }

  /** A blocked directory loses nothing and waits for nothing: any pass takes it up, as often as it has
      failed before. */
  lemma BlockedIsTakenUp(row: SyncRow, category: string, manifestHash: string, now: int, force: bool)
    ensures var after := RecordBlocked(row, category);
            && after.state == Blocked && after.nextAttempt == None && after.lastError == Some(category)
            && after.attempts == row.attempts && after.revision == row.revision
            && after.manifestHash == row.manifestHash && after.historyCommit == row.historyCommit
            && Eligible(Some(after), manifestHash, now, force) == Sync
  {
  }

  function RowOf(rows: map<string, SyncRow>, slug: string): Option<SyncRow> {
    if slug in rows then Some(rows[slug]) else None
  }

  function EligibilityOf(dir: Directory, rows: map<string, SyncRow>, now: int, force: bool): Eligibility {
    Eligible(RowOf(rows, dir.slug), dir.manifestHash, now, force)
  }

  function OnlyIf(dir: Directory, rows: map<string, SyncRow>, now: int, force: bool, kind: Eligibility): seq<Directory> {
    if EligibilityOf(dir, rows, now, force) == kind then [dir] else []
  }

  /** The directories of one kind, in order. */
  function OfKind(dirs: seq<Directory>, rows: map<string, SyncRow>, now: int, force: bool, kind: Eligibility)
    : (r: seq<Directory>)
    ensures forall d :: d in r <==> d in dirs && EligibilityOf(d, rows, now, force) == kind
  {
    if dirs == [] then [] else OnlyIf(dirs[0], rows, now, force, kind) + OfKind(dirs[1..], rows, now, force, kind)
  }

  datatype Gate = Available | Closed(reason: string)

  const NO_HISTORY := "remote-history-unavailable"

  /** The row as it stands in the store when the candidate's turn begins. */
  function Ready(row: Option<SyncRow>, force: bool): SyncRow {
    var ensured := if row.Some? then row.value else NEW_ROW;
    if force then ForceRetry(ensured) else ensured
  }

  /** A forced pass gives a directory the whole number of attempts again: the next failure is a first one
      whatever went before, and waits a minute unless one failure is the limit. */
  lemma ForcedFailureIsFirst(row: Option<SyncRow>, category: string, maxAttempts: u32, now: int)
    requires now + 60_000 <= 0x7FFF_FFFF_FFFF_FFFF
    ensures var after := RecordFailure(Ready(row, true), category, maxAttempts, now);
            && after.attempts == 1 && after.lastError == Some(category)
            && (if maxAttempts > 1 then after.state == Failing && after.nextAttempt == Some(now + 60_000)
                else after.state == DeadLetter && after.nextAttempt == None)
            && (row.Some? ==> after.manifestHash == row.value.manifestHash && after.revision == row.value.revision
                              && after.historyCommit == row.value.historyCommit)
  {
    Delivery.WaitAfter(1);
    assert Delivery.Power(0) == 1;
  }

  datatype Verdict = WasSynced | WasFailed | WasBlocked

  /** What a pass does with one candidate. */
  function SyncOne(
    cfg: Config, dir: Directory, row: Option<SyncRow>, v: Vault, gate: Gate, now: int, force: bool, f: DirectoryFates)
    : (SyncRow, Vault, Verdict)
  {
    var ready := Ready(row, force);
    if gate == Closed(NO_HISTORY) then (RecordBlocked(ready, NO_HISTORY), v, WasBlocked)
    else if gate.Closed? then (RecordFailure(ready, gate.reason, cfg.maxAttempts, now), v, WasFailed)
    else
      var (after, result) := SyncDirectory(cfg, dir, ready, v, f);
      match result
      case Success(commit) => (RecordSuccess(ready, dir.manifestHash, commit), after, WasSynced)
      case Failure(category) => (RecordFailure(ready, category, cfg.maxAttempts, now), after, WasFailed)
  }

  datatype Progress = Progress(rows: map<string, SyncRow>, vault: Vault, synced: nat, failed: nat, blocked: nat)

  function Advance(p: Progress, slug: string, row: SyncRow, vault: Vault, verdict: Verdict): Progress {
    var q := p.(rows := p.rows[slug := row], vault := vault);
    match verdict
    case WasSynced => q.(synced := p.synced + 1)
    case WasFailed => q.(failed := p.failed + 1)
    case WasBlocked => q.(blocked := p.blocked + 1)
  }

  function SyncAll(
    cfg: Config, dirs: seq<Directory>, p: Progress, gate: Gate, now: int, force: bool, fates: string -> DirectoryFates)
    : Progress
    decreases |dirs|
  {
    if dirs == [] then p
    else
      var d := dirs[|dirs| - 1];
      var before := SyncAll(cfg, dirs[..|dirs| - 1], p, gate, now, force, fates);
      var (row, vault, verdict) :=
        SyncOne(cfg, d, RowOf(before.rows, d.slug), before.vault, gate, now, force, fates(d.slug));
      Advance(before, d.slug, row, vault, verdict)
  }

  datatype Report = Report(directories: nat, untouched: nat, deferred: nat, synced: nat, failed: nat, blocked: nat)

  /** `contacted` says whether the sink was asked anything at all. */
  datatype Pass = Pass(rows: map<string, SyncRow>, vault: Vault, report: Report, contacted: bool)

  /** `run_with_config`; no result when there is work but no way to reach the sink. */
  function RunPass(
    cfg: Config, dirs: seq<Directory>, rows: map<string, SyncRow>, v: Vault, gate: Gate, connects: bool,
    now: int, force: bool, fates: string -> DirectoryFates): Option<Pass>
  {
    var candidates := OfKind(dirs, rows, now, force, Sync);
    var untouched := |OfKind(dirs, rows, now, force, Unchanged)|;
    var deferred := |OfKind(dirs, rows, now, force, Deferred)|;
    if candidates == [] then Some(Pass(rows, v, Report(|dirs|, untouched, deferred, 0, 0, 0), false))
    else if !connects then None
    else
      var p := SyncAll(cfg, candidates, Progress(rows, v, 0, 0, 0), gate, now, force, fates);
      Some(Pass(p.rows, p.vault, Report(|dirs|, untouched, deferred, p.synced, p.failed, p.blocked), true))
  }
}
