/** What memory synchronisation guarantees: reports that partition the directories, mirrors that stay
    apart, history for every synced row, convergence to silence, and dead letters left alone. */
module MemorySyncRuns {
  import opened Wrappers
  import opened Vault
  import opened MemoryMirror
  import opened MemorySync
  import Delivery
  import DeliveryRuns

  // ----- partition

  lemma {:induction false} KindsPartition(dirs: seq<Directory>, rows: map<string, SyncRow>, now: int, force: bool)
    ensures |OfKind(dirs, rows, now, force, Unchanged)| + |OfKind(dirs, rows, now, force, Deferred)|
            + |OfKind(dirs, rows, now, force, Sync)| == |dirs|
  {
    if dirs != [] {
      KindsPartition(dirs[1..], rows, now, force);
    }
  }

  lemma {:induction false} SyncAllCounts(
    cfg: Config, dirs: seq<Directory>, p: Progress, gate: Gate, now: int, force: bool, fates: string -> DirectoryFates)
    ensures var q := SyncAll(cfg, dirs, p, gate, now, force, fates);
            q.synced + q.failed + q.blocked == p.synced + p.failed + p.blocked + |dirs|
    decreases |dirs|
  {
    hide SyncOne;
    if dirs != [] {
      SyncAllCounts(cfg, dirs[..|dirs| - 1], p, gate, now, force, fates);
    }
  }

  /** Every successful pass accounts for every directory exactly once. */
  lemma ReportPartitions(
    cfg: Config, dirs: seq<Directory>, rows: map<string, SyncRow>, v: Vault, gate: Gate, connects: bool,
    now: int, force: bool, fates: string -> DirectoryFates)
    ensures var pass := RunPass(cfg, dirs, rows, v, gate, connects, now, force, fates);
            pass.Some? ==>
              var r := pass.value.report;
              && r.directories == |dirs|
              && r.untouched + r.deferred + r.synced + r.failed + r.blocked == |dirs|
  {
    KindsPartition(dirs, rows, now, force);
    SyncAllCounts(cfg, OfKind(dirs, rows, now, force, Sync), Progress(rows, v, 0, 0, 0), gate, now, force, fates);
    hide SyncAll, OfKind;
  }

  // ----- isolation

  /** The paths one directory's mirror is written to. */
  ghost predicate IsOwnPath(cfg: Config, slug: string, p: string) {
    || p == ManifestNotePath(cfg.folder, cfg.machine, slug)
    || exists relative :: p == MirrorPath(cfg.folder, cfg.machine, slug, relative)
  }

  ghost predicate SameOutside(cfg: Config, slug: string, before: map<string, Content>, after: map<string, Content>) {
    forall p :: !IsOwnPath(cfg, slug, p) ==> Lookup(after, p) == Lookup(before, p)
  }

  lemma {:induction false} MirroringStaysOwn(cfg: Config, dir: Directory, i: nat, v: Vault, write: nat -> Fate)
    requires i <= |dir.sources|
    ensures var after := MirrorFiles(cfg, dir, i, v, write).0;
            SameOutside(cfg, dir.slug, v.files, after.files) && after.head == v.head && after.log == v.log
    decreases |dir.sources| - i
  {
    hide MirrorPath, ManifestNotePath;
    if i < |dir.sources| && dir.sources[i].content.Some? {
      var path := FilePath(cfg, dir, i);
      assert IsOwnPath(cfg, dir.slug, path);
      hide IsOwnPath;
      var (v1, error) := PutDocument(v, path, dir.sources[i].content.value, write(i));
      assert SameOutside(cfg, dir.slug, v.files, v1.files);
      MirroringStaysOwn(cfg, dir, i + 1, v1, write);
    }
  }

  /** A path is one of the mirror's own up to leading slashes, which Git does not list. */
  ghost predicate OwnUpToSlashes(cfg: Config, slug: string, p: string) {
    exists o :: IsOwnPath(cfg, slug, o) && Delivery.NormalizeNotePath(o) == Delivery.NormalizeNotePath(p)
  }

  lemma OwnIsUpToSlashes(cfg: Config, slug: string, p: string)
    requires IsOwnPath(cfg, slug, p) || IsOwnDirty(cfg.folder, cfg.machine, slug, p)
    ensures OwnUpToSlashes(cfg, slug, p)
  {
    if !IsOwnPath(cfg, slug, p) {
      var folder, listed := DirectoryFolder(cfg.folder, cfg.machine, slug), Delivery.NormalizeNotePath(p);
      if folder + "/" <= listed {
        var relative := listed[|folder| + 1..];
        assert listed == folder + ("/" + relative);
        assert listed == MirrorPath(cfg.folder, cfg.machine, slug, relative);
        TrimmedStaysTrimmed(p);
        assert Delivery.NormalizeNotePath(listed) == listed;
      }
    }
    hide DirectoryFolder, Delivery.NormalizeNotePath;
  }

  /** The commits a directory may cause: none, or one under its own message. */
  predicate CommitsOnly(before: seq<Commit>, after: seq<Commit>, subject: string) {
    after == before || (after != [] && after[1..] == before && after[0].subject == subject)
  }

  lemma CorrelatingCommits(v: Vault, subject: string, f: DirectoryFates)
    ensures var (after, result) := Correlate(v, subject, f);
            && after.files == v.files
            && CommitsOnly(v.log, after.log, subject)
            && (after.log != v.log ==> after.log[0].paths == Dirty(v))
            && (result.Success? ==> DeliveryRuns.HasCommit(after.log, subject, result.value))
            && (forall c :: c in v.log ==> c in after.log)
  {
    DeliveryRuns.CorrelationIsTrue(v, subject, Delivery.ALL_WORK.(commit := f.commit, find := f.find));
    hide Dirty, FirstWithSubject, DeliveryRuns.HasCommit;
  }

  /** What is dirty once the mirror is written is its own, when nothing else was dirty before. */
  lemma DirtyStaysOwn(cfg: Config, dir: Directory, v: Vault, after: Vault)
    requires !HasUnrelated(cfg, dir, v) && SameOutside(cfg, dir.slug, v.files, after.files) && after.head == v.head
    ensures forall p :: p in Dirty(after) ==> OwnUpToSlashes(cfg, dir.slug, p)
  {
    hide IsOwnPath, OwnUpToSlashes, IsOwnDirty;
    forall p | p in Dirty(after)
      ensures OwnUpToSlashes(cfg, dir.slug, p)
    {
      if !IsOwnPath(cfg, dir.slug, p) {
        assert p in Dirty(v);
      }
      OwnIsUpToSlashes(cfg, dir.slug, p);
    }
  }

  /** Syncing one directory changes no path but its own, commits no path but its own and only under its
      own message, and with any other dirty path in the tree does nothing at all. A success has its
      commit. */
  lemma SyncIsIsolated(cfg: Config, dir: Directory, row: SyncRow, v: Vault, f: DirectoryFates)
    ensures var (after, result) := SyncDirectory(cfg, dir, row, v, f);
            var subject := MemoryMessage(cfg.machine, dir.slug, row.revision + 1);
            && SameOutside(cfg, dir.slug, v.files, after.files)
            && CommitsOnly(v.log, after.log, subject)
            && (after.log != v.log ==> forall p :: p in after.log[0].paths ==> OwnUpToSlashes(cfg, dir.slug, p))
            && (HasUnrelated(cfg, dir, v) ==> after == v && result.Failure?)
            && (result.Success? ==> DeliveryRuns.HasCommit(after.log, subject, result.value))
            && (forall c :: c in v.log ==> c in after.log)
  {
    hide MemoryMessage, ManifestNotePath, MirrorFiles, Correlate, HasUnrelated, ManifestNote, DeliveryRuns.HasCommit, Dirty;
    MirroringStaysOwn(cfg, dir, 0, v, f.write);
    var v1 := MirrorFiles(cfg, dir, 0, v, f.write).0;
    var path := NotePath(cfg, dir);
    assert IsOwnPath(cfg, dir.slug, path);
    hide IsOwnPath;
    var v2 := PutDocument(v1, path, ManifestNote(cfg, dir, row.revision + 1), f.manifest).0;
    assert SameOutside(cfg, dir.slug, v1.files, v2.files);
    CorrelatingCommits(v2, MemoryMessage(cfg.machine, dir.slug, row.revision + 1), f);
    if !HasUnrelated(cfg, dir, v) {
      DirtyStaysOwn(cfg, dir, v, v2);
    }
    hide CommitsOnly, OwnUpToSlashes;
    assert CommitsOnly(v.log, v.log, MemoryMessage(cfg.machine, dir.slug, row.revision + 1)) by { NoCommits(v.log, MemoryMessage(cfg.machine, dir.slug, row.revision + 1)); }
  }

  lemma NoCommits(log: seq<Commit>, subject: string)
    ensures CommitsOnly(log, log, subject)
  {
  }

  // ----- dead letters

  /** A pass without force leaves a dead letter's row and mirror as they are. */
  lemma DeadLetterIsLeftAlone(
    cfg: Config, dirs: seq<Directory>, rows: map<string, SyncRow>, v: Vault, gate: Gate, connects: bool,
    now: int, fates: string -> DirectoryFates, dead: Directory)
    requires forall d :: d in dirs ==> ValidSlug(d.slug)
    requires forall d :: d in dirs && d.slug == dead.slug ==> d == dead
    requires dead in dirs && dead.slug in rows && rows[dead.slug].state == DeadLetter
    ensures var pass := RunPass(cfg, dirs, rows, v, gate, connects, now, false, fates);
            pass.Some? ==>
              && RowOf(pass.value.rows, dead.slug) == RowOf(rows, dead.slug)
              && (forall p :: IsOwnPath(cfg, dead.slug, p) ==> Lookup(pass.value.vault.files, p) == Lookup(v.files, p))
  {
    var candidates := OfKind(dirs, rows, now, false, Sync);
    assert EligibilityOf(dead, rows, now, false) == Unchanged;
    forall d | d in candidates
      ensures d.slug != dead.slug && ValidSlug(d.slug)
    {
      assert d in dirs;
    }
    OthersLeaveAlone(cfg, candidates, Progress(rows, v, 0, 0, 0), gate, now, false, fates, dead.slug);
    hide SyncAll, OfKind, IsOwnPath;
  }

  lemma {:induction false} OthersLeaveAlone(
    cfg: Config, dirs: seq<Directory>, p: Progress, gate: Gate, now: int, force: bool,
    fates: string -> DirectoryFates, slug: string)
    requires ValidSlug(slug) && forall d :: d in dirs ==> d.slug != slug && ValidSlug(d.slug)
    ensures var q := SyncAll(cfg, dirs, p, gate, now, force, fates);
            && RowOf(q.rows, slug) == RowOf(p.rows, slug)
            && (forall path :: IsOwnPath(cfg, slug, path) ==> Lookup(q.vault.files, path) == Lookup(p.vault.files, path))
    decreases |dirs|
  {
    hide IsOwnPath, SyncOne;
    if dirs != [] {
      var d := dirs[|dirs| - 1];
      assert d in dirs;
      OthersLeaveAlone(cfg, dirs[..|dirs| - 1], p, gate, now, force, fates, slug);
      var before := SyncAll(cfg, dirs[..|dirs| - 1], p, gate, now, force, fates);
      OneIsIsolated(cfg, d, RowOf(before.rows, d.slug), before.vault, gate, now, force, fates(d.slug));
      forall path | IsOwnPath(cfg, slug, path)
        ensures !IsOwnPath(cfg, d.slug, path)
      {
        MirrorsAreApart(cfg, slug, cfg.machine, d.slug, path);
      }
    }
  }

  lemma OneIsIsolated(
    cfg: Config, dir: Directory, row: Option<SyncRow>, v: Vault, gate: Gate, now: int, force: bool, f: DirectoryFates)
    ensures SameOutside(cfg, dir.slug, v.files, SyncOne(cfg, dir, row, v, gate, now, force, f).1.files)
  {
    hide SyncDirectory, IsOwnPath;
    var ensured := if row.Some? then row.value else NEW_ROW;
    var ready := if force then ForceRetry(ensured) else ensured;
    SyncIsIsolated(cfg, dir, ready, v, f);
  }

  /** No path belongs to two directories' mirrors, be they of one machine or of two. */
  lemma MirrorsAreApart(cfg: Config, slug: string, machine': string, slug': string, p: string)
    requires ValidSlug(slug) && ValidSlug(slug') && SameOrApart(cfg.machine, machine')
    requires cfg.machine != machine' || slug != slug'
    requires IsOwnPath(cfg, slug, p)
    ensures !IsOwnPath(cfg.(machine := machine'), slug', p)
  {
    if IsOwnPath(cfg.(machine := machine'), slug', p) {
      var a := if p == ManifestNotePath(cfg.folder, cfg.machine, slug) then ""
               else var r :| p == MirrorPath(cfg.folder, cfg.machine, slug, r); r;
      var b := if p == ManifestNotePath(cfg.folder, machine', slug') then ""
               else var r :| p == MirrorPath(cfg.folder, machine', slug', r); r;
      MirrorPathsDistinct(cfg.folder, cfg.machine, slug, a, machine', slug', b);
      MirrorPathsDistinct(cfg.folder, machine', slug', b, cfg.machine, slug, a);
      assert false;
    }
  }

  // ----- the fixpoint

  predicate AllSynced(dirs: seq<Directory>, rows: map<string, SyncRow>) {
    forall d :: d in dirs ==> IsSynced(d, rows)
  }

  lemma {:induction false} SyncedIsUntouched(dirs: seq<Directory>, rows: map<string, SyncRow>, now: int, force: bool)
    requires AllSynced(dirs, rows)
    ensures OfKind(dirs, rows, now, force, Sync) == [] && OfKind(dirs, rows, now, force, Deferred) == []
    ensures OfKind(dirs, rows, now, force, Unchanged) == dirs
  {
    if dirs != [] {
      assert IsSynced(dirs[0], rows);
      assert EligibilityOf(dirs[0], rows, now, force) == Unchanged;
      hide EligibilityOf, IsSynced;
      assert forall d :: d in dirs[1..] ==> d in dirs;
      SyncedIsUntouched(dirs[1..], rows, now, force);
      assert [dirs[0]] + dirs[1..] == dirs;
    }
  }

  /** With all directories synced and their files fixed, no pass asks the sink anything or changes
      anything, forced or not, so neither does any later one. */
  lemma SyncedPassIsSilent(
    cfg: Config, dirs: seq<Directory>, rows: map<string, SyncRow>, v: Vault, gate: Gate, connects: bool,
    now: int, force: bool, fates: string -> DirectoryFates)
    requires AllSynced(dirs, rows)
    ensures RunPass(cfg, dirs, rows, v, gate, connects, now, force, fates)
            == Some(Pass(rows, v, Report(|dirs|, |dirs|, 0, 0, 0, 0), false))
  {
    SyncedIsUntouched(dirs, rows, now, force);
    hide OfKind;
  }

  predicate NoDeadLetter(dirs: seq<Directory>, rows: map<string, SyncRow>) {
    forall d :: d in dirs && d.slug in rows ==> rows[d.slug].state != DeadLetter
  }

  /** Slugs are directory names of one folder. */
  predicate DistinctSlugs(dirs: seq<Directory>) {
    forall c, d :: c in dirs && d in dirs && c.slug == d.slug ==> c == d
  }

  /** A pass that reports no failure, block or deferral, over directories without a dead letter, has
      everything synced, so every later pass is silent. */
  lemma CleanPassSyncsAll(
    cfg: Config, dirs: seq<Directory>, rows: map<string, SyncRow>, v: Vault, gate: Gate, connects: bool,
    now: int, force: bool, fates: string -> DirectoryFates)
    requires DistinctSlugs(dirs) && NoDeadLetter(dirs, rows)
    ensures var pass := RunPass(cfg, dirs, rows, v, gate, connects, now, force, fates);
            pass.Some? && pass.value.report.failed == 0 && pass.value.report.blocked == 0 && pass.value.report.deferred == 0
            ==> AllSynced(dirs, pass.value.rows)
  {
    hide SyncAll, OfKind, SyncOne;
    var candidates := OfKind(dirs, rows, now, force, Sync);
    var start := Progress(rows, v, 0, 0, 0);
    var q := SyncAll(cfg, candidates, start, gate, now, force, fates);
    if candidates == [] {
      NothingToDo(cfg, start, gate, now, force, fates);
    }
    if q.failed == 0 && q.blocked == 0 && OfKind(dirs, rows, now, force, Deferred) == [] {
      CandidatesAreSynced(cfg, candidates, start, gate, now, force, fates);
      forall d | d in dirs
        ensures IsSynced(d, q.rows)
      {
        assert EligibilityOf(d, rows, now, force) == Deferred ==> d in OfKind(dirs, rows, now, force, Deferred);
        if EligibilityOf(d, rows, now, force) == Unchanged {
          forall c | c in candidates
            ensures c.slug != d.slug
          {
            assert c in dirs;
          }
          RowsOfOthersStay(cfg, candidates, start, gate, now, force, fates, d.slug);
        }
      }
    }
  }

  predicate IsSynced(d: Directory, rows: map<string, SyncRow>) {
    d.slug in rows && rows[d.slug].state == Synced && rows[d.slug].manifestHash == Some(d.manifestHash)
  }

  lemma NothingToDo(
    cfg: Config, p: Progress, gate: Gate, now: int, force: bool, fates: string -> DirectoryFates)
    ensures SyncAll(cfg, [], p, gate, now, force, fates) == p
  {
  }

  lemma {:induction false} RowsOfOthersStay(
    cfg: Config, dirs: seq<Directory>, p: Progress, gate: Gate, now: int, force: bool,
    fates: string -> DirectoryFates, slug: string)
    requires forall d :: d in dirs ==> d.slug != slug
    ensures RowOf(SyncAll(cfg, dirs, p, gate, now, force, fates).rows, slug) == RowOf(p.rows, slug)
    decreases |dirs|
  {
    hide SyncOne;
    if dirs != [] {
      assert dirs[|dirs| - 1] in dirs;
      RowsOfOthersStay(cfg, dirs[..|dirs| - 1], p, gate, now, force, fates, slug);
    }
  }

  lemma {:induction false} CandidatesAreSynced(
    cfg: Config, dirs: seq<Directory>, p: Progress, gate: Gate, now: int, force: bool, fates: string -> DirectoryFates)
    requires DistinctSlugs(dirs)
    requires var q := SyncAll(cfg, dirs, p, gate, now, force, fates); q.failed == 0 && q.blocked == 0
    ensures forall d :: d in dirs ==> IsSynced(d, SyncAll(cfg, dirs, p, gate, now, force, fates).rows)
    decreases |dirs|
  {
    hide SyncOne;
    if dirs != [] {
      var last := dirs[|dirs| - 1];
      var init := dirs[..|dirs| - 1];
      var before := SyncAll(cfg, init, p, gate, now, force, fates);
      CandidatesAreSynced(cfg, init, p, gate, now, force, fates);
      var q := SyncAll(cfg, dirs, p, gate, now, force, fates);
      SyncedVerdict(cfg, last, RowOf(before.rows, last.slug), before.vault, gate, now, force, fates(last.slug));
      assert dirs == init + [last];
      forall d | d in dirs
        ensures IsSynced(d, q.rows)
      {
        if d.slug == last.slug {
          assert last in dirs && d == last;
        } else {
          assert d in init;
        }
      }
    }
  }

  lemma SyncedVerdict(
    cfg: Config, dir: Directory, row: Option<SyncRow>, v: Vault, gate: Gate, now: int, force: bool, f: DirectoryFates)
    ensures var (after, _, verdict) := SyncOne(cfg, dir, row, v, gate, now, force, f);
            verdict == WasSynced ==> after.state == Synced && after.manifestHash == Some(dir.manifestHash)
  {
    hide SyncDirectory;
  }

  // ----- history

  /** Every row that records a commit is right about it. */
  predicate HistoryHolds(machine: string, rows: map<string, SyncRow>, log: seq<Commit>) {
    forall slug :: slug in rows && rows[slug].historyCommit.Some? ==>
      DeliveryRuns.HasCommit(log, MemoryMessage(machine, slug, rows[slug].revision), rows[slug].historyCommit.value)
  }

  lemma OneKeepsHistory(
    cfg: Config, dir: Directory, row: Option<SyncRow>, v: Vault, gate: Gate, now: int, force: bool, f: DirectoryFates)
    requires row.Some? && row.value.historyCommit.Some? ==>
               DeliveryRuns.HasCommit(v.log, MemoryMessage(cfg.machine, dir.slug, row.value.revision), row.value.historyCommit.value)
    ensures var (after, vault, verdict) := SyncOne(cfg, dir, row, v, gate, now, force, f);
            && (forall c :: c in v.log ==> c in vault.log)
            && (after.historyCommit.Some? ==>
                  DeliveryRuns.HasCommit(vault.log, MemoryMessage(cfg.machine, dir.slug, after.revision), after.historyCommit.value))
            && (verdict == WasSynced <==> after.state == Synced)
            && (verdict == WasSynced ==> after.historyCommit.Some?)
            && after.revision == (if row.Some? then row.value.revision else 0) + (if verdict == WasSynced then 1 else 0)
  {
    hide SyncDirectory, MemoryMessage, DeliveryRuns.HasCommit;
    var ensured := if row.Some? then row.value else NEW_ROW;
    var ready := if force then ForceRetry(ensured) else ensured;
    SyncIsIsolated(cfg, dir, ready, v, f);
    if row.Some? && row.value.historyCommit.Some? {
      DeliveryRuns.HistoryLasts(
        v.log, SyncDirectory(cfg, dir, ready, v, f).0.log,
        MemoryMessage(cfg.machine, dir.slug, row.value.revision), row.value.historyCommit.value);
    }
  }

  lemma {:induction false} SyncAllKeepsHistory(
    cfg: Config, dirs: seq<Directory>, p: Progress, gate: Gate, now: int, force: bool, fates: string -> DirectoryFates)
    requires HistoryHolds(cfg.machine, p.rows, p.vault.log)
    ensures var q := SyncAll(cfg, dirs, p, gate, now, force, fates);
            HistoryHolds(cfg.machine, q.rows, q.vault.log)
    decreases |dirs|
  {
    hide SyncOne, MemoryMessage, DeliveryRuns.HasCommit;
    if dirs != [] {
      var d := dirs[|dirs| - 1];
      SyncAllKeepsHistory(cfg, dirs[..|dirs| - 1], p, gate, now, force, fates);
      var before := SyncAll(cfg, dirs[..|dirs| - 1], p, gate, now, force, fates);
      OneKeepsHistory(cfg, d, RowOf(before.rows, d.slug), before.vault, gate, now, force, fates(d.slug));
      var q := SyncAll(cfg, dirs, p, gate, now, force, fates);
      hide SyncAll;
      forall slug | slug in q.rows && q.rows[slug].historyCommit.Some?
        ensures DeliveryRuns.HasCommit(q.vault.log, MemoryMessage(cfg.machine, slug, q.rows[slug].revision), q.rows[slug].historyCommit.value)
      {
        if slug != d.slug {
          DeliveryRuns.HistoryLasts(
            before.vault.log, q.vault.log, MemoryMessage(cfg.machine, slug, q.rows[slug].revision), q.rows[slug].historyCommit.value);
        }
      }
    }
  }

  /** A pass and its adversary; a pass that dies behind whatever its k-th candidate did to the vault, with
      that candidate's outcome not recorded; and other writers, who may do anything but rewrite the log. A
      pass that dies between two calls is one whose later calls are refused. */
  datatype Event =
    | DiedEvent(dirs: seq<Directory>, k: nat, gate: Gate, now: int, force: bool, fates: string -> DirectoryFates)
    | PassEvent(dirs: seq<Directory>, gate: Gate, connects: bool, now: int, force: bool, fates: string -> DirectoryFates)
    | Others(files: map<string, Content>, head: map<string, Content>, commits: seq<Commit>)

  function DiedPass(
    cfg: Config, dirs: seq<Directory>, k: nat, rows: map<string, SyncRow>, v: Vault, gate: Gate,
    now: int, force: bool, fates: string -> DirectoryFates): (map<string, SyncRow>, Vault)
  {
    var candidates := OfKind(dirs, rows, now, force, Sync);
    if k >= |candidates| then (rows, v)
    else
      var d := candidates[k];
      var p := SyncAll(cfg, candidates[..k], Progress(rows, v, 0, 0, 0), gate, now, force, fates);
      (p.rows[d.slug := Ready(RowOf(p.rows, d.slug), force)],
       SyncOne(cfg, d, RowOf(p.rows, d.slug), p.vault, gate, now, force, fates(d.slug)).1)
  }

  function Next(cfg: Config, rows: map<string, SyncRow>, v: Vault, e: Event): (map<string, SyncRow>, Vault) {
    match e
    case PassEvent(dirs, gate, connects, now, force, fates) =>
      (match RunPass(cfg, dirs, rows, v, gate, connects, now, force, fates)
       case None => (rows, v)
       case Some(pass) => (pass.rows, pass.vault))
    case DiedEvent(dirs, k, gate, now, force, fates) => DiedPass(cfg, dirs, k, rows, v, gate, now, force, fates)
    case Others(files, head, commits) => (rows, Vault(files, head, commits + v.log))
  }

  function Run(cfg: Config, rows: map<string, SyncRow>, v: Vault, events: seq<Event>): (map<string, SyncRow>, Vault)
    decreases |events|
  {
    if events == [] then (rows, v)
    else
      var (rows1, v1) := Next(cfg, rows, v, events[0]);
      Run(cfg, rows1, v1, events[1..])
  }

  /** Over any run, whatever fails or loses its answer, every recorded commit is in the vault's log under
      exactly the directory and revision of its row. */
  lemma {:induction false} RunsKeepHistory(cfg: Config, rows: map<string, SyncRow>, v: Vault, events: seq<Event>)
    requires HistoryHolds(cfg.machine, rows, v.log)
    ensures var (after, vault) := Run(cfg, rows, v, events);
            HistoryHolds(cfg.machine, after, vault.log)
    decreases |events|
  {
    hide HistoryHolds, RunPass;
    if events != [] {
      NextKeepsHistory(cfg, rows, v, events[0]);
      var (rows1, v1) := Next(cfg, rows, v, events[0]);
      RunsKeepHistory(cfg, rows1, v1, events[1..]);
    }
  }

  lemma DiedKeepsHistory(
    cfg: Config, dirs: seq<Directory>, k: nat, rows: map<string, SyncRow>, v: Vault, gate: Gate,
    now: int, force: bool, fates: string -> DirectoryFates)
    requires HistoryHolds(cfg.machine, rows, v.log)
    ensures var (after, vault) := DiedPass(cfg, dirs, k, rows, v, gate, now, force, fates);
            HistoryHolds(cfg.machine, after, vault.log)
  {
    hide SyncAll, SyncOne, OfKind, MemoryMessage, DeliveryRuns.HasCommit;
    var candidates := OfKind(dirs, rows, now, force, Sync);
    if k < |candidates| {
      var d := candidates[k];
      var p := SyncAll(cfg, candidates[..k], Progress(rows, v, 0, 0, 0), gate, now, force, fates);
      SyncAllKeepsHistory(cfg, candidates[..k], Progress(rows, v, 0, 0, 0), gate, now, force, fates);
      OneKeepsHistory(cfg, d, RowOf(p.rows, d.slug), p.vault, gate, now, force, fates(d.slug));
      var after := p.rows[d.slug := Ready(RowOf(p.rows, d.slug), force)];
      var vault := SyncOne(cfg, d, RowOf(p.rows, d.slug), p.vault, gate, now, force, fates(d.slug)).1;
      forall slug | slug in after && after[slug].historyCommit.Some?
        ensures DeliveryRuns.HasCommit(vault.log, MemoryMessage(cfg.machine, slug, after[slug].revision), after[slug].historyCommit.value)
      {
        assert slug in p.rows && p.rows[slug].historyCommit == after[slug].historyCommit;
        DeliveryRuns.HistoryLasts(
          p.vault.log, vault.log, MemoryMessage(cfg.machine, slug, after[slug].revision), after[slug].historyCommit.value);
      }
    }
  }

  lemma NextKeepsHistory(cfg: Config, rows: map<string, SyncRow>, v: Vault, e: Event)
    requires HistoryHolds(cfg.machine, rows, v.log)
    ensures var (after, vault) := Next(cfg, rows, v, e);
            HistoryHolds(cfg.machine, after, vault.log)
  {
    hide SyncAll, OfKind, MemoryMessage, DeliveryRuns.HasCommit, DiedPass;
    match e
    case PassEvent(dirs, gate, connects, now, force, fates) =>
      SyncAllKeepsHistory(
        cfg, OfKind(dirs, rows, now, force, Sync), Progress(rows, v, 0, 0, 0), gate, now, force, fates);
    case DiedEvent(dirs, k, gate, now, force, fates) =>
      DiedKeepsHistory(cfg, dirs, k, rows, v, gate, now, force, fates);
    case Others(files, head, commits) =>
      forall slug | slug in rows && rows[slug].historyCommit.Some?
        ensures DeliveryRuns.HasCommit(commits + v.log, MemoryMessage(cfg.machine, slug, rows[slug].revision), rows[slug].historyCommit.value)
      {
        DeliveryRuns.HistoryLasts(
          v.log, commits + v.log, MemoryMessage(cfg.machine, slug, rows[slug].revision), rows[slug].historyCommit.value);
      }
  }
}
