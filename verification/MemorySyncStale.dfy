/** What a correlation by message alone can get wrong in memory sync: when a success has committed what it
    wrote, how a run gets to one that has not, and what that does to the other directories. */
module MemorySyncStale {
  import opened Wrappers
  import opened Text
  import opened Vault
  import opened MemoryMirror
  import opened MemorySync
  import opened MemorySyncRuns
  import opened MemorySyncConvergence
  import DeliveryRuns

  // ----- when a success has committed its mirror

  predicate Readable(dir: Directory) {
    forall i :: 0 <= i < |dir.sources| ==> dir.sources[i].content.Some?
  }

  lemma {:induction false} MirroredWhole(cfg: Config, dir: Directory, i: nat, v: Vault, write: nat -> Fate)
    requires i <= |dir.sources| && MirrorFiles(cfg, dir, i, v, write).1.None?
    ensures MirrorFiles(cfg, dir, i, v, write).0 == v.(files := v.files + FileTree(cfg, dir, i))
    decreases |dir.sources| - i
  {
    hide FilePath;
    if i < |dir.sources| {
      var path, content := FilePath(cfg, dir, i), Foreign(dir.sources[i].content.value);
      MirroredWhole(cfg, dir, i + 1, Write(v, path, content), write);
      WriteThenTree(v.files, path, content, FileTree(cfg, dir, i + 1));
    } else {
      assert v.files + map[] == v.files;
    }
  }

  lemma SuccessWrites(cfg: Config, dir: Directory, row: SyncRow, v: Vault, f: DirectoryFates)
    requires SyncDirectory(cfg, dir, row, v, f).1.Success?
    ensures !HasUnrelated(cfg, dir, v)
    ensures SyncDirectory(cfg, dir, row, v, f) ==
            Correlate(Mirrored(cfg, dir, row.revision + 1, v), MemoryMessage(cfg.machine, dir.slug, row.revision + 1), f)
  {
    hide MirrorFiles, FileTree, ManifestNote, NotePath, MemoryMessage, HasUnrelated, Correlate;
    var revision := row.revision + 1;
    var (v1, error) := MirrorFiles(cfg, dir, 0, v, f.write);
    if error.None? {
      MirroredWhole(cfg, dir, 0, v, f.write);
      var path, note := NotePath(cfg, dir), Foreign(ManifestNote(cfg, dir, revision));
      assert (v.files + FileTree(cfg, dir, 0))[path := note] == v.files + Tree(cfg, dir, revision);
    }
  }

  /** A success by a refused commit found an older one; any other leaves nothing uncommitted. */
  lemma CorrelatedBy(v: Vault, subject: string, f: DirectoryFates)
    requires Correlate(v, subject, f).1.Success?
    ensures f.commit.Refuses? ==> Correlate(v, subject, f).0 == v && DeliveryRuns.Listed(v.log, subject)
    ensures !f.commit.Refuses? ==> Correlate(v, subject, f).0.head == v.files
    ensures Correlate(v, subject, f).0.files == v.files
  {
    if Dirty(v) == {} {
      CleanIsCommitted(v);
    }
    hide Dirty;
  }

  lemma WrittenIsCommitted(cfg: Config, dir: Directory, k: nat, v: Vault, after: Vault)
    requires after.head == v.files + Tree(cfg, dir, k)
    ensures IsCommitted(cfg, dir, k, after)
  {
    hide Tree;
  }

  lemma SameHeadSameCommitted(cfg: Config, dir: Directory, k: nat, v: Vault, after: Vault)
    requires after.head == v.head
    ensures IsCommitted(cfg, dir, k, after) == IsCommitted(cfg, dir, k, v)
  {
    hide Tree;
  }

  /** A success has committed the mirror it wrote if and only if its commit was not refused or the mirror
      was committed before; a success after a refused commit rests on an older one under its message. */
  lemma SuccessCommitsIff(cfg: Config, dir: Directory, row: SyncRow, v: Vault, f: DirectoryFates)
    requires SyncDirectory(cfg, dir, row, v, f).1.Success?
    ensures var k, after := row.revision + 1, SyncDirectory(cfg, dir, row, v, f).0;
            && after.files == v.files + Tree(cfg, dir, k)
            && (IsCommitted(cfg, dir, k, after) <==> !f.commit.Refuses? || IsCommitted(cfg, dir, k, v))
            && (f.commit.Refuses? ==> after.head == v.head && DeliveryRuns.Listed(v.log, MemoryMessage(cfg.machine, dir.slug, k)))
  {
    hide SyncDirectory, Correlate, Tree, IsCommitted, MemoryMessage, DeliveryRuns.Listed, HasUnrelated;
    var k := row.revision + 1;
    SuccessWrites(cfg, dir, row, v, f);
    var m := Mirrored(cfg, dir, k, v);
    CorrelatedBy(m, MemoryMessage(cfg.machine, dir.slug, k), f);
    var after := SyncDirectory(cfg, dir, row, v, f).0;
    if f.commit.Refuses? {
      SameHeadSameCommitted(cfg, dir, k, v, after);
    } else {
      WrittenIsCommitted(cfg, dir, k, v, after);
    }
  }

  /** When an earlier attempt's commit of the revision is listed and the next commit is refused, the sync
      counts as a success although nothing of what it wrote is committed. */
  lemma StaleCommitIsTaken(cfg: Config, dir: Directory, row: SyncRow, v: Vault, f: DirectoryFates, refusal: string)
    requires FaultFree(dir, f.(commit := Works)) && f.commit == Fate.Refuses(refusal)
    requires !HasUnrelated(cfg, dir, v)
    requires DeliveryRuns.Listed(v.log, MemoryMessage(cfg.machine, dir.slug, row.revision + 1))
    ensures var (after, result) := SyncDirectory(cfg, dir, row, v, f);
            && result.Success?
            && after == Mirrored(cfg, dir, row.revision + 1, v)
            && after.head == v.head && after.log == v.log
  {
    hide MirrorFiles, FileTree, ManifestNote, NotePath, MemoryMessage, Dirty, HasUnrelated, FirstWithSubject;
    var revision := row.revision + 1;
    MirroringWrites(cfg, dir, 0, v, f.(commit := Works));
    var path, note := NotePath(cfg, dir), Foreign(ManifestNote(cfg, dir, revision));
    assert (v.files + FileTree(cfg, dir, 0))[path := note] == v.files + Tree(cfg, dir, revision);
    hide FaultFree;
  }

  predicate CommitsIfSucceeds(cfg: Config, dir: Directory, row: SyncRow, v: Vault, f: DirectoryFates) {
    var (after, result) := SyncDirectory(cfg, dir, row, v, f);
    result.Success? ==> IsCommitted(cfg, dir, row.revision + 1, after)
  }

  /** Before the call: whatever fails, a success will have committed the mirror, if and only if no commit
      under the next revision's message is listed yet or the mirror is committed already. */
  lemma SuccessAlwaysCommitsIff(cfg: Config, dir: Directory, row: SyncRow, v: Vault)
    requires Readable(dir) && !HasUnrelated(cfg, dir, v)
    ensures (forall f :: CommitsIfSucceeds(cfg, dir, row, v, f)) <==>
              || !DeliveryRuns.Listed(v.log, MemoryMessage(cfg.machine, dir.slug, row.revision + 1))
              || IsCommitted(cfg, dir, row.revision + 1, v)
  {
    hide SyncDirectory, IsCommitted, MemoryMessage, DeliveryRuns.Listed, HasUnrelated, Tree;
    var k := row.revision + 1;
    forall f
      ensures CommitsIfSucceeds(cfg, dir, row, v, f) ||
              (DeliveryRuns.Listed(v.log, MemoryMessage(cfg.machine, dir.slug, k)) && !IsCommitted(cfg, dir, k, v))
    {
      if SyncDirectory(cfg, dir, row, v, f).1.Success? {
        SuccessCommitsIff(cfg, dir, row, v, f);
      }
    }
    if DeliveryRuns.Listed(v.log, MemoryMessage(cfg.machine, dir.slug, k)) && !IsCommitted(cfg, dir, k, v) {
      var f := RefusedCommit("");
      StaleCommitIsTaken(cfg, dir, row, v, f, "");
      SuccessCommitsIff(cfg, dir, row, v, f);
      assert !CommitsIfSucceeds(cfg, dir, row, v, f);
    }
  }

  // ----- a run that gets there

  function RefusedCommit(category: string): DirectoryFates {
    DirectoryFates(Fate.Works, _ => Fate.Works, Fate.Works, Fate.Refuses(category), Fate.Works)
  }

  /** The commit lands, and both its answer and the lookup are lost. */
  function LostCommit(category: string): DirectoryFates {
    DirectoryFates(Fate.Works, _ => Fate.Works, Fate.Works, Fate.Lost(category), Fate.Refuses(category))
  }

  function StaleRun(old_: Directory, new_: Directory, now: int): seq<Event> {
    [PassEvent([old_], Available, true, now, false, _ => LostCommit("")),
     PassEvent([new_], Available, true, now, true, _ => RefusedCommit(""))]
  }

  lemma LostCommitLands(cfg: Config, dir: Directory, v: Vault)
    requires Readable(dir) && v.head == v.files && NotePath(cfg, dir) !in v.head
    ensures var (after, result) := SyncDirectory(cfg, dir, NEW_ROW, v, LostCommit(""));
            && result.Failure? && after.head == after.files
            && Lookup(after.head, NotePath(cfg, dir)) == Some(Foreign(ManifestNote(cfg, dir, 1)))
            && after.log != [] && after.log[0].subject == MemoryMessage(cfg.machine, dir.slug, 1)
  {
    hide MirrorFiles, FileTree, ManifestNote, NotePath, MemoryMessage, IsOwnDirty;
    CommittedIsClean(v);
    NothingUnrelated(cfg, dir, v);
    var f := LostCommit("");
    MirroringWrites(cfg, dir, 0, v, f.(commit := Fate.Works, find := Fate.Works));
    var path, note := NotePath(cfg, dir), Foreign(ManifestNote(cfg, dir, 1));
    var m := v.(files := (v.files + FileTree(cfg, dir, 0))[path := note]);
    assert path in Dirty(m);
    hide Dirty, HasUnrelated;
  }

  lemma OnePass(cfg: Config, dir: Directory, rows: map<string, SyncRow>, v: Vault, now: int, force: bool, f: DirectoryFates)
    requires EligibilityOf(dir, rows, now, force) == Sync
    ensures var (row, vault, _) := SyncOne(cfg, dir, RowOf(rows, dir.slug), v, Available, now, force, f);
            Next(cfg, rows, v, PassEvent([dir], Available, true, now, force, _ => f)) == (rows[dir.slug := row], vault)
  {
    hide SyncOne, EligibilityOf;
    assert [dir][1..] == [] && [dir][..0] == [];
    assert OfKind([dir], rows, now, force, Sync) == [dir];
    assert SyncAll(cfg, [dir][..0], Progress(rows, v, 0, 0, 0), Available, now, force, _ => f) == Progress(rows, v, 0, 0, 0);
  }

  lemma RunTwo(cfg: Config, rows: map<string, SyncRow>, v: Vault, a: Event, b: Event)
    ensures Run(cfg, rows, v, [a, b]) ==
            var (rows1, v1) := Next(cfg, rows, v, a); Next(cfg, rows1, v1, b)
  {
    hide Next;
    var (rows1, v1) := Next(cfg, rows, v, a);
    var (rows2, v2) := Next(cfg, rows1, v1, b);
    assert [a, b][1..] == [b] && [b][1..] == [];
    assert Run(cfg, rows2, v2, []) == (rows2, v2);
    assert Run(cfg, rows1, v1, [b]) == (rows2, v2);
  }

  /** From a directory that was never synced: a commit that lands while its answer and the lookup are lost,
      then a forced pass over the changed files whose commit is refused. The row says the new files are
      synced; the vault's last commit holds the old ones, and the new note stays dirty. */
  lemma StaleIsReachable(
    cfg: Config, old_: Directory, new_: Directory, rows: map<string, SyncRow>, v: Vault, now: int)
    requires old_.slug == new_.slug && Readable(old_) && Readable(new_) && old_.slug !in rows
    requires v.head == v.files && NotePath(cfg, old_) !in v.head
    requires ManifestNote(cfg, old_, 1) != ManifestNote(cfg, new_, 1)
    ensures var (after, vault) := Run(cfg, rows, v, StaleRun(old_, new_, now));
            && IsSynced(new_, after) && after[new_.slug].revision == 1
            && !IsCommitted(cfg, new_, 1, vault)
            && NotePath(cfg, new_) in Dirty(vault)
  {
    hide Next, Run, SyncDirectory, ManifestNote, MemoryMessage, DeliveryRuns.Listed, IsCommitted, Tree, Dirty, HasUnrelated;
    var a := PassEvent([old_], Available, true, now, false, _ => LostCommit(""));
    var b := PassEvent([new_], Available, true, now, true, _ => RefusedCommit(""));
    RunTwo(cfg, rows, v, a, b);
    OnePass(cfg, old_, rows, v, now, false, LostCommit(""));
    LostCommitLands(cfg, old_, v);
    var (rows1, v1) := Next(cfg, rows, v, a);
    OnePass(cfg, new_, rows1, v1, now, true, RefusedCommit(""));
    var ready := Ready(RowOf(rows1, new_.slug), true);
    TopIsListed(v1.log);
    CommittedIsClean(v1);
    NothingUnrelated(cfg, new_, v1);
    StaleCommitIsTaken(cfg, new_, ready, v1, RefusedCommit(""), "");
    var (rows2, v2) := Next(cfg, rows1, v1, b);
    NoteIsWritten(cfg, new_, 1, v1);
    NoteStaysDirty(cfg, old_, new_, v2);
    hide NotePath;
  }

  lemma TopIsListed(log: seq<Commit>)
    requires log != []
    ensures DeliveryRuns.Listed(log, log[0].subject)
  {
    assert Newest(log)[0] == log[0] && Newest(log)[0] in Newest(log);
  }

  lemma NoteIsWritten(cfg: Config, dir: Directory, k: nat, v: Vault)
    ensures Lookup(Mirrored(cfg, dir, k, v).files, NotePath(cfg, dir)) == Some(Foreign(ManifestNote(cfg, dir, k)))
  {
    hide FileTree, ManifestNote, NotePath;
  }

  lemma NoteStaysDirty(cfg: Config, old_: Directory, new_: Directory, v: Vault)
    requires old_.slug == new_.slug && ManifestNote(cfg, old_, 1) != ManifestNote(cfg, new_, 1)
    requires Lookup(v.head, NotePath(cfg, old_)) == Some(Foreign(ManifestNote(cfg, old_, 1)))
    requires Lookup(v.files, NotePath(cfg, new_)) == Some(Foreign(ManifestNote(cfg, new_, 1)))
    ensures NotePath(cfg, new_) in Dirty(v) && !IsCommitted(cfg, new_, 1, v)
  {
    hide ManifestNote, FileTree, ManifestNotePath;
    assert NotePath(cfg, new_) in Tree(cfg, new_, 1);
  }

  /** Such versions of a directory exist under every name. */
  lemma VersionsExist(cfg: Config, slug: string)
    ensures var a, b := Directory(slug, [], "a"), Directory(slug, [], "b");
            Readable(a) && Readable(b) && ManifestNote(cfg, a, 1) != ManifestNote(cfg, b, 1)
  {
    var a, b := Directory(slug, [], "a"), Directory(slug, [], "b");
    NoteParts(cfg, a, 1);
    NoteParts(cfg, b, 1);
    var head := NoteHead(cfg, slug) + Decimal(1) + "\n" + "munshi_manifest_sha256: ";
    hide NoteHead, Decimal;
    assert ManifestNote(cfg, a, 1) == head + "a\n" && ManifestNote(cfg, b, 1) == head + "b\n";
    assert (head + "a\n")[|head|] == 'a' && (head + "b\n")[|head|] == 'b';
  }

  // ----- what it does to the others

  /** While one directory's manifest note is dirty no other directory is synced, and the vault stays as it
      is. */
  lemma DirtyNoteBlocks(cfg: Config, slug: string, other: Directory, row: SyncRow, v: Vault, f: DirectoryFates)
    requires ValidSlug(slug) && ValidSlug(other.slug) && slug != other.slug
    requires ManifestNotePath(cfg.folder, cfg.machine, slug) in Dirty(v)
    ensures HasUnrelated(cfg, other, v)
    ensures SyncDirectory(cfg, other, row, v, f).0 == v && SyncDirectory(cfg, other, row, v, f).1.Failure?
  {
    hide IsOwnDirty, Dirty, ManifestNotePath;
    NoteIsNotOthers(cfg, slug, other.slug);
  }

  /** The directory counts as synced, and its manifest note is dirty. */
  predicate Blocking(cfg: Config, dir: Directory, rows: map<string, SyncRow>, v: Vault) {
    ValidSlug(dir.slug) && IsSynced(dir, rows) && ManifestNotePath(cfg.folder, cfg.machine, dir.slug) in Dirty(v)
  }

  /** Passes that see this directory, if at all, as it is; other writers who leave its note dirty. */
  predicate LeavesBlocked(cfg: Config, dir: Directory, e: Event) {
    match e
    case PassEvent(dirs, _, _, _, _, _) => SeesOnly(dirs, dir)
    case DiedEvent(dirs, _, _, _, _, _) => SeesOnly(dirs, dir)
    case Others(files, head, _) => ManifestNotePath(cfg.folder, cfg.machine, dir.slug) in Dirty(Vault(files, head, []))
  }

  predicate SeesOnly(dirs: seq<Directory>, dir: Directory) {
    forall d :: d in dirs ==> ValidSlug(d.slug) && (d.slug == dir.slug ==> d == dir)
  }

  /** No row got any further: every revision is what it was, and whatever counts as synced did before. */
  ghost predicate NobodySynced(rows: map<string, SyncRow>, after: map<string, SyncRow>) {
    forall slug :: NotSynced(rows, after, slug)
  }

  predicate NotSynced(rows: map<string, SyncRow>, after: map<string, SyncRow>, slug: string) {
    && RevisionOf(after, slug) == RevisionOf(rows, slug)
    && (slug in after && after[slug].state == Synced ==> RowOf(after, slug) == RowOf(rows, slug))
  }

  lemma OneIsBlocked(
    cfg: Config, dir: Directory, other: Directory, p: Progress, gate: Gate, now: int, force: bool, f: DirectoryFates)
    requires ValidSlug(dir.slug) && ValidSlug(other.slug) && dir.slug != other.slug
    requires ManifestNotePath(cfg.folder, cfg.machine, dir.slug) in Dirty(p.vault)
    ensures var (row, vault, _) := SyncOne(cfg, other, RowOf(p.rows, other.slug), p.vault, gate, now, force, f);
            && vault == p.vault && NobodySynced(p.rows, p.rows[other.slug := row])
            && row.state != Synced
    ensures NobodySynced(p.rows, p.rows[other.slug := Ready(RowOf(p.rows, other.slug), force)])
  {
    hide SyncDirectory, Dirty, ManifestNotePath, HasUnrelated;
    DirtyNoteBlocks(cfg, dir.slug, other, Ready(RowOf(p.rows, other.slug), force), p.vault, f);
  }

  lemma NobodyTwice(a: map<string, SyncRow>, b: map<string, SyncRow>, c: map<string, SyncRow>)
    requires NobodySynced(a, b) && NobodySynced(b, c)
    ensures NobodySynced(a, c)
  {
    forall slug
      ensures NotSynced(a, c, slug)
    {
      assert NotSynced(a, b, slug) && NotSynced(b, c, slug);
    }
  }

  lemma {:induction false} AllAreBlocked(
    cfg: Config, dir: Directory, dirs: seq<Directory>, p: Progress, gate: Gate, now: int, force: bool,
    fates: string -> DirectoryFates)
    requires ValidSlug(dir.slug) && ManifestNotePath(cfg.folder, cfg.machine, dir.slug) in Dirty(p.vault)
    requires forall d :: d in dirs ==> ValidSlug(d.slug) && d.slug != dir.slug
    ensures var q := SyncAll(cfg, dirs, p, gate, now, force, fates);
            q.vault == p.vault && NobodySynced(p.rows, q.rows)
    decreases |dirs|
  {
    hide SyncOne, Dirty, ManifestNotePath, NobodySynced;
    if dirs == [] {
      NobodyAtAll(p.rows);
    } else {
      var n := |dirs| - 1;
      assert dirs[n] in dirs;
      AllAreBlocked(cfg, dir, dirs[..n], p, gate, now, force, fates);
      var before := SyncAll(cfg, dirs[..n], p, gate, now, force, fates);
      OneIsBlocked(cfg, dir, dirs[n], before, gate, now, force, fates(dirs[n].slug));
      NobodyTwice(p.rows, before.rows, SyncAll(cfg, dirs, p, gate, now, force, fates).rows);
    }
  }

  lemma NobodyAtAll(rows: map<string, SyncRow>)
    ensures NobodySynced(rows, rows)
  {
  }

  lemma OthersAreCandidates(
    dir: Directory, dirs: seq<Directory>, rows: map<string, SyncRow>, now: int, force: bool)
    requires SeesOnly(dirs, dir) && IsSynced(dir, rows)
    ensures forall d :: d in OfKind(dirs, rows, now, force, Sync) ==> ValidSlug(d.slug) && d.slug != dir.slug
  {
    hide ValidSlug;
    assert EligibilityOf(dir, rows, now, force) == Unchanged;
  }

  lemma DiedIsBlocked(
    cfg: Config, dir: Directory, dirs: seq<Directory>, k: nat, rows: map<string, SyncRow>, v: Vault, gate: Gate,
    now: int, force: bool, fates: string -> DirectoryFates)
    requires Blocking(cfg, dir, rows, v) && SeesOnly(dirs, dir)
    ensures var (after, vault) := DiedPass(cfg, dirs, k, rows, v, gate, now, force, fates);
            vault == v && NobodySynced(rows, after) && RowOf(after, dir.slug) == RowOf(rows, dir.slug)
  {
    hide SyncAll, SyncOne, OfKind, Dirty, ManifestNotePath, NobodySynced, ValidSlug;
    var candidates := OfKind(dirs, rows, now, force, Sync);
    OthersAreCandidates(dir, dirs, rows, now, force);
    if k < |candidates| {
      var d, start := candidates[k], Progress(rows, v, 0, 0, 0);
      assert d in candidates && forall c :: c in candidates[..k] ==> c in candidates;
      AllAreBlocked(cfg, dir, candidates[..k], start, gate, now, force, fates);
      RowsOfOthersStay(cfg, candidates[..k], start, gate, now, force, fates, dir.slug);
      var p := SyncAll(cfg, candidates[..k], start, gate, now, force, fates);
      OneIsBlocked(cfg, dir, d, p, gate, now, force, fates(d.slug));
      NobodyTwice(rows, p.rows, p.rows[d.slug := Ready(RowOf(p.rows, d.slug), force)]);
    } else {
      NobodyAtAll(rows);
    }
  }

  lemma PassIsBlocked(
    cfg: Config, dir: Directory, dirs: seq<Directory>, rows: map<string, SyncRow>, v: Vault, gate: Gate, connects: bool,
    now: int, force: bool, fates: string -> DirectoryFates)
    requires Blocking(cfg, dir, rows, v) && SeesOnly(dirs, dir)
    ensures var (after, vault) := Next(cfg, rows, v, PassEvent(dirs, gate, connects, now, force, fates));
            vault == v && NobodySynced(rows, after) && RowOf(after, dir.slug) == RowOf(rows, dir.slug)
  {
    hide SyncAll, OfKind, Dirty, ManifestNotePath, NobodySynced, ValidSlug;
    var candidates, start := OfKind(dirs, rows, now, force, Sync), Progress(rows, v, 0, 0, 0);
    OthersAreCandidates(dir, dirs, rows, now, force);
    AllAreBlocked(cfg, dir, candidates, start, gate, now, force, fates);
    RowsOfOthersStay(cfg, candidates, start, gate, now, force, fates, dir.slug);
    NobodyAtAll(rows);
  }

  lemma NextIsBlocked(cfg: Config, dir: Directory, rows: map<string, SyncRow>, v: Vault, e: Event)
    requires Blocking(cfg, dir, rows, v) && LeavesBlocked(cfg, dir, e)
    ensures var (after, vault) := Next(cfg, rows, v, e);
            && Blocking(cfg, dir, after, vault) && NobodySynced(rows, after)
            && (!e.Others? ==> vault == v)
  {
    hide RunPass, DiedPass, ManifestNotePath, NobodySynced, SeesOnly, ValidSlug;
    match e
    case PassEvent(dirs, gate, connects, now, force, fates) =>
      PassIsBlocked(cfg, dir, dirs, rows, v, gate, connects, now, force, fates);
    case DiedEvent(dirs, k, gate, now, force, fates) =>
      DiedIsBlocked(cfg, dir, dirs, k, rows, v, gate, now, force, fates);
    case Others(files, head, commits) =>
      NobodyAtAll(rows);
      assert Dirty(Vault(files, head, commits + v.log)) == Dirty(Vault(files, head, []));
  }

  /** For good: as long as the synced directory's files stay as they are and nobody else cleans its note,
      over any run of passes, forced or not, whatever fails or dies, no directory is ever synced. */
  lemma {:induction false} BlockedForever(
    cfg: Config, dir: Directory, rows: map<string, SyncRow>, v: Vault, events: seq<Event>)
    requires Blocking(cfg, dir, rows, v) && forall e :: e in events ==> LeavesBlocked(cfg, dir, e)
    ensures var (after, vault) := Run(cfg, rows, v, events);
            Blocking(cfg, dir, after, vault) && NobodySynced(rows, after)
    decreases |events|
  {
    hide Blocking, LeavesBlocked, NobodySynced, Next;
    if events == [] {
      NobodyAtAll(rows);
    } else {
      assert events[0] in events && forall e :: e in events[1..] ==> e in events;
      NextIsBlocked(cfg, dir, rows, v, events[0]);
      var (rows1, v1) := Next(cfg, rows, v, events[0]);
      BlockedForever(cfg, dir, rows1, v1, events[1..]);
      NobodyTwice(rows, rows1, Run(cfg, rows1, v1, events[1..]).0);
    }
  }

  /** So a fresh mirror can get there in two passes, and from then on no directory of the vault is synced. */
  lemma StaleBlocksForever(
    cfg: Config, old_: Directory, new_: Directory, rows: map<string, SyncRow>, v: Vault, now: int, events: seq<Event>)
    requires old_.slug == new_.slug && ValidSlug(old_.slug) && Readable(old_) && Readable(new_) && old_.slug !in rows
    requires v.head == v.files && NotePath(cfg, old_) !in v.head
    requires ManifestNote(cfg, old_, 1) != ManifestNote(cfg, new_, 1)
    requires forall e :: e in events ==> LeavesBlocked(cfg, new_, e)
    ensures var (stale, vault) := Run(cfg, rows, v, StaleRun(old_, new_, now));
            && IsSynced(new_, stale) && !IsCommitted(cfg, new_, 1, vault)
            && NobodySynced(stale, Run(cfg, stale, vault, events).0)
  {
    hide Run, StaleRun, ManifestNote, LeavesBlocked, NobodySynced, Dirty, IsCommitted, Readable, ValidSlug, IsSynced;
    StaleIsReachable(cfg, old_, new_, rows, v, now);
    var (stale, vault) := Run(cfg, rows, v, StaleRun(old_, new_, now));
    SamePath(cfg, new_.slug, new_);
    BlockedForever(cfg, new_, stale, vault, events);
  }
}
