/** Memory synchronisation converges: the exact condition under which a fault-free pass syncs a
    directory, and what any run of failures and lost answers leaves of it. */
module MemorySyncConvergence {
  import opened Wrappers
  import opened Text
  import opened Vault
  import opened MemoryMirror
  import opened MemorySync
  import opened MemorySyncRuns
  import Delivery
  import DeliveryRuns

  // ----- one directory

  predicate AllWork(f: DirectoryFates) {
    f.status == Works && f.manifest == Works && f.commit == Works && f.find == Works
  }

  /** The directory can be read and nothing of it fails. */
  ghost predicate FaultFree(dir: Directory, f: DirectoryFates) {
    && AllWork(f)
    && forall i :: 0 <= i < |dir.sources| ==> dir.sources[i].content.Some? && f.write(i) == Works
  }

  /** The directory's files from the i-th on, as they are to lie in the vault. */
  function FileTree(cfg: Config, dir: Directory, i: nat): map<string, Content>
    requires i <= |dir.sources|
    decreases |dir.sources| - i
  {
    if i == |dir.sources| || dir.sources[i].content.None? then map[]
    else map[FilePath(cfg, dir, i) := Foreign(dir.sources[i].content.value)] + FileTree(cfg, dir, i + 1)
  }

  /** The whole mirror at a revision: the files and the manifest note. */
  function Tree(cfg: Config, dir: Directory, revision: nat): map<string, Content> {
    FileTree(cfg, dir, 0) + map[NotePath(cfg, dir) := Foreign(ManifestNote(cfg, dir, revision))]
  }

  function Mirrored(cfg: Config, dir: Directory, revision: nat, v: Vault): Vault {
    v.(files := v.files + Tree(cfg, dir, revision))
  }

  lemma {:induction false} MirroringWrites(cfg: Config, dir: Directory, i: nat, v: Vault, f: DirectoryFates)
    requires i <= |dir.sources| && FaultFree(dir, f)
    ensures MirrorFiles(cfg, dir, i, v, f.write) == (v.(files := v.files + FileTree(cfg, dir, i)), None)
    decreases |dir.sources| - i
  {
    hide FilePath;
    if i < |dir.sources| {
      var path, content := FilePath(cfg, dir, i), Foreign(dir.sources[i].content.value);
      MirroringWrites(cfg, dir, i + 1, Write(v, path, content), f);
      WriteThenTree(v.files, path, content, FileTree(cfg, dir, i + 1));
    } else {
      assert v.files + map[] == v.files;
    }
  }

  lemma WriteThenTree(files: map<string, Content>, path: string, content: Content, tree: map<string, Content>)
    ensures files[path := content] + tree == files + (map[path := content] + tree)
  {
  }

  /** The vault's last commit holds the mirror as it is to be. */
  predicate IsCommitted(cfg: Config, dir: Directory, revision: nat, v: Vault) {
    forall p :: p in Tree(cfg, dir, revision) ==> Lookup(v.head, p) == Some(Tree(cfg, dir, revision)[p])
  }

  /** Whether a fault-free sync can correlate what it wrote: something of the mirror is not committed
      yet, or the lookup still lists the revision's commit. */
  predicate CanCorrelate(cfg: Config, dir: Directory, revision: nat, v: Vault) {
    || !IsCommitted(cfg, dir, revision, v)
    || !(Dirty(v) <= Tree(cfg, dir, revision).Keys)
    || DeliveryRuns.Listed(v.log, MemoryMessage(cfg.machine, dir.slug, revision))
  }

  /** A clean tree after mirroring means that the mirror restates what was committed and nothing else
      was dirty. */
  lemma CleanAfterMirroring(v: Vault, tree: map<string, Content>)
    ensures Dirty(v.(files := v.files + tree)) == {} <==>
              (forall p :: p in tree ==> Lookup(v.head, p) == Some(tree[p])) && Dirty(v) <= tree.Keys
  {
    var after := v.(files := v.files + tree);
    forall p
      ensures p !in tree ==> (p in Dirty(after) <==> p in Dirty(v))
      ensures p in tree ==> (p in Dirty(after) <==> Lookup(v.head, p) != Some(tree[p]))
    {
    }
    if Dirty(after) != {} {
      var p :| p in Dirty(after);
    } else {
      forall p | p in Dirty(v)
        ensures p in tree
      {
        assert p !in Dirty(after);
      }
      forall p | p in tree
        ensures Lookup(v.head, p) == Some(tree[p])
      {
        assert p !in Dirty(after);
      }
    }
  }

  lemma CleanIsCommitted(v: Vault)
    requires Dirty(v) == {}
    ensures v.head == v.files
  {
    forall p
      ensures Lookup(v.head, p) == Lookup(v.files, p)
    {
      assert p !in Dirty(v);
    }
    assert forall p :: p in v.head <==> Lookup(v.head, p).Some?;
    assert forall p :: p in v.files <==> Lookup(v.files, p).Some?;
    assert forall p :: p in v.head ==> v.head[p] == v.files[p];
  }

  lemma CommittedIsClean(v: Vault)
    requires v.head == v.files
    ensures Dirty(v) == {}
  {
  }

  /** The log after a fault-free sync of a tree that nothing else made dirty. */
  function LogAfter(v: Vault, subject: string): seq<Commit> {
    if Dirty(v) == {} then v.log else [Commit(subject, |v.log|, Dirty(v))] + v.log
  }

  lemma CorrelationLeavesClean(v: Vault, subject: string, f: DirectoryFates)
    requires AllWork(f)
    ensures var (after, result) := Correlate(v, subject, f);
            && (result.Success? <==> Dirty(v) != {} || DeliveryRuns.Listed(v.log, subject))
            && after == Vault(v.files, v.files, LogAfter(v, subject))
  {
    DeliveryRuns.FaultFreeCorrelation(v, subject);
    if Dirty(v) == {} {
      CleanIsCommitted(v);
    }
    hide Dirty, FirstWithSubject, DeliveryRuns.Listed;
  }

  /** A fault-free sync succeeds if and only if nothing but the mirror's own is dirty and what it writes
      can be correlated. Unless it is refused it leaves the mirror as it is to be and the tree clean. */
  lemma SyncIff(cfg: Config, dir: Directory, row: SyncRow, v: Vault, f: DirectoryFates)
    requires FaultFree(dir, f)
    ensures var (after, result) := SyncDirectory(cfg, dir, row, v, f);
            && (result.Success? <==> !HasUnrelated(cfg, dir, v) && CanCorrelate(cfg, dir, row.revision + 1, v))
            && (HasUnrelated(cfg, dir, v) ==> after == v)
            && (!HasUnrelated(cfg, dir, v) ==>
                  && after.files == v.files + Tree(cfg, dir, row.revision + 1) && after.head == after.files
                  && after.log == LogAfter(Mirrored(cfg, dir, row.revision + 1, v),
                                           MemoryMessage(cfg.machine, dir.slug, row.revision + 1)))
  {
    hide MirrorFiles, FileTree, ManifestNote, NotePath, MemoryMessage, Dirty, IsOwnDirty, HasUnrelated, LogAfter;
    hide DeliveryRuns.Listed, Correlate;
    var revision := row.revision + 1;
    MirroringWrites(cfg, dir, 0, v, f);
    CleanAfterMirroring(v, Tree(cfg, dir, revision));
    var path, note := NotePath(cfg, dir), Foreign(ManifestNote(cfg, dir, revision));
    assert (v.files + FileTree(cfg, dir, 0))[path := note] == v.files + Tree(cfg, dir, revision);
    CorrelationLeavesClean(Mirrored(cfg, dir, revision, v), MemoryMessage(cfg.machine, dir.slug, revision), f);
    hide FaultFree;
  }

  // ----- one pass

  predicate EachOnce(dirs: seq<Directory>) {
    forall i, j :: 0 <= i < j < |dirs| ==> dirs[i].slug != dirs[j].slug
  }

  lemma {:induction false} CandidatesOnce(dirs: seq<Directory>, rows: map<string, SyncRow>, now: int, force: bool, kind: Eligibility)
    requires EachOnce(dirs)
    ensures EachOnce(OfKind(dirs, rows, now, force, kind))
  {
    hide EligibilityOf;
    if dirs != [] {
      var tail := OfKind(dirs[1..], rows, now, force, kind);
      assert EachOnce(dirs[1..]);
      CandidatesOnce(dirs[1..], rows, now, force, kind);
      forall d | d in tail
        ensures d.slug != dirs[0].slug
      {
        assert d in dirs[1..];
        var i :| 0 <= i < |dirs[1..]| && dirs[1..][i] == d;
        assert dirs[i + 1] == d;
      }
    }
  }

  lemma OnceIsDistinct(dirs: seq<Directory>)
    requires EachOnce(dirs)
    ensures DistinctSlugs(dirs)
  {
    forall c, d | c in dirs && d in dirs && c.slug == d.slug
      ensures c == d
    {
      var i :| 0 <= i < |dirs| && dirs[i] == c;
      var j :| 0 <= j < |dirs| && dirs[j] == d;
      assert i == j;
    }
  }

  function RevisionOf(rows: map<string, SyncRow>, slug: string): nat {
    if slug in rows then rows[slug].revision else 0
  }

  /** What a candidate needs at its turn. */
  predicate CanSync(cfg: Config, dir: Directory, p: Progress) {
    !HasUnrelated(cfg, dir, p.vault) && CanCorrelate(cfg, dir, RevisionOf(p.rows, dir.slug) + 1, p.vault)
  }

  /** How things stand at the i-th candidate's turn in a fault-free pass. */
  function Turn(
    cfg: Config, dirs: seq<Directory>, i: nat, p: Progress, now: int, force: bool, fates: string -> DirectoryFates)
    : Progress
    requires i <= |dirs|
  {
    SyncAll(cfg, dirs[..i], p, Available, now, force, fates)
  }

  lemma OneIff(cfg: Config, dir: Directory, p: Progress, now: int, force: bool, f: DirectoryFates)
    requires FaultFree(dir, f)
    ensures var (row, after, _) := SyncOne(cfg, dir, RowOf(p.rows, dir.slug), p.vault, Available, now, force, f);
            && (row.state == Synced && row.manifestHash == Some(dir.manifestHash) <==> CanSync(cfg, dir, p))
            && (!HasUnrelated(cfg, dir, p.vault) ==> after.head == after.files)
  {
    hide SyncDirectory, FaultFree, HasUnrelated, CanCorrelate, Tree, LogAfter, MemoryMessage, Mirrored;
    var row := RowOf(p.rows, dir.slug);
    var ensured := if row.Some? then row.value else NEW_ROW;
    SyncIff(cfg, dir, if force then ForceRetry(ensured) else ensured, p.vault, f);
  }

  ghost predicate AllFaultFree(dirs: seq<Directory>, fates: string -> DirectoryFates) {
    forall d :: d in dirs ==> FaultFree(d, fates(d.slug))
  }

  lemma TurnStep(
    cfg: Config, dirs: seq<Directory>, i: nat, p: Progress, now: int, force: bool, fates: string -> DirectoryFates)
    requires i < |dirs|
    ensures var q := Turn(cfg, dirs, i, p, now, force, fates);
            var (row, vault, verdict) :=
              SyncOne(cfg, dirs[i], RowOf(q.rows, dirs[i].slug), q.vault, Available, now, force, fates(dirs[i].slug));
            Turn(cfg, dirs, i + 1, p, now, force, fates) == Advance(q, dirs[i].slug, row, vault, verdict)
  {
    hide SyncOne;
    assert dirs[..i + 1][..i] == dirs[..i] && dirs[..i + 1][i] == dirs[i];
  }

  /** A fault-free pass syncs exactly the candidates that can be synced at their turn. */
  lemma {:induction false} PassSyncsIff(
    cfg: Config, dirs: seq<Directory>, n: nat, i: nat, p: Progress, now: int, force: bool, fates: string -> DirectoryFates)
    requires i < n <= |dirs| && EachOnce(dirs) && AllFaultFree(dirs, fates)
    ensures IsSynced(dirs[i], Turn(cfg, dirs, n, p, now, force, fates).rows) <==>
              CanSync(cfg, dirs[i], Turn(cfg, dirs, i, p, now, force, fates))
    decreases n
  {
    hide SyncOne, CanSync, FaultFree, Turn;
    TurnStep(cfg, dirs, n - 1, p, now, force, fates);
    assert dirs[n - 1] in dirs;
    var q := Turn(cfg, dirs, n - 1, p, now, force, fates);
    OneIff(cfg, dirs[n - 1], q, now, force, fates(dirs[n - 1].slug));
    if i < n - 1 {
      PassSyncsIff(cfg, dirs, n - 1, i, p, now, force, fates);
    }
  }

  /** Once one candidate was not refused, the tree is clean at every later turn. */
  lemma {:induction false} CleanFromThenOn(
    cfg: Config, dirs: seq<Directory>, i: nat, p: Progress, now: int, force: bool, fates: string -> DirectoryFates)
    requires 0 < i <= |dirs| && AllFaultFree(dirs, fates) && !HasUnrelated(cfg, dirs[0], p.vault)
    ensures Dirty(Turn(cfg, dirs, i, p, now, force, fates).vault) == {}
    decreases i
  {
    hide SyncOne, FaultFree, Dirty, CanSync;
    TurnStep(cfg, dirs, i - 1, p, now, force, fates);
    var q := Turn(cfg, dirs, i - 1, p, now, force, fates);
    if i > 1 {
      CleanFromThenOn(cfg, dirs, i - 1, p, now, force, fates);
      NothingUnrelated(cfg, dirs[i - 1], q.vault);
    } else {
      assert dirs[..0] == [];
    }
    assert dirs[i - 1] in dirs;
    OneIff(cfg, dirs[i - 1], q, now, force, fates(dirs[i - 1].slug));
    CommittedIsClean(Turn(cfg, dirs, i, p, now, force, fates).vault);
  }

  lemma NothingUnrelated(cfg: Config, dir: Directory, v: Vault)
    requires Dirty(v) == {}
    ensures !HasUnrelated(cfg, dir, v)
  {
  }

  // ----- whose commit a committed note is

  predicate HasSubject(log: seq<Commit>, subject: string) {
    exists c :: c in log && c.subject == subject
  }

  /** A manifest note beyond the recorded revision is only committed together with its message. */
  ghost predicate NotesHold(cfg: Config, rows: map<string, SyncRow>, v: Vault) {
    forall d: Directory, k: nat :: NoteHolds(cfg, rows, v, d, k)
  }

  ghost predicate NoteHolds(cfg: Config, rows: map<string, SyncRow>, v: Vault, d: Directory, k: nat) {
    ValidSlug(d.slug) && k > RevisionOf(rows, d.slug)
    && Lookup(v.head, NotePath(cfg, d)) == Some(Foreign(ManifestNote(cfg, d, k)))
    ==> HasSubject(v.log, MemoryMessage(cfg.machine, d.slug, k))
  }

  lemma NumberOfLine(head: string, k: nat, a: string, k': nat, b: string)
    requires head + (Decimal(k) + "\n" + a) == head + (Decimal(k') + "\n" + b)
    ensures k == k'
  {
    var m, n := Decimal(k), Decimal(k');
    assert '\n' !in m && '\n' !in n;
    hide Decimal;
    assert (head + (m + "\n" + a))[|head|..] == m + "\n" + a;
    assert (head + (n + "\n" + b))[|head|..] == n + "\n" + b;
    SplitOnceAtFresh(m, "\n", a);
    SplitOnceAtFresh(n, "\n", b);
    DecimalInjective(k, k');
  }

  function NoteHead(cfg: Config, slug: string): string {
    "munshi_machine: " + cfg.machine + "\nmunshi_memory_slug: " + slug + "\nmunshi_revision: "
  }

  function NoteTail(d: Directory): string {
    "munshi_manifest_sha256: " + d.manifestHash + "\n" + TableRows(d.sources)
  }

  lemma NoteParts(cfg: Config, d: Directory, k: nat)
    ensures ManifestNote(cfg, d, k) == NoteHead(cfg, d.slug) + (Decimal(k) + "\n" + NoteTail(d))
  {
    hide TableRows, Decimal;
  }

  /** A directory's manifest notes tell their revision. */
  lemma ManifestSaysRevision(cfg: Config, d: Directory, k: nat, d': Directory, k': nat)
    requires d.slug == d'.slug && ManifestNote(cfg, d, k) == ManifestNote(cfg, d', k')
    ensures k == k'
  {
    hide ManifestNote, NoteHead, NoteTail, Decimal;
    NoteParts(cfg, d, k);
    NoteParts(cfg, d', k');
    NumberOfLine(NoteHead(cfg, d.slug), k, NoteTail(d), k', NoteTail(d'));
  }

  lemma {:induction false} TrimmedRoot(root: string, a: string, b: string)
    requires ValidSlug(a) && ValidSlug(b)
    requires Delivery.TrimSlashesStart(root + a) == Delivery.TrimSlashesStart(root + b)
    ensures a == b
    decreases |root|
  {
    if root == [] {
      assert root + a == a && root + b == b && a[0] in a && b[0] in b;
    } else if root[0] == '/' {
      assert (root + a)[1..] == root[1..] + a && (root + b)[1..] == root[1..] + b;
      TrimmedRoot(root[1..], a, b);
    } else {
      assert (root + a)[|root|..] == a && (root + b)[|root|..] == b;
    }
  }

  /** No directory's preflight takes another's manifest note for its own. */
  lemma NoteIsNotOthers(cfg: Config, slug: string, other: string)
    requires ValidSlug(slug) && ValidSlug(other) && slug != other
    ensures !IsOwnDirty(cfg.folder, cfg.machine, other, ManifestNotePath(cfg.folder, cfg.machine, slug))
  {
    var root :=
      if cfg.folder.Some? && cfg.folder.value != "" then cfg.folder.value + "/" + cfg.machine + "/" else cfg.machine + "/";
    var a, b := slug + ".manifest.md", other + ".manifest.md";
    assert a[..|slug|] == slug && b[..|other|] == other;
    assert a != b;
    var path := ManifestNotePath(cfg.folder, cfg.machine, slug);
    assert path == root + a && ManifestNotePath(cfg.folder, cfg.machine, other) == root + b;
    if Delivery.TrimSlashesStart(root + a) == Delivery.TrimSlashesStart(root + b) {
      TrimmedRoot(root, a, b);
    }
    var prefix := root + other + "/";
    TrimmedStaysTrimmed(path);
    assert prefix[|root| + |other|] == '/' && prefix[0] == root[0] == path[0];
    assert forall i :: |root| <= i < |path| ==> path[i] == a[i - |root|];
    assert '/' !in a;
  }

  lemma CorrelationHead(v: Vault, subject: string, f: DirectoryFates)
    ensures var after := Correlate(v, subject, f).0;
            && after.files == v.files
            && (after.head == v.head || (after.head == after.files && HasSubject(after.log, subject)))
  {
    var committed := CommitTree(v, subject);
    assert committed == v || committed.log[0] in committed.log;
    hide Dirty, FirstWithSubject;
  }

  /** What syncing a directory can do to the committed tree, whatever fails: nothing, or commit its own
      next note under its message. */
  lemma SyncCommits(cfg: Config, dir: Directory, row: SyncRow, v: Vault, f: DirectoryFates)
    ensures var after := SyncDirectory(cfg, dir, row, v, f).0;
            || after.head == v.head
            || (&& !HasUnrelated(cfg, dir, v) && after.head == after.files
                && Lookup(after.files, NotePath(cfg, dir)) == Some(Foreign(ManifestNote(cfg, dir, row.revision + 1)))
                && HasSubject(after.log, MemoryMessage(cfg.machine, dir.slug, row.revision + 1)))
  {
    hide HasUnrelated, MirrorFiles, ManifestNote, NotePath, MemoryMessage, Correlate, HasSubject;
    MirroringStaysOwn(cfg, dir, 0, v, f.write);
    var v1 := MirrorFiles(cfg, dir, 0, v, f.write).0;
    var v2 := PutDocument(v1, NotePath(cfg, dir), ManifestNote(cfg, dir, row.revision + 1), f.manifest).0;
    CorrelationHead(v2, MemoryMessage(cfg.machine, dir.slug, row.revision + 1), f);
    hide SameOutside;
  }

  /** Syncing one directory leaves every other directory's committed note alone. */
  lemma OthersNoteStays(cfg: Config, dir: Directory, row: SyncRow, v: Vault, f: DirectoryFates, slug: string)
    requires ValidSlug(dir.slug) && ValidSlug(slug) && slug != dir.slug
    ensures var path := ManifestNotePath(cfg.folder, cfg.machine, slug);
            Lookup(SyncDirectory(cfg, dir, row, v, f).0.head, path) == Lookup(v.head, path)
  {
    hide SyncDirectory, IsOwnPath, CommitsOnly, OwnUpToSlashes, ManifestNote, MemoryMessage, IsOwnDirty, HasSubject;
    var path := ManifestNotePath(cfg.folder, cfg.machine, slug);
    SyncCommits(cfg, dir, row, v, f);
    SyncIsIsolated(cfg, dir, row, v, f);
    NoteIsNotOthers(cfg, slug, dir.slug);
    assert IsOwnPath(cfg, slug, path) by { NoteIsOwn(cfg, slug); }
    MirrorsAreApart(cfg, slug, cfg.machine, dir.slug, path);
    if !HasUnrelated(cfg, dir, v) {
      assert path !in Dirty(v);
      LookupOfClean(v, path);
    }
    hide HasUnrelated, ManifestNotePath;
  }

  lemma NoteIsOwn(cfg: Config, slug: string)
    ensures IsOwnPath(cfg, slug, ManifestNotePath(cfg.folder, cfg.machine, slug))
  {
  }

  lemma LookupOfClean(v: Vault, path: string)
    requires path !in Dirty(v)
    ensures Lookup(v.files, path) == Lookup(v.head, path)
  {
  }

  lemma SubjectLasts(before: seq<Commit>, after: seq<Commit>, subject: string)
    requires HasSubject(before, subject) && forall c :: c in before ==> c in after
    ensures HasSubject(after, subject)
  {
    var c :| c in before && c.subject == subject;
    assert c in after;
  }

  lemma NoteStillHolds(
    cfg: Config, rows: map<string, SyncRow>, v: Vault, rows': map<string, SyncRow>, after: Vault, d: Directory, k: nat)
    requires NotesHold(cfg, rows, v) && RevisionOf(rows', d.slug) >= RevisionOf(rows, d.slug)
    requires Lookup(after.head, NotePath(cfg, d)) == Lookup(v.head, NotePath(cfg, d))
    requires forall c :: c in v.log ==> c in after.log
    ensures NoteHolds(cfg, rows', after, d, k)
  {
    hide MemoryMessage, ManifestNote, NotePath, HasSubject;
    assert NoteHolds(cfg, rows, v, d, k);
    if HasSubject(v.log, MemoryMessage(cfg.machine, d.slug, k)) {
      SubjectLasts(v.log, after.log, MemoryMessage(cfg.machine, d.slug, k));
    }
  }

  /** One directory's sync, whatever fails, keeps the committed notes accounted for. */
  lemma SyncKeepsNotes(
    cfg: Config, dir: Directory, row: SyncRow, rows: map<string, SyncRow>, rows': map<string, SyncRow>, v: Vault,
    f: DirectoryFates)
    requires NotesHold(cfg, rows, v) && ValidSlug(dir.slug) && row.revision == RevisionOf(rows, dir.slug)
    requires forall slug :: RevisionOf(rows', slug) >= RevisionOf(rows, slug)
    ensures NotesHold(cfg, rows', SyncDirectory(cfg, dir, row, v, f).0)
  {
    hide SyncDirectory, NotesHold, ManifestNote, MemoryMessage, HasSubject, HasUnrelated, NotePath, RevisionOf;
    hide IsOwnPath, CommitsOnly, OwnUpToSlashes;
    var after := SyncDirectory(cfg, dir, row, v, f).0;
    SyncCommits(cfg, dir, row, v, f);
    SyncIsIsolated(cfg, dir, row, v, f);
    forall d: Directory, k: nat
      ensures NoteHolds(cfg, rows', after, d, k)
    {
      if ValidSlug(d.slug) && d.slug != dir.slug {
        OthersNoteStays(cfg, dir, row, v, f, d.slug);
        SamePath(cfg, d.slug, d);
        NoteStillHolds(cfg, rows, v, rows', after, d, k);
      } else if d.slug == dir.slug && after.head == v.head {
        NoteStillHolds(cfg, rows, v, rows', after, d, k);
      } else if d.slug == dir.slug {
        SamePath(cfg, d.slug, d);
        SamePath(cfg, d.slug, dir);
        if ManifestNote(cfg, d, k) == ManifestNote(cfg, dir, row.revision + 1) {
          ManifestSaysRevision(cfg, d, k, dir, row.revision + 1);
        }
      }
    }
    AllNotesHold(cfg, rows', after);
  }

  lemma SamePath(cfg: Config, slug: string, d: Directory)
    requires d.slug == slug
    ensures NotePath(cfg, d) == ManifestNotePath(cfg.folder, cfg.machine, slug)
  {
  }

  lemma AllNotesHold(cfg: Config, rows: map<string, SyncRow>, v: Vault)
    requires forall d: Directory, k: nat :: NoteHolds(cfg, rows, v, d, k)
    ensures NotesHold(cfg, rows, v)
  {
  }

  lemma OneKeepsNotes(
    cfg: Config, dir: Directory, p: Progress, gate: Gate, now: int, force: bool, f: DirectoryFates)
    requires NotesHold(cfg, p.rows, p.vault) && ValidSlug(dir.slug)
    ensures var (row, after, verdict) := SyncOne(cfg, dir, RowOf(p.rows, dir.slug), p.vault, gate, now, force, f);
            NotesHold(cfg, p.rows[dir.slug := row], after)
  {
    hide SyncDirectory, NotesHold;
    var row := RowOf(p.rows, dir.slug);
    var ensured := if row.Some? then row.value else NEW_ROW;
    var ready := if force then ForceRetry(ensured) else ensured;
    var (after, vault, _) := SyncOne(cfg, dir, row, p.vault, gate, now, force, f);
    var rows := p.rows[dir.slug := after];
    assert after.revision >= ready.revision == RevisionOf(p.rows, dir.slug);
    assert forall slug :: RevisionOf(rows, slug) >= RevisionOf(p.rows, slug);
    SyncKeepsNotes(cfg, dir, ready, p.rows, rows, p.vault, f);
    if gate.Closed? {
      RowsKeepNotes(cfg, p.rows, rows, p.vault);
    }
  }

  lemma RowsKeepNotes(cfg: Config, rows: map<string, SyncRow>, rows': map<string, SyncRow>, v: Vault)
    requires NotesHold(cfg, rows, v) && forall slug :: RevisionOf(rows', slug) >= RevisionOf(rows, slug)
    ensures NotesHold(cfg, rows', v)
  {
    hide NotesHold, RevisionOf;
    forall d: Directory, k: nat
      ensures NoteHolds(cfg, rows', v, d, k)
    {
      assert RevisionOf(rows', d.slug) >= RevisionOf(rows, d.slug);
      NoteStillHolds(cfg, rows, v, rows', v, d, k);
    }
    AllNotesHold(cfg, rows', v);
  }

  lemma {:induction false} SyncAllKeepsNotes(
    cfg: Config, dirs: seq<Directory>, p: Progress, gate: Gate, now: int, force: bool, fates: string -> DirectoryFates)
    requires NotesHold(cfg, p.rows, p.vault) && forall d :: d in dirs ==> ValidSlug(d.slug)
    ensures var q := SyncAll(cfg, dirs, p, gate, now, force, fates);
            NotesHold(cfg, q.rows, q.vault)
    decreases |dirs|
  {
    hide NotesHold, SyncOne;
    if dirs != [] {
      var d := dirs[|dirs| - 1];
      assert d in dirs;
      SyncAllKeepsNotes(cfg, dirs[..|dirs| - 1], p, gate, now, force, fates);
      OneKeepsNotes(cfg, d, SyncAll(cfg, dirs[..|dirs| - 1], p, gate, now, force, fates), gate, now, force, fates(d.slug));
    }
  }

  /** Passes over any directories and with any fates, whether they finish or die; other writers leave the committed manifest notes
      alone. */
  ghost predicate PoliteRun(cfg: Config, rows: map<string, SyncRow>, v: Vault, events: seq<Event>)
    decreases |events|
  {
    events == []
    || (&& PoliteEvent(cfg, v, events[0])
        && var (rows1, v1) := Next(cfg, rows, v, events[0]);
           PoliteRun(cfg, rows1, v1, events[1..]))
  }

  ghost predicate PoliteEvent(cfg: Config, v: Vault, e: Event) {
    match e
    case PassEvent(dirs, _, _, _, _, _) => forall d :: d in dirs ==> ValidSlug(d.slug)
    case DiedEvent(dirs, _, _, _, _, _) => forall d :: d in dirs ==> ValidSlug(d.slug)
    case Others(_, head, _) =>
      forall slug :: var path := ManifestNotePath(cfg.folder, cfg.machine, slug); Lookup(head, path) == Lookup(v.head, path)
  }

  lemma DiedKeepsNotes(
    cfg: Config, dirs: seq<Directory>, k: nat, rows: map<string, SyncRow>, v: Vault, gate: Gate,
    now: int, force: bool, fates: string -> DirectoryFates)
    requires NotesHold(cfg, rows, v) && forall d :: d in dirs ==> ValidSlug(d.slug)
    ensures var (after, vault) := DiedPass(cfg, dirs, k, rows, v, gate, now, force, fates);
            NotesHold(cfg, after, vault)
  {
    hide NotesHold, SyncAll, SyncDirectory, OfKind;
    var candidates := OfKind(dirs, rows, now, force, Sync);
    if k < |candidates| {
      var d := candidates[k];
      assert d in candidates && d in dirs;
      var p := SyncAll(cfg, candidates[..k], Progress(rows, v, 0, 0, 0), gate, now, force, fates);
      forall c | c in candidates[..k]
        ensures ValidSlug(c.slug)
      {
        assert c in candidates && c in dirs;
      }
      SyncAllKeepsNotes(cfg, candidates[..k], Progress(rows, v, 0, 0, 0), gate, now, force, fates);
      var ready := Ready(RowOf(p.rows, d.slug), force);
      var after := p.rows[d.slug := ready];
      assert forall slug :: RevisionOf(after, slug) == RevisionOf(p.rows, slug);
      SyncKeepsNotes(cfg, d, ready, p.rows, after, p.vault, fates(d.slug));
      if gate.Closed? {
        RowsKeepNotes(cfg, p.rows, after, p.vault);
      }
    }
  }

  lemma NextKeepsNotes(cfg: Config, rows: map<string, SyncRow>, v: Vault, e: Event)
    requires NotesHold(cfg, rows, v) && PoliteEvent(cfg, v, e)
    ensures var (rows1, v1) := Next(cfg, rows, v, e);
            NotesHold(cfg, rows1, v1)
  {
    hide NotesHold, SyncAll, OfKind, ManifestNote, DiedPass;
    match e
    case PassEvent(dirs, gate, connects, now, force, fates) =>
      var candidates := OfKind(dirs, rows, now, force, Sync);
      assert forall d :: d in candidates ==> d in dirs;
      SyncAllKeepsNotes(cfg, candidates, Progress(rows, v, 0, 0, 0), gate, now, force, fates);
    case DiedEvent(dirs, k, gate, now, force, fates) =>
      DiedKeepsNotes(cfg, dirs, k, rows, v, gate, now, force, fates);
    case Others(files, head, commits) =>
      var after := Vault(files, head, commits + v.log);
      forall d: Directory, k: nat
        ensures NoteHolds(cfg, rows, after, d, k)
      {
        SamePath(cfg, d.slug, d);
        NoteStillHolds(cfg, rows, v, rows, after, d, k);
      }
      AllNotesHold(cfg, rows, after);
  }

  /** Over any run, whatever fails or loses its answer, a note that is committed beyond its row's revision
      was committed under its own message. */
  lemma {:induction false} RunsKeepNotes(cfg: Config, rows: map<string, SyncRow>, v: Vault, events: seq<Event>)
    requires NotesHold(cfg, rows, v) && PoliteRun(cfg, rows, v, events)
    ensures var (after, vault) := Run(cfg, rows, v, events);
            NotesHold(cfg, after, vault)
    decreases |events|
  {
    hide NotesHold, Next, PoliteEvent;
    if events != [] {
      NextKeepsNotes(cfg, rows, v, events[0]);
      var (rows1, v1) := Next(cfg, rows, v, events[0]);
      RunsKeepNotes(cfg, rows1, v1, events[1..]);
    }
  }

  // ----- a commit within the lookup's reach

  /** The log is the old one behind at most n new commits. */
  predicate GrewBy(before: seq<Commit>, after: seq<Commit>, n: nat) {
    |before| <= |after| <= |before| + n && after[|after| - |before|..] == before
  }

  /** If the log holds the subject at all, the lookup lists it even behind `room` more commits. */
  predicate WithinReach(log: seq<Commit>, subject: string, room: nat) {
    HasSubject(log, subject) ==> exists j :: 0 <= j < |log| && j + room < LOG_LIMIT && log[j].subject == subject
  }

  lemma StillListed(before: seq<Commit>, after: seq<Commit>, subject: string, room: nat)
    requires GrewBy(before, after, room) && HasSubject(before, subject) && WithinReach(before, subject, room)
    ensures DeliveryRuns.Listed(after, subject)
  {
    var j :| 0 <= j < |before| && j + room < LOG_LIMIT && before[j].subject == subject;
    var i := j + |after| - |before|;
    assert after[|after| - |before|..][j] == after[i];
    assert Newest(after)[i] == after[i] && Newest(after)[i] in Newest(after);
  }

  lemma {:induction false} TurnLog(
    cfg: Config, dirs: seq<Directory>, i: nat, p: Progress, now: int, force: bool, fates: string -> DirectoryFates)
    requires i <= |dirs|
    ensures GrewBy(p.vault.log, Turn(cfg, dirs, i, p, now, force, fates).vault.log, i)
    decreases i
  {
    hide SyncOne;
    if i == 0 {
      assert dirs[..0] == [];
    } else {
      hide Turn;
      TurnLog(cfg, dirs, i - 1, p, now, force, fates);
      TurnStep(cfg, dirs, i - 1, p, now, force, fates);
      var q := Turn(cfg, dirs, i - 1, p, now, force, fates);
      OneCommits(cfg, dirs[i - 1], RowOf(q.rows, dirs[i - 1].slug), q.vault, now, force, fates(dirs[i - 1].slug));
    }
  }

  lemma OneCommits(
    cfg: Config, dir: Directory, row: Option<SyncRow>, v: Vault, now: int, force: bool, f: DirectoryFates)
    ensures GrewBy(v.log, SyncOne(cfg, dir, row, v, Available, now, force, f).1.log, 1)
  {
    hide SyncDirectory, IsOwnPath, OwnUpToSlashes, MemoryMessage;
    var ensured := if row.Some? then row.value else NEW_ROW;
    SyncIsIsolated(cfg, dir, if force then ForceRetry(ensured) else ensured, v, f);
    hide HasUnrelated, SameOutside;
  }

  lemma {:induction false} TurnNote(
    cfg: Config, dirs: seq<Directory>, i: nat, p: Progress, now: int, force: bool, fates: string -> DirectoryFates,
    slug: string)
    requires i <= |dirs| && ValidSlug(slug) && forall d :: d in dirs ==> ValidSlug(d.slug)
    requires forall j :: 0 <= j < i ==> dirs[j].slug != slug
    ensures var path, q := ManifestNotePath(cfg.folder, cfg.machine, slug), Turn(cfg, dirs, i, p, now, force, fates);
            Lookup(q.vault.head, path) == Lookup(p.vault.head, path) && RowOf(q.rows, slug) == RowOf(p.rows, slug)
    decreases i
  {
    if i == 0 {
      assert dirs[..0] == [];
    } else {
      TurnNote(cfg, dirs, i - 1, p, now, force, fates, slug);
      TurnStep(cfg, dirs, i - 1, p, now, force, fates);
      var d := dirs[i - 1];
      assert d in dirs;
      var q := Turn(cfg, dirs, i - 1, p, now, force, fates);
      hide Turn, SyncDirectory, ManifestNotePath;
      var row := RowOf(q.rows, d.slug);
      var ensured := if row.Some? then row.value else NEW_ROW;
      OthersNoteStays(cfg, d, if force then ForceRetry(ensured) else ensured, q.vault, fates(d.slug), slug);
    }
  }

  // ----- the whole pass

  /** Nothing stands in the way of the candidates: what is dirty is the first one's own, and of no
      candidate the next revision's commit has sunk below what the lookup lists. */
  predicate NothingInTheWay(cfg: Config, candidates: seq<Directory>, rows: map<string, SyncRow>, v: Vault) {
    && (candidates != [] ==> !HasUnrelated(cfg, candidates[0], v))
    && forall d :: d in candidates ==>
         WithinReach(v.log, MemoryMessage(cfg.machine, d.slug, RevisionOf(rows, d.slug) + 1), |candidates|)
  }

  lemma NoteInTree(cfg: Config, d: Directory, k: nat, v: Vault)
    requires IsCommitted(cfg, d, k, v)
    ensures Lookup(v.head, NotePath(cfg, d)) == Some(Foreign(ManifestNote(cfg, d, k)))
  {
    hide FileTree, ManifestNote, NotePath;
    assert NotePath(cfg, d) in Tree(cfg, d, k);
  }

  lemma EveryTurnSyncs(
    cfg: Config, dirs: seq<Directory>, i: nat, p: Progress, now: int, force: bool, fates: string -> DirectoryFates)
    requires i < |dirs| && EachOnce(dirs) && AllFaultFree(dirs, fates) && forall d :: d in dirs ==> ValidSlug(d.slug)
    requires NotesHold(cfg, p.rows, p.vault) && NothingInTheWay(cfg, dirs, p.rows, p.vault)
    ensures CanSync(cfg, dirs[i], Turn(cfg, dirs, i, p, now, force, fates))
  {
    hide FaultFree, IsCommitted, HasUnrelated, NotesHold, ManifestNote, MemoryMessage, GrewBy, WithinReach, Tree, HasSubject;
    hide EachOnce, Dirty, DeliveryRuns.Listed, Turn, NotePath, ManifestNotePath;
    var d, q := dirs[i], Turn(cfg, dirs, i, p, now, force, fates);
    assert d in dirs;
    SlugsBefore(dirs, i);
    if i == 0 {
      FirstTurn(cfg, dirs, p, now, force, fates);
    } else {
      CleanFromThenOn(cfg, dirs, i, p, now, force, fates);
      NothingUnrelated(cfg, d, q.vault);
    }
    TurnLog(cfg, dirs, i, p, now, force, fates);
    TurnNote(cfg, dirs, i, p, now, force, fates, d.slug);
    var k := RevisionOf(p.rows, d.slug) + 1;
    var subject := MemoryMessage(cfg.machine, d.slug, k);
    if IsCommitted(cfg, d, k, q.vault) {
      NoteInTree(cfg, d, k, q.vault);
      SamePath(cfg, d.slug, d);
      NoteHasSubject(cfg, p.rows, p.vault, d, k);
      MoreRoom(p.vault.log, q.vault.log, i, |dirs|);
      StillListed(p.vault.log, q.vault.log, subject, |dirs|);
    }
  }

  lemma SlugsBefore(dirs: seq<Directory>, i: nat)
    requires EachOnce(dirs) && i < |dirs|
    ensures forall j :: 0 <= j < i ==> dirs[j].slug != dirs[i].slug
  {
  }

  lemma FirstTurn(
    cfg: Config, dirs: seq<Directory>, p: Progress, now: int, force: bool, fates: string -> DirectoryFates)
    ensures Turn(cfg, dirs, 0, p, now, force, fates) == p
  {
    assert dirs[..0] == [];
  }

  lemma MoreRoom(before: seq<Commit>, after: seq<Commit>, m: nat, n: nat)
    requires GrewBy(before, after, m) && m <= n
    ensures GrewBy(before, after, n)
  {
  }

  lemma NoteHasSubject(cfg: Config, rows: map<string, SyncRow>, v: Vault, d: Directory, k: nat)
    requires NotesHold(cfg, rows, v) && ValidSlug(d.slug) && k > RevisionOf(rows, d.slug)
    requires Lookup(v.head, NotePath(cfg, d)) == Some(Foreign(ManifestNote(cfg, d, k)))
    ensures HasSubject(v.log, MemoryMessage(cfg.machine, d.slug, k))
  {
    hide ManifestNote, MemoryMessage, HasSubject, NotePath;
    assert NoteHolds(cfg, rows, v, d, k);
  }

  /** A fault-free pass syncs exactly the directories it finds to do that can be synced at their turn. */
  lemma FaultFreePassIff(
    cfg: Config, dirs: seq<Directory>, rows: map<string, SyncRow>, v: Vault, now: int, force: bool,
    fates: string -> DirectoryFates)
    requires EachOnce(dirs) && AllFaultFree(OfKind(dirs, rows, now, force, Sync), fates)
    ensures var candidates := OfKind(dirs, rows, now, force, Sync);
            var pass := RunPass(cfg, dirs, rows, v, Available, true, now, force, fates);
            && pass.Some?
            && forall i :: 0 <= i < |candidates| ==>
                 (IsSynced(candidates[i], pass.value.rows) <==>
                    CanSync(cfg, candidates[i], Turn(cfg, candidates, i, Progress(rows, v, 0, 0, 0), now, force, fates)))
  {
    hide OfKind, SyncAll, IsSynced, CanSync, FaultFree;
    var candidates, p := OfKind(dirs, rows, now, force, Sync), Progress(rows, v, 0, 0, 0);
    CandidatesOnce(dirs, rows, now, force, Sync);
    assert candidates[..|candidates|] == candidates;
    forall i | 0 <= i < |candidates|
      ensures IsSynced(candidates[i], SyncAll(cfg, candidates, p, Available, now, force, fates).rows) <==>
                CanSync(cfg, candidates[i], Turn(cfg, candidates, i, p, now, force, fates))
    {
      PassSyncsIff(cfg, candidates, |candidates|, i, p, now, force, fates);
    }
  }

  lemma SyncedOrUntouched(
    cfg: Config, dirs: seq<Directory>, rows: map<string, SyncRow>, v: Vault, now: int, force: bool,
    fates: string -> DirectoryFates)
    requires EachOnce(dirs) && NoDeadLetter(dirs, rows) && OfKind(dirs, rows, now, force, Deferred) == []
    requires var pass := RunPass(cfg, dirs, rows, v, Available, true, now, force, fates);
             pass.Some? && forall d :: d in OfKind(dirs, rows, now, force, Sync) ==> IsSynced(d, pass.value.rows)
    ensures AllSynced(dirs, RunPass(cfg, dirs, rows, v, Available, true, now, force, fates).value.rows)
  {
    hide SyncAll, OfKind;
    OnceIsDistinct(dirs);
    hide EachOnce;
    var candidates, start := OfKind(dirs, rows, now, force, Sync), Progress(rows, v, 0, 0, 0);
    forall d | d in dirs
      ensures IsSynced(d, RunPass(cfg, dirs, rows, v, Available, true, now, force, fates).value.rows)
    {
      assert EligibilityOf(d, rows, now, force) == Deferred ==> d in OfKind(dirs, rows, now, force, Deferred);
      if EligibilityOf(d, rows, now, force) == Unchanged {
        assert forall c :: c in candidates ==> c.slug != d.slug;
        RowsOfOthersStay(cfg, candidates, start, Available, now, force, fates, d.slug);
      }
    }
  }

  /** Memory sync converges: with the committed notes accounted for and nothing in the way, one fault-free
      pass syncs all it finds to do, from a clean tree or from one an earlier pass left dirty, and every
      pass after it is silent. */
  lemma SyncConverges(
    cfg: Config, dirs: seq<Directory>, rows: map<string, SyncRow>, v: Vault, now: int, force: bool,
    fates: string -> DirectoryFates,
    gate': Gate, connects': bool, now': int, force': bool, fates': string -> DirectoryFates)
    requires EachOnce(dirs) && forall d :: d in dirs ==> ValidSlug(d.slug)
    requires NoDeadLetter(dirs, rows) && OfKind(dirs, rows, now, force, Deferred) == []
    requires var candidates := OfKind(dirs, rows, now, force, Sync);
             AllFaultFree(candidates, fates) && NothingInTheWay(cfg, candidates, rows, v)
    requires NotesHold(cfg, rows, v)
    ensures var pass := RunPass(cfg, dirs, rows, v, Available, true, now, force, fates);
            && pass.Some? && AllSynced(dirs, pass.value.rows)
            && RunPass(cfg, dirs, pass.value.rows, pass.value.vault, gate', connects', now', force', fates')
               == Some(Pass(pass.value.rows, pass.value.vault, Report(|dirs|, |dirs|, 0, 0, 0, 0), false))
  {
    hide OfKind, RunPass, NoDeadLetter, NotesHold, NothingInTheWay, CanSync, IsSynced, FaultFree, Turn;
    var candidates, p := OfKind(dirs, rows, now, force, Sync), Progress(rows, v, 0, 0, 0);
    FaultFreePassIff(cfg, dirs, rows, v, now, force, fates);
    CandidatesOnce(dirs, rows, now, force, Sync);
    hide EachOnce;
    var pass := RunPass(cfg, dirs, rows, v, Available, true, now, force, fates).value;
    forall d | d in candidates
      ensures IsSynced(d, pass.rows)
    {
      var i :| 0 <= i < |candidates| && candidates[i] == d;
      assert forall c :: c in candidates ==> c in dirs;
      EveryTurnSyncs(cfg, candidates, i, p, now, force, fates);
    }
    SyncedOrUntouched(cfg, dirs, rows, v, now, force, fates);
    hide AllSynced;
    SyncedPassIsSilent(cfg, dirs, pass.rows, pass.vault, gate', connects', now', force', fates');
  }

  /** A vault without committed manifest notes of the mirror accounts for all of them. */
  lemma FreshNotesHold(cfg: Config, rows: map<string, SyncRow>, v: Vault)
    requires forall slug :: Lookup(v.head, ManifestNotePath(cfg.folder, cfg.machine, slug)).None?
    ensures NotesHold(cfg, rows, v)
  {
    hide ManifestNote;
    forall d: Directory, k: nat
      ensures NoteHolds(cfg, rows, v, d, k)
    {
      SamePath(cfg, d.slug, d);
    }
    AllNotesHold(cfg, rows, v);
  }

  /** After any run of failed calls, lost answers and passes that died anywhere, one fault-free pass syncs
      exactly the directories that can be synced at their turn. With no dead letter and nothing in the way
      it syncs all of them, and every pass after it is silent. */
  lemma RunsConverge(
    cfg: Config, rows: map<string, SyncRow>, v: Vault, events: seq<Event>,
    dirs: seq<Directory>, now: int, force: bool, fates: string -> DirectoryFates,
    gate': Gate, connects': bool, now': int, force': bool, fates': string -> DirectoryFates)
    requires forall slug :: Lookup(v.head, ManifestNotePath(cfg.folder, cfg.machine, slug)).None?
    requires PoliteRun(cfg, rows, v, events)
    requires EachOnce(dirs) && forall d :: d in dirs ==> ValidSlug(d.slug)
    requires AllFaultFree(OfKind(dirs, Run(cfg, rows, v, events).0, now, force, Sync), fates)
    ensures var (rows1, v1) := Run(cfg, rows, v, events);
            var candidates := OfKind(dirs, rows1, now, force, Sync);
            var pass := RunPass(cfg, dirs, rows1, v1, Available, true, now, force, fates);
            && pass.Some?
            && (forall i :: 0 <= i < |candidates| ==>
                  (IsSynced(candidates[i], pass.value.rows) <==>
                     CanSync(cfg, candidates[i], Turn(cfg, candidates, i, Progress(rows1, v1, 0, 0, 0), now, force, fates))))
            && (NoDeadLetter(dirs, rows1) && OfKind(dirs, rows1, now, force, Deferred) == []
                && NothingInTheWay(cfg, candidates, rows1, v1) ==>
                  && AllSynced(dirs, pass.value.rows)
                  && RunPass(cfg, dirs, pass.value.rows, pass.value.vault, gate', connects', now', force', fates')
                     == Some(Pass(pass.value.rows, pass.value.vault, Report(|dirs|, |dirs|, 0, 0, 0, 0), false)))
  {
    hide OfKind, RunPass, NoDeadLetter, NotesHold, NothingInTheWay, CanSync, IsSynced, AllFaultFree, Turn, Run, EachOnce;
    hide PoliteRun, AllSynced;
    FreshNotesHold(cfg, rows, v);
    RunsKeepNotes(cfg, rows, v, events);
    var (rows1, v1) := Run(cfg, rows, v, events);
    FaultFreePassIff(cfg, dirs, rows1, v1, now, force, fates);
    if NoDeadLetter(dirs, rows1) && OfKind(dirs, rows1, now, force, Deferred) == []
       && NothingInTheWay(cfg, OfKind(dirs, rows1, now, force, Sync), rows1, v1) {
      SyncConverges(cfg, dirs, rows1, v1, now, force, fates, gate', connects', now', force', fates');
    }
  }
}
