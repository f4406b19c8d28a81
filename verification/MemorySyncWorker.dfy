/** The memory-sync pass as it runs: one loop that decides the work, one that does it, and a loop over
    each directory's files, proved to do what `MemorySync` specifies. */
module MemorySyncWorker {
  import opened Wrappers
  import opened Vault
  import opened MemoryMirror
  import opened MemorySync

  class Syncer {
    const cfg: Config
    var rows: map<string, SyncRow>
    var vault: Vault
    var untouched: nat
    var deferred: nat
    var synced: nat
    var failed: nat
    var blocked: nat
    var contacted: bool

    constructor (cfg: Config, rows: map<string, SyncRow>, vault: Vault)
      ensures this.cfg == cfg && this.rows == rows && this.vault == vault
      ensures Fresh()
    {
      this.cfg, this.rows, this.vault := cfg, rows, vault;
      untouched, deferred, synced, failed, blocked, contacted := 0, 0, 0, 0, 0, false;
    }

    predicate Fresh() reads this {
      untouched == 0 && deferred == 0 && synced == 0 && failed == 0 && blocked == 0 && !contacted
    }

    function Done(): Progress reads this {
      Progress(rows, vault, synced, failed, blocked)
    }

    method Put(path: string, text: string, fate: Fate) returns (error: Option<string>)
      modifies this`vault
      ensures (vault, error) == PutDocument(old(vault), path, text, fate)
    {
      if !fate.Refuses? {
        vault := vault.(files := vault.files[path := Foreign(text)]);
      }
      error := if fate.Works? then None else Some(fate.category);
    }

    /** Every file of the directory, in order, up to the first that cannot be read or written. */
    method Mirror(dir: Directory, write: nat -> Fate) returns (error: Option<string>)
      modifies this`vault
      ensures (vault, error) == MirrorFiles(cfg, dir, 0, old(vault), write)
    {
      hide PutDocument, FilePath;
      for i := 0 to |dir.sources|
        invariant MirrorFiles(cfg, dir, i, vault, write) == MirrorFiles(cfg, dir, 0, old(vault), write)
      {
        if dir.sources[i].content.None? { return Some(CHANGED); }
        error := Put(FilePath(cfg, dir, i), dir.sources[i].content.value, write(i));
        if error.Some? { return; }
      }
      error := None;
    }

    /** `sync_directory`. */
    method SyncNow(dir: Directory, row: SyncRow, f: DirectoryFates) returns (result: Result<nat, string>)
      modifies this`vault
      ensures (vault, result) == SyncDirectory(cfg, dir, row, old(vault), f)
    {
      hide MirrorFiles, PutDocument, Correlate, NotePath, ManifestNote, MemoryMessage;
      if !f.status.Works? { return Failure(f.status.category); }
      if exists p | p in Dirty(vault) :: !IsOwnDirty(cfg.folder, cfg.machine, dir.slug, p) { return Failure(DIRTY); }
      var error := Mirror(dir, f.write);
      if error.Some? { return Failure(error.value); }
      var revision := row.revision + 1;
      error := Put(NotePath(cfg, dir), ManifestNote(cfg, dir, revision), f.manifest);
      if error.Some? { return Failure(error.value); }
      var (after, commit) := Correlate(vault, MemoryMessage(cfg.machine, dir.slug, revision), f);
      vault := after;
      result := commit;
    }

    /** One candidate, with its row and the report's counters. */
    method SyncCandidate(dir: Directory, gate: Gate, now: int, force: bool, f: DirectoryFates)
      modifies this`rows, this`vault, this`synced, this`failed, this`blocked
      ensures var (row, after, verdict) :=
                SyncOne(cfg, dir, RowOf(old(rows), dir.slug), old(vault), gate, now, force, f);
              Done() == Advance(old(Done()), dir.slug, row, after, verdict)
    {
      hide SyncDirectory;
      var row := if dir.slug in rows then rows[dir.slug] else NEW_ROW;
      if force {
        row := ForceRetry(row);
      }
      if gate == Closed(NO_HISTORY) {
        rows := rows[dir.slug := RecordBlocked(row, NO_HISTORY)];
        blocked := blocked + 1;
        return;
      }
      if gate.Closed? {
        rows := rows[dir.slug := RecordFailure(row, gate.reason, cfg.maxAttempts, now)];
        failed := failed + 1;
        return;
      }
      var result := SyncNow(dir, row, f);
      if result.Success? {
        rows := rows[dir.slug := RecordSuccess(row, dir.manifestHash, result.value)];
        synced := synced + 1;
      } else {
        rows := rows[dir.slug := RecordFailure(row, result.error, cfg.maxAttempts, now)];
        failed := failed + 1;
      }
    }

    /** The work list, decided before any contact with the sink. */
    method Decide(dirs: seq<Directory>, now: int, force: bool) returns (candidates: seq<Directory>)
      requires Fresh()
      modifies this`untouched, this`deferred
      ensures candidates == OfKind(dirs, rows, now, force, Sync)
      ensures untouched == |OfKind(dirs, rows, now, force, Unchanged)|
      ensures deferred == |OfKind(dirs, rows, now, force, Deferred)|
    {
      hide EligibilityOf;
      candidates := [];
      for i := 0 to |dirs|
        invariant candidates == OfKind(dirs[..i], rows, now, force, Sync)
        invariant untouched == |OfKind(dirs[..i], rows, now, force, Unchanged)|
        invariant deferred == |OfKind(dirs[..i], rows, now, force, Deferred)|
      {
        assert dirs[..i + 1] == dirs[..i] + [dirs[i]];
        OfKindSnoc(dirs[..i], dirs[i], rows, now, force, Unchanged);
        OfKindSnoc(dirs[..i], dirs[i], rows, now, force, Deferred);
        OfKindSnoc(dirs[..i], dirs[i], rows, now, force, Sync);
        hide OfKind;
        match EligibilityOf(dirs[i], rows, now, force) {
          case Unchanged => untouched := untouched + 1;
          case Deferred => deferred := deferred + 1;
          case Sync => candidates := candidates + [dirs[i]];
        }
      }
      assert dirs[..|dirs|] == dirs;
    }

    method Work(candidates: seq<Directory>, gate: Gate, now: int, force: bool, fates: string -> DirectoryFates)
      modifies this`rows, this`vault, this`synced, this`failed, this`blocked
      ensures Done() == SyncAll(cfg, candidates, old(Done()), gate, now, force, fates)
    {
      hide SyncOne;
      for i := 0 to |candidates|
        invariant Done() == SyncAll(cfg, candidates[..i], old(Done()), gate, now, force, fates)
      {
        assert candidates[..i + 1][..i] == candidates[..i];
        SyncCandidate(candidates[i], gate, now, force, fates(candidates[i].slug));
      }
      assert candidates[..|candidates|] == candidates;
    }

    /** `run_with_config`; `ok` is false when there is work but no way to reach the sink. */
    method RunWithConfig(
      dirs: seq<Directory>, gate: Gate, connects: bool, now: int, force: bool, fates: string -> DirectoryFates)
      returns (ok: bool)
      requires Fresh()
      modifies this
      ensures var pass := RunPass(cfg, dirs, old(rows), old(vault), gate, connects, now, force, fates);
              ok == pass.Some?
              && (ok ==> pass.value == Pass(rows, vault, Report(|dirs|, untouched, deferred, synced, failed, blocked), contacted))
      ensures !ok ==> rows == old(rows) && vault == old(vault)
    {
      hide SyncAll, OfKind;
      var candidates := Decide(dirs, now, force);
      if candidates == [] { return true; }
      if !connects { return false; }
      contacted := true;
      Work(candidates, gate, now, force, fates);
      ok := true;
    }
  }

  lemma {:induction false} OfKindSnoc(
    dirs: seq<Directory>, d: Directory, rows: map<string, SyncRow>, now: int, force: bool, kind: Eligibility)
    ensures OfKind(dirs + [d], rows, now, force, kind) ==
            OfKind(dirs, rows, now, force, kind) + OnlyIf(d, rows, now, force, kind)
  {
    hide OnlyIf;
    if dirs == [] {
      assert dirs + [d] == [d] && [d][1..] == [];
    } else {
      OfKindSnoc(dirs[1..], d, rows, now, force, kind);
      var first, later, one := OnlyIf(dirs[0], rows, now, force, kind), OfKind(dirs[1..], rows, now, force, kind), OnlyIf(d, rows, now, force, kind);
      assert (dirs + [d])[0] == dirs[0] && (dirs + [d])[1..] == dirs[1..] + [d];
      assert first + (later + one) == (first + later) + one;
    }
  }
}
