/** The delivery attempt as it runs: statements that update the delivery row and call the vault, each
    proved to do what `Delivery` specifies. */
module DeliveryWorker {
  import opened Wrappers
  import opened Vault
  import opened Delivery

  class Worker {
    const cfg: Config
    const gate: Gate
    var row: DeliveryRow
    var vault: Vault
    var calls: seq<Call>

    constructor (cfg: Config, gate: Gate, row: DeliveryRow, vault: Vault)
      ensures this.cfg == cfg && this.gate == gate
      ensures this.row == row && this.vault == vault && this.calls == []
    {
      this.cfg, this.gate, this.row, this.vault, this.calls := cfg, gate, row, vault, [];
    }

    method Create(path: string, content: Content, fate: Fate) returns (result: Result<string, SinkError>)
      modifies this`vault, this`calls
      ensures (vault, result) == CreateNote(old(vault), path, content, fate)
      ensures calls == old(calls) + [CreateCall(path)]
    {
      calls := calls + [CreateCall(path)];
      if fate.Refuses? { return Failure(Broken(fate.category)); }
      if path in vault.files {
        return if fate.Works? then Failure(AlreadyExists) else Failure(Broken(fate.category));
      }
      vault := vault.(files := vault.files[path := content]);
      result := if fate.Works? then Success(path) else Failure(Broken(fate.category));
    }

    method Replace(path: string, content: Content, fate: Fate) returns (result: Result<string, SinkError>)
      modifies this`vault, this`calls
      ensures (vault, result) == ReplaceNote(old(vault), path, content, fate)
      ensures calls == old(calls) + [ReplaceCall(path)]
    {
      calls := calls + [ReplaceCall(path)];
      if fate.Refuses? { return Failure(Broken(fate.category)); }
      if path !in vault.files {
        return if fate.Works? then Failure(NotFound) else Failure(Broken(fate.category));
      }
      vault := vault.(files := vault.files[path := content]);
      result := if fate.Works? then Success(path) else Failure(Broken(fate.category));
    }

    /** `create_or_adopt`: a note that is already there is taken over. */
    method CreateThenAdopt(rec: Record, path: string, f: Fates) returns (result: Result<(string, bool), SinkError>)
      requires rec.project.Some? && rec.markdown.Some?
      modifies this`vault, this`calls
      ensures var w := CreateOrAdopt(rec, path, old(vault), f);
              vault == w.vault && result == w.result && calls == old(calls) + w.calls
    {
      hide CreateNote, ReplaceNote, CreatedContent, ReplacedContent;
      var created := Create(path, CreatedContent(rec), f.create);
      if created.Success? { return Success((created.value, true)); }
      if created.error != AlreadyExists { return Failure(created.error); }
      var adopted := Replace(path, ReplacedContent(rec), f.adopt);
      result := if adopted.Success? then Success((adopted.value, false)) else Failure(adopted.error);
    }

    /** `replace_or_create`: a note that is gone is made again. */
    method ReplaceThenCreate(rec: Record, known: string, path: string, f: Fates)
      returns (result: Result<(string, bool), SinkError>)
      requires rec.project.Some? && rec.markdown.Some?
      modifies this`vault, this`calls
      ensures var w := ReplaceOrCreate(rec, known, path, old(vault), f);
              vault == w.vault && result == w.result && calls == old(calls) + w.calls
    {
      hide ReplaceNote, CreateOrAdopt, ReplacedContent;
      var replaced := Replace(known, ReplacedContent(rec), f.replace);
      if replaced.Success? { return Success((replaced.value, false)); }
      if replaced.error != NotFound { return Failure(replaced.error); }
      result := CreateThenAdopt(rec, path, f);
    }

    /** `commit_and_correlate`: every answer but a plain success is settled by looking the message up. */
    method Correlate(subject: string, f: Fates) returns (result: Result<nat, string>)
      modifies this`vault, this`calls
      ensures (vault, result) == CommitAndCorrelate(old(vault), subject, f)
      ensures calls == old(calls) + [CommitCall(subject), FindCall(subject)]
    {
      hide CommitTree, FirstWithSubject;
      calls := calls + [CommitCall(subject), FindCall(subject)];
      var (after, committed) := CommitRevision(vault, subject, f.commit);
      vault := after;
      if !f.find.Works? {
        return if committed.Failure? then Failure(Category(committed.error)) else Failure(f.find.category);
      }
      var found := FindCommitByMessage(Newest(vault.log), subject);
      if found.Some? { return Success(found.value.sha); }
      if committed.Failure? { return Failure(Category(committed.error)); }
      result := if committed.value.Some? then Success(committed.value.value) else Failure("remote-history-missing");
    }

    /** The dirty paths the status reports, less the session's own. */
    method FindUnrelated(rec: Record, dirty: seq<string>) returns (unrelated: seq<string>)
      requires Deliverable(cfg, rec)
      requires forall p :: p in dirty <==> p in Dirty(vault)
      ensures forall p :: p in unrelated <==> p in Unrelated(cfg, rec, row, vault)
    {
      hide Route, Dirty, NormalizeNotePath;
      var own := [Route(cfg, rec)] + (if row.notePath.Some? then [row.notePath.value] else []);
      assert forall o :: o in own <==> o in Own(cfg, rec, row);
      hide Own;
      unrelated := [];
      for i := 0 to |dirty|
        invariant forall p :: p in unrelated <==>
                    p in dirty[..i] && forall o :: o in own ==> NormalizeNotePath(o) != NormalizeNotePath(p)
      {
        assert dirty[..i + 1] == dirty[..i] + [dirty[i]];
        if forall o | o in own :: NormalizeNotePath(o) != NormalizeNotePath(dirty[i]) {
          unrelated := unrelated + [dirty[i]];
        }
      }
      assert dirty[..|dirty|] == dirty;
    }

    /** `deliver_one`; `dirty` is what a status call would list. */
    method DeliverNow(rec: Record, dirty: seq<string>, now: int, f: Fates) returns (outcome: Outcome)
      requires forall p :: p in dirty <==> p in Dirty(vault)
      requires calls == []
      modifies this
      ensures Attempt(row, vault, outcome, calls) == DeliverOne(cfg, rec, gate, old(row), old(vault), now, f)
    {
      hide WriteAndCorrelate, Dirty, Route, Unrelated, SkipReason, BackoffMs;
      if !Deliverable(cfg, rec) { return Skipped(SkipReason(cfg, rec)); }
      if row.state == DeadLetter { return Skipped("dead-letter"); }
      if IsCurrent(row, rec) { return AlreadyDelivered; }
      if gate.Closed? {
        row := RecordBlocked(row, gate.reason);
        return Withheld(gate.reason);
      }
      if rec.markdown.None? { return Unreadable; }
      if gate == Available {
        calls := [StatusCall];
        if !f.status.Works? {
          row := RecordFailure(row, f.status.category, cfg.maxAttempts, now);
          return Failed(f.status.category);
        }
        var unrelated := FindUnrelated(rec, dirty);
        if unrelated != [] {
          assert unrelated[0] in unrelated;
          row := RecordBlocked(row, "remote-history-dirty");
          return Withheld("remote-history-dirty");
        }
      }
      outcome := Send(rec, now, f);
    }

    /** The note, then its commit, then the row. */
    method Send(rec: Record, now: int, f: Fates) returns (outcome: Outcome)
      requires Deliverable(cfg, rec) && rec.markdown.Some?
      modifies this
      ensures var a := WriteAndCorrelate(cfg, rec, gate, old(row), old(vault), now, f);
              row == a.row && vault == a.vault && outcome == a.outcome && calls == old(calls) + a.calls
    {
      hide CreateOrAdopt, ReplaceOrCreate, CommitAndCorrelate, Route, Subject, BackoffMs;
      var result;
      if row.notePath.Some? {
        result := ReplaceThenCreate(rec, row.notePath.value, Route(cfg, rec), f);
      } else {
        result := CreateThenAdopt(rec, Route(cfg, rec), f);
      }
      if result.Failure? {
        row := RecordFailure(row, Category(result.error), cfg.maxAttempts, now);
        return Failed(Category(result.error));
      }
      var (path, created) := result.value;
      var commit: Option<nat> := None;
      if gate == Available {
        var correlated := Correlate(Delivery.Subject(rec.source, rec.session, rec.revision), f);
        if correlated.Failure? {
          row := RecordFailure(row, correlated.error, cfg.maxAttempts, now);
          return Failed(correlated.error);
        }
        commit := Some(correlated.value);
      }
      row := RecordSuccess(row, rec, path, commit);
      outcome := if created then Created(path) else Replaced(path);
    }
  }
}
