/** The archive worker itself: statements over durable state, each effect at the mercy of a script
    that says whether it works, fails or loses its answer, and whose end is a crash. Every method
    is proved to follow the state machine of `WorkerMachine` step by step. */
module ArchiveWorker {
  import opened Wrappers
  import opened ArchiveRecord
  import opened ArchiveReader
  import opened CommitMessage
  import opened WorkerStore
  import opened WorkerMachine
  import opened WorkerSafety
  import opened WorkerSteps

  /** How an effect came back; `Crashed` is no answer at all, the worker is gone. */
  datatype Answer = Done | Errored | Crashed

  lemma RunTake(setup: Setup, s: System, script: seq<Event>, n: nat)
    requires n < |script|
    ensures Run(setup, s, script[..n + 1]) == Next(setup, Run(setup, s, script[..n]), script[n])
  {
    hide Next;
    assert script[..n + 1] == script[..n] + [script[n]];
    RunAppend(setup, s, script[..n], [script[n]]);
    assert [script[n]][1..] == [];
    var t := Run(setup, s, script[..n]);
    assert Run(setup, t, [script[n]]) == Run(setup, Next(setup, t, script[n]), []);
  }

  class Worker {
    const setup: Setup
    const script: seq<Event>
    ghost const start: World
    var next: nat
    var row: Row
    var attempts: seq<Attempt>
    var file: Option<string>
    var log: seq<CommitId>

    ghost predicate OnlySteps() {
      forall e :: e in script ==> e.Step?
    }

    /** Where the state machine stands after `n` events of the script. */
    ghost function Reached(n: nat): System
      requires n <= |script|
    {
      Run(setup, System(start, Starting), script[..n])
    }

    ghost predicate Valid() reads this {
      next <= |script| && OnlySteps()
    }

    ghost function Durable(): World reads this {
      World(row, attempts, file, log)
    }

    /** The worker stands at a program point of the state machine's run over the script so far. */
    ghost predicate At(pc: Pc) reads this {
      Valid() && Reached(next) == System(Durable(), pc)
    }

    /** The worker has returned, or the script ended under it. */
    ghost predicate Over() reads this {
      && Valid()
      && Reached(next).world == Durable()
      && (next < |script| ==> At(Idle))
    }

    constructor (setup: Setup, world: World, script: seq<Event>)
      requires forall e :: e in script ==> e.Step?
      ensures this.setup == setup && this.script == script && this.start == world
      ensures Durable() == world && At(Starting)
    {
      this.setup, this.script, this.start, this.next := setup, script, world, 0;
      this.row, this.attempts, this.file, this.log := world.row, world.attempts, world.file, world.log;
    }

    /** What the state machine makes of the script's next event here. */
    lemma Taken(pc: Pc)
      requires At(pc) && next < |script|
      ensures script[next].Step?
      ensures Reached(next + 1) == StepWorker(setup, System(Durable(), pc), script[next])
    {
      RunTake(setup, System(start, Starting), script, next);
    }

    /** `hydrate_session_from_archives`, skipped once there is a revision. */
    method HydrateFromArchive() returns (answer: Answer)
      requires At(Starting)
      modifies this
      ensures match answer case Done => At(Reconciling) case Errored => At(Idle) case Crashed => Over()
    {
      if next == |script| { return Crashed; }
      var e := script[next];
      Taken(Starting);
      hide Reached, OnlySteps;
      next := next + 1;
      if row.revision != 0 { return Done; }
      if e.fate != Refuses {
        row := Hydrate(setup, World(row, attempts, file, log), e.flag).row;
      }
      return if e.fate == Works then Done else Errored;
    }

    // ----- reconciliation

    /** `reconcile_persisted_attempt`: `Done` says there was nothing to reconcile. */
    method ReconcilePersistedAttempt() returns (answer: Answer)
      requires At(Reconciling)
      modifies this
      ensures match answer case Done => At(Gate) case Errored => At(Idle) case Crashed => Over()
    {
      if next == |script| { return Crashed; }
      ghost var before := Durable();
      Taken(Reconciling);
      hide Reached, OnlySteps, AgreesWithPlan;
      next := next + 1;
      assert Durable() == before;
      var pending := PendingFrom(attempts);
      if pending.None? || file.None? { return Done; }
      var id := pending.value;
      var plan := attempts[id].plan.value;
      if setup.hash(file.value) != plan.markdownHash { return Done; }
      var parsed := Parse(file.value);
      if parsed.Failure? { return Errored; }
      var m := parsed.value;
      if !AgreesWithPlan(setup, m, plan) { return Done; }
      assert Reconcile(setup, before) == Matches(id, m);
      hide Reconcile;
      if plan.gitHistory {
        answer := CommitFound(id, m);
        if answer != Done { return; }
      }
      answer := CompleteFound(id, m);
    }

    /** `commit_archive_revision`: a revision the log already holds is not committed again. */
    method CommitRevision(id: CommitId, fate: Fate) returns (ok: bool)
      modifies this`log
      ensures (log, ok) == Commit(old(log), id, fate)
    {
      if fate == Refuses || !LogReadable(log) { return false; }
      var exists_ := ArchiveCommitExists(LogOutput(Messages(log)), id);
      if !exists_ {
        log := [id] + log;
      }
      ok := fate == Works;
    }

    method CommitFound(id: nat, m: ArchivedMarkdown) returns (answer: Answer)
      requires At(ReconcileCommitting(id, m))
      modifies this
      ensures attempts == old(attempts)
      ensures match answer
              case Done => At(ReconcileCompleting(id, m)) case Errored => At(Idle) case Crashed => Over()
    {
      if next == |script| { return Crashed; }
      var e := script[next];
      Taken(ReconcileCommitting(id, m));
      hide Reached, OnlySteps, Commit;
      next := next + 1;
      var ok := CommitRevision(CommitIdOf(setup, m.revision), e.fate);
      return if ok then Done else Errored;
    }

    /** `complete_attempt` of the reconciled attempt; either way the worker is finished. */
    method CompleteFound(id: nat, m: ArchivedMarkdown) returns (answer: Answer)
      requires At(ReconcileCompleting(id, m))
      modifies this
      ensures answer != Done && match answer case Crashed => Over() case _ => At(Idle)
    {
      if next == |script| { return Crashed; }
      var e := script[next];
      Taken(ReconcileCompleting(id, m));
      hide Reached, OnlySteps, Complete, PersistedFound;
      next := next + 1;
      if id < |attempts| && attempts[id].plan.Some? && m.cursor.Some? {
        CompleteAttempt(id, PersistedFound(attempts[id].plan.value, m), true, m.summaryPlaceholder, e.flag, e.fate);
      }
      answer := Errored;
    }

    /** One transaction: the completion the plan allows, or nothing. */
    method CompleteAttempt(id: nat, p: Persisted, recovered: bool, placeholder: bool, same: bool, fate: Fate)
      modifies this`row, this`attempts
      ensures var after := Complete(old(Durable()), id, p, recovered, placeholder, same);
              Durable() == if after.Some? && fate != Refuses then after.value else old(Durable())
    {
      if row.token != Some(id) || id >= |attempts| || attempts[id].outcome != Running || attempts[id].plan.None? {
        return;
      }
      if !Restates(p, attempts[id].plan.value) || fate == Refuses {
        return;
      }
      var outcome := if placeholder then AttemptFailed else if recovered then Recovered else Succeeded;
      attempts := attempts[id := attempts[id].(outcome := outcome)];
      row := row.(revision := p.revision, summary := Some(p.summary), markdownHash := Some(p.markdownHash), token := None);
      if placeholder {
        row := row.(lifecycle := Failed, retryState := Some(RevisionPending), parked := true);
      } else {
        row := row.(lifecycle := if same then Archived else RevisionPending, retryState := None, parked := false);
      }
    }

    // ----- the claimed attempt

    /** `process_claim` from the prior archive on, with the verdict of the caller on its error. */
    method ProcessClaim(id: nat, claimed: Row) returns (answer: Answer)
      requires At(Working(id, claimed))
      modifies this
      ensures match answer case Crashed => Over() case _ => At(Idle)
    {
      if next == |script| { return Crashed; }
      var e := script[next];
      ghost var before := Durable();
      Taken(Working(id, claimed));
      WorkingStep(setup, before, id, claimed, e);
      hide Reached, OnlySteps, StepWorker, Decide;
      next := next + 1;
      assert Durable() == before;
      var decision := Decide(setup, World(row, attempts, file, log), id, claimed, e.input);
      assert At(decision);
      match decision {
        case Planning(i, draft) => answer := Persist(i, draft);
        case Settling(i, noChange, same) => answer := Settle(i, noChange, same);
        case Failing(i, park) => answer := Fail(i, park);
        case Deferring => answer := Defer();
        case _ => assert false;
      }
    }

    /** Plan, verdict of a placeholder, file, commit, completion. */
    method Persist(id: nat, d: Draft) returns (answer: Answer)
      requires At(Planning(id, d))
      modifies this
      ensures match answer case Crashed => Over() case _ => At(Idle)
    {
      hide Reached, OnlySteps, StepWorker, Render, Arrived;
      answer := StorePlan(id, d);
      if answer == Crashed { return; }
      if answer == Errored { answer := Fail(id, false); return; }
      if d.placeholder {
        answer := RecordVerdict(id, d);
        if answer == Crashed { return; }
        if answer == Errored { answer := Fail(id, false); return; }
      }
      answer := ReplaceFile(id, d);
      if answer == Crashed { return; }
      if answer == Errored {
        // The write may have reported an error after its content arrived; then it is left to the next worker.
        if !Arrived(setup, file, Render(d.rendered)) { answer := Fail(id, true); }
        return;
      }
      if d.gitHistory {
        answer := CommitDraft(id, d);
        if answer == Crashed { return; }
        if answer == Errored {
          var park: bool;
          answer, park := RollBack(id, d);
          if answer == Done { answer := Fail(id, park); }
          return;
        }
      }
      answer := CompleteDraft(id, d);
    }

    method StorePlan(id: nat, d: Draft) returns (answer: Answer)
      requires At(Planning(id, d))
      modifies this
      ensures match answer
              case Done => At(if d.placeholder then Verdict(id, d) else Writing(id, d))
              case Errored => At(Failing(id, false))
              case Crashed => Over()
    {
      hide Reached, OnlySteps, StepWorker, PlanFor;
      if next == |script| { return Crashed; }
      var e := script[next];
      Taken(Planning(id, d));
      PlanningStep(setup, World(row, attempts, file, log), id, d, e);
      next := next + 1;
      if id >= |attempts| || attempts[id].outcome != Running { return Errored; }
      if e.fate != Refuses {
        attempts := attempts[id := attempts[id].(plan := Some(PlanFor(d.rendered, d.gitHistory, setup.hash)))];
      }
      answer := if e.fate == Works then Done else Errored;
    }

    method RecordVerdict(id: nat, d: Draft) returns (answer: Answer)
      requires At(Verdict(id, d))
      modifies this
      ensures match answer
              case Done => At(Writing(id, d)) case Errored => At(Failing(id, false)) case Crashed => Over()
    {
      if next == |script| { return Crashed; }
      var e := script[next];
      Taken(Verdict(id, d));
      hide Reached, OnlySteps;
      next := next + 1;
      if row.token != Some(id) { return Errored; }
      if e.fate != Refuses {
        row := row.(lifecycle := Failed, retryState := Some(RevisionPending), parked := true);
      }
      answer := if e.fate == Works then Done else Errored;
    }

    /** `atomic_replace` of the archive file by the draft's content. */
    method ReplaceFile(id: nat, d: Draft) returns (answer: Answer)
      requires At(Writing(id, d))
      modifies this
      ensures match answer
              case Done => At(if d.gitHistory then Committing(id, d) else Completing(id, d))
              case Errored => At(if Arrived(setup, file, Render(d.rendered)) then Idle else Failing(id, true))
              case Crashed => Over()
    {
      hide Reached, OnlySteps, StepWorker, Render, Arrived;
      if next == |script| { return Crashed; }
      var e := script[next];
      Taken(Writing(id, d));
      WritingStep(setup, World(row, attempts, file, log), id, d, e);
      next := next + 1;
      var worked := WriteFile(Some(Render(d.rendered)), e.fate);
      answer := if worked then Done else Errored;
    }

    /** One atomic replacement, or removal, of the archive file. */
    method WriteFile(content: Option<string>, fate: Fate) returns (worked: bool)
      modifies this`file
      ensures file == (if fate == Refuses then old(file) else content) && worked == (fate == Works)
    {
      if fate != Refuses {
        file := content;
      }
      worked := fate == Works;
    }

    method CommitDraft(id: nat, d: Draft) returns (answer: Answer)
      requires At(Committing(id, d))
      modifies this
      ensures match answer
              case Done => At(Completing(id, d)) case Errored => At(RollingBack(id, d)) case Crashed => Over()
    {
      if next == |script| { return Crashed; }
      var e := script[next];
      Taken(Committing(id, d));
      CommittingStep(setup, World(row, attempts, file, log), id, d, e);
      hide Reached, OnlySteps, StepWorker, Commit;
      next := next + 1;
      var ok := CommitRevision(CommitIdOf(setup, d.rendered.number), e.fate);
      answer := if ok then Done else Errored;
    }

    /** `rollback_markdown_after_failed_commit`. */
    method RollBack(id: nat, d: Draft) returns (answer: Answer, park: bool)
      requires At(RollingBack(id, d))
      modifies this
      ensures match answer
              case Done => At(Failing(id, park)) case Errored => At(Idle) case Crashed => Over()
    {
      park := false;
      if next == |script| { return Crashed, park; }
      var e := script[next];
      Taken(RollingBack(id, d));
      hide Reached, OnlySteps;
      next := next + 1;
      var worked := WriteFile(d.previous, e.fate);
      park := !e.flag;
      answer := if worked then Done else Errored;
    }

    method CompleteDraft(id: nat, d: Draft) returns (answer: Answer)
      requires At(Completing(id, d))
      modifies this
      ensures match answer case Crashed => Over() case _ => At(Idle)
    {
      hide Reached, OnlySteps, StepWorker, Complete, PersistedDraft;
      if next == |script| { return Crashed; }
      var e := script[next];
      Taken(Completing(id, d));
      CompletingStep(setup, World(row, attempts, file, log), id, d, e);
      next := next + 1;
      CompleteAttempt(id, PersistedDraft(d, setup.hash), false, d.placeholder, d.sameGeneration, e.fate);
      answer := Done;
    }

    /** `fail_attempt`. */
    method Fail(id: nat, park: bool) returns (answer: Answer)
      requires At(Failing(id, park))
      modifies this
      ensures match answer case Crashed => Over() case _ => At(Idle)
    {
      if next == |script| { return Crashed; }
      var e := script[next];
      Taken(Failing(id, park));
      hide Reached, OnlySteps;
      next := next + 1;
      if id < |attempts| && e.fate != Refuses {
        var retry := attempts[id].retryState;
        if attempts[id].outcome == Running {
          attempts := attempts[id := attempts[id].(outcome := AttemptFailed)];
        }
        if row.token == Some(id) {
          row := row.(lifecycle := Failed, retryState := Some(retry), parked := park || e.flag, token := None);
        }
      }
      answer := Done;
    }

    /** `complete_no_change` or `complete_not_archive_worthy`. */
    method Settle(id: nat, noChange: bool, same: bool) returns (answer: Answer)
      requires At(Settling(id, noChange, same))
      modifies this
      ensures match answer case Crashed => Over() case _ => At(Idle)
    {
      if next == |script| { return Crashed; }
      var e := script[next];
      Taken(Settling(id, noChange, same));
      hide Reached, OnlySteps;
      next := next + 1;
      if id < |attempts| && e.fate != Refuses {
        if attempts[id].outcome == Running {
          attempts := attempts[id := attempts[id].(outcome := if noChange then Superseded else Succeeded)];
        }
        if row.token == Some(id) {
          var state :=
            if !noChange then Observed
            else if same then (if row.revision > 0 then Archived else Observed)
            else if row.revision > 0 then RevisionPending else SummaryPending;
          row := row.(lifecycle := state, retryState := None, parked := false, token := None);
        }
      }
      answer := Done;
    }

    method Defer() returns (answer: Answer)
      requires At(Deferring)
      modifies this
      ensures match answer case Crashed => Over() case _ => At(Idle)
    {
      if next == |script| { return Crashed; }
      var e := script[next];
      Taken(Deferring);
      hide Reached, OnlySteps;
      next := next + 1;
      AbandonProcessing(e.fate);
      answer := Done;
    }

    /** One transaction: the newest running attempt ends and the session goes back. */
    method AbandonProcessing(fate: Fate)
      modifies this`row, this`attempts
      ensures Durable() == if fate == Refuses then old(Durable()) else Abandon(old(Durable()))
    {
      var running := NewestRunning(attempts);
      if running.None? || fate == Refuses { return; }
      var id := running.value;
      row := row.(lifecycle := attempts[id].retryState, retryState := None, parked := false, token := None);
      attempts := attempts[id := attempts[id].(outcome := AttemptFailed)];
    }

    // ----- the whole worker

    /** A session left in processing is abandoned before anything is claimed. */
    method Open() returns (answer: Answer)
      requires At(Gate)
      modifies this
      ensures match answer case Done => At(Claiming) case Errored => At(Idle) case Crashed => Over()
    {
      if next == |script| { return Crashed; }
      var e := script[next];
      Taken(Gate);
      hide Reached, OnlySteps, Abandon;
      next := next + 1;
      if row.lifecycle != Processing { return Done; }
      AbandonProcessing(e.fate);
      answer := if e.fate == Works then Done else Errored;
    }

    /** `claim_session`; the row the claim was made on comes back with it. */
    method ClaimSession() returns (answer: Answer, id: nat, claimed: Row)
      requires At(Claiming)
      modifies this
      ensures match answer case Done => At(Working(id, claimed)) case Errored => At(Idle) case Crashed => Over()
    {
      id, claimed := |attempts|, row;
      if next == |script| { return Crashed, id, claimed; }
      var e := script[next];
      Taken(Claiming);
      hide Reached, OnlySteps;
      next := next + 1;
      if e.flag || !Claimable(row) { return Errored, id, claimed; }
      if e.fate != Refuses {
        var state := RetryState(row);
        row := row.(lifecycle := Processing, retryState := Some(state), token := Some(id));
        attempts := attempts + [Attempt(Running, state, None)];
      }
      answer := if e.fate == Works then Done else Errored;
    }

    /** `run_archive_worker_inner` under the session lock. Whatever the script does to it, the durable
        state it leaves is the one the state machine reaches, and a consistent one stays so. */
    method RunArchiveWorker()
      requires At(Starting)
      modifies this
      ensures Over()
      ensures ValidSetup(setup) && Consistent(setup, start) ==> Consistent(setup, Durable())
    {
      RunUntilOver();
      hide Reached, OnlySteps, Consistent, ValidSetup;
      if ValidSetup(setup) && Consistent(setup, start) {
        StartingInv(setup, start);
        RunKeeps(setup, System(start, Starting), script[..next]);
        hide AtPc;
      }
    }

    method RunUntilOver()
      requires At(Starting)
      modifies this
      ensures Over()
    {
      hide Reached, OnlySteps;
      var answer := HydrateFromArchive();
      if answer != Done { return; }
      answer := ReconcilePersistedAttempt();
      if answer != Done { return; }
      answer := Open();
      if answer != Done { return; }
      var id, claimed;
      answer, id, claimed := ClaimSession();
      if answer != Done { return; }
      answer := ProcessClaim(id, claimed);
    }
  }

  lemma StartingInv(setup: Setup, w: World)
    requires ValidSetup(setup) && Consistent(setup, w)
    ensures Inv(setup, System(w, Starting))
  {
    hide Consistent, ValidSetup;
  }
}
