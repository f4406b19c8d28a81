/** Every step of the archive worker keeps the invariant; one lemma per program point. */
module WorkerSteps {
  import opened Wrappers
  import opened Summary
  import opened ArchiveRecord
  import opened ArchiveReader
  import opened ArchiveRoundTrip
  import opened CommitMessage
  import opened WorkerStore
  import opened WorkerMachine
  import opened WorkerSafety

  /** Ending the row's own attempt without a completion leaves a consistent, recorded world. */
  lemma EndingKeeps(setup: Setup, w: World, after: World, outcome: AttemptOutcome)
    requires ValidSetup(setup) && Consistent(setup, w) && HasCurrent(w) && FileIsRecorded(setup, w)
    requires outcome != Running
    requires outcome == Succeeded ==> w.attempts[|w.attempts| - 1].plan.None?
    requires outcome != Recovered
    requires after == EndAttempt(w, |w.attempts| - 1, outcome).(row := after.row)
    requires after.row.token == None
    requires after.row.revision == w.row.revision && after.row.summary == w.row.summary
    requires after.row.markdownHash == w.row.markdownHash
    requires after.row.lifecycle != Processing
    requires after.row.lifecycle == Archived ==> w.row.revision > 0 && !RowIsPlaceholder(w.row)
    requires after.row.retryState.Some? ==> InitialLifecycle(after.row.retryState.value)
    ensures Consistent(setup, after)
  {
    hide Parse, Render, ReadBackSummary, ReadsAs, PlanFits, ValidCommitId;
  }

  lemma IdleKeeps(setup: Setup, before: World, after: World, fate: Fate)
    requires ValidSetup(setup) && Consistent(setup, before) && Consistent(setup, after)
    ensures Inv(setup, Effect(before, after, fate, Idle, Idle))
    ensures Inv(setup, System(before, Idle))
  {
    hide Consistent, ValidSetup;
  }

  lemma KeepsStarting(setup: Setup, s: System, e: Event)
    requires Inv(setup, s) && s.pc == Starting && e.Step?
    ensures Inv(setup, StepStarting(setup, s, e))
  {
    hide Consistent, ValidSetup, Hydrate, Importable;
    if s.world.row.revision == 0 {
      HydrateKeeps(setup, s.world, e.flag);
    }
  }

  lemma HydrateKeeps(setup: Setup, w: World, observed: bool)
    requires ValidSetup(setup) && Consistent(setup, w) && w.row.revision == 0
    ensures Consistent(setup, Hydrate(setup, w, observed))
    ensures Hydrate(setup, w, observed).row.revision == 0 ==>
              Importable(setup, Hydrate(setup, w, observed)).None?
  {
    hide Parse, Render, ReadBackSummary, PlanFor, Renderable;
    if Importable(setup, w).Some? {
      var m := Importable(setup, w).value;
      if FileIsPlanned(w) {
        RenderReads(setup, CurrentPlan(w).rendered);
        ReadBackTwice(CurrentPlan(w).rendered.summary);
      }
      assert m.summaryPlaceholder == m.summary.IsPlaceholder();
      ImportKeepsPlan(setup, w, Hydrate(setup, w, observed), m);
    }
  }

  /** Importing the pending plan's own file keeps that plan fitting the row. */
  lemma ImportKeepsPlan(setup: Setup, w: World, after: World, m: ArchivedMarkdown)
    requires ValidSetup(setup) && Consistent(setup, w) && w.row.revision == 0
    requires Importable(setup, w) == Some(m)
    requires after.attempts == w.attempts && after.row.token == w.row.token
    requires after.row.revision == m.revision && after.row.summary == Some(m.summary)
    ensures PlanIsOwn(setup, after)
  {
    hide Parse, Render, PlanFor, Renderable;
    assert w.file == setup.base ==> w.(file := setup.base) == w;
    if CurrentIsPlanned(w) {
      var r := CurrentPlan(w).rendered;
      if FileIsPlanned(w) {
        RenderReads(setup, r);
        PositiveNumber(setup, r);
        ReadBackTwice(r.summary);
      }
    }
  }

  lemma PositiveNumber(setup: Setup, r: Revision)
    requires Renderable(setup, r)
    ensures r.number > 0
  {
  }

  lemma ReadBackTwice(summary: StructuredSummary)
    ensures ReadBackSummary(ReadBackSummary(summary)) == ReadBackSummary(summary)
    ensures ReadBackSummary(summary).IsPlaceholder() == summary.IsPlaceholder()
  {
  }

  lemma KeepsReconciling(setup: Setup, s: System, e: Event)
    requires Inv(setup, s) && s.pc == Reconciling && e.Step?
    ensures Inv(setup, StepReconciling(setup, s))
  {
    hide Parse, Render, ReadBackSummary, Consistent, Importable;
    if Reconcile(setup, s.world).NothingToReconcile? {
      NothingMeansRecorded(setup, s.world);
    }
  }

  /** When reconciliation finds nothing, the file is the recorded one. */
  lemma NothingMeansRecorded(setup: Setup, w: World)
    requires Consistent(setup, w) && Reconcile(setup, w).NothingToReconcile?
    ensures FileIsRecorded(setup, w)
  {
    hide Parse, Render, ReadBackSummary, AgreesWithPlan, FileIsRecorded, Importable, Renderable;
    if FileIsPlanned(w) {
      PendingIsCurrent(w);
      RenderReads(setup, CurrentPlan(w).rendered);
    }
  }

  lemma KeepsReconcileCommitting(setup: Setup, s: System, e: Event)
    requires Inv(setup, s) && s.pc.ReconcileCommitting? && e.Step?
    ensures Inv(setup, StepReconcileCommitting(setup, s, e))
  {
    hide Consistent, ValidSetup, Reconcile, Commit;
    CommittingLog(setup, s.world, s.pc.found.revision, e.fate);
  }

  /** A log that only grew is still in order. */
  lemma LogGrows(setup: Setup, w: World, log: seq<CommitId>)
    requires Consistent(setup, w) && NoDuplicates(log)
    requires (forall c :: c in log ==> ValidCommitId(c)) && (forall c :: c in w.log ==> c in log)
    ensures Consistent(setup, w.(log := log))
    ensures Reconcile(setup, w.(log := log)) == Reconcile(setup, w)
    ensures FileIsRecorded(setup, w.(log := log)) == FileIsRecorded(setup, w)
  {
    hide Parse, Render, ReadBackSummary, ReadsAs, PlanFits, ValidCommitId;
  }

  lemma KeepsReconcileCompleting(setup: Setup, s: System, e: Event)
    requires Inv(setup, s) && s.pc.ReconcileCompleting? && e.Step?
    ensures Inv(setup, StepReconcileCompleting(s, e))
  {
    hide Inv, Consistent, ValidSetup, Reconcile, Effect, Complete, PersistedFound;
    AtReconcileCompleting(setup, s);
    var id, m := s.pc.id, s.pc.found;
    if m.cursor.Some? {
      FoundCompletes(setup, s.world, id, m, PersistedFound(s.world.attempts[id].plan.value, m), e.flag);
    }
    OptionKeeps(
      setup, s.world, if m.cursor.None? then None else
        Complete(s.world, id, PersistedFound(s.world.attempts[id].plan.value, m), true, m.summaryPlaceholder, e.flag),
      e.fate);
  }

  lemma OptionKeeps(setup: Setup, before: World, after: Option<World>, fate: Fate)
    requires ValidSetup(setup) && Consistent(setup, before) && (after.Some? ==> Consistent(setup, after.value))
    ensures Inv(setup, if after.None? then System(before, Idle) else Effect(before, after.value, fate, Idle, Idle))
  {
    hide Consistent, ValidSetup;
  }

  lemma AtReconcileCompleting(setup: Setup, s: System)
    requires Inv(setup, s) && s.pc.ReconcileCompleting?
    ensures ValidSetup(setup) && Consistent(setup, s.world)
    ensures Reconcile(setup, s.world) == Matches(s.pc.id, s.pc.found)
    ensures s.world.attempts[s.pc.id].plan.value.gitHistory ==>
              CommitIdOf(setup, s.pc.found.revision) in s.world.log
  {
    hide ValidSetup, Consistent, Reconcile;
  }

  lemma FoundCompletes(setup: Setup, w: World, id: nat, m: ArchivedMarkdown, p: Persisted, same: bool)
    requires ValidSetup(setup) && Consistent(setup, w) && Reconcile(setup, w) == Matches(id, m)
    requires w.attempts[id].plan.value.gitHistory ==> CommitIdOf(setup, m.revision) in w.log
    requires m.cursor.Some? && p == PersistedFound(w.attempts[id].plan.value, m)
    ensures var after := Complete(w, id, p, true, m.summaryPlaceholder, same);
            after.Some? ==> Consistent(setup, after.value)
  {
    hide Consistent, ValidSetup, Reconcile, PersistedFound, ReadsAs, CurrentIsPlanned, Restates;
    if Completable(w, id, p) {
      FoundFits(setup, w, id, m);
      FoundReadsAs(setup, w, w.attempts[id].plan.value, m);
      PlannedIsLast(w);
      CompletionKeeps(setup, w, id, p, true, m.summaryPlaceholder, same);
    }
  }

  lemma PlannedIsLast(w: World)
    requires CurrentIsPlanned(w)
    ensures w.attempts != [] && w.attempts[|w.attempts| - 1].plan == Some(CurrentPlan(w))
  {
  }

  /** What reconciliation found fits the row: it reads as the row will say it does. */
  lemma FoundFits(setup: Setup, w: World, id: nat, m: ArchivedMarkdown)
    requires ValidSetup(setup) && Consistent(setup, w)
    requires Reconcile(setup, w) == Matches(id, m) && w.row.token == Some(id)
    ensures id == |w.attempts| - 1 && CurrentIsPlanned(w)
    ensures w.file.Some? && Parse(w.file.value) == Success(m)
    ensures setup.hash(w.file.value) == CurrentPlan(w).markdownHash
    ensures m.sessionId == setup.session && m.revision == CurrentPlan(w).revision && m.revision > 0
    ensures m.summaryPlaceholder == m.summary.IsPlaceholder()
    ensures m.cursor.Some?
  {
    hide Render, ReadBackSummary, Importable, Parse, Renderable;
    ParsedRevisionIsPositive(w.file.value);
    if FileIsPlanned(w) {
      RenderReads(setup, CurrentPlan(w).rendered);
      ReadBackTwice(CurrentPlan(w).rendered.summary);
    } else if w.row.revision > 0 {
      ReadBackTwice(w.row.summary.value);
    }
  }

  lemma FoundReadsAs(setup: Setup, w: World, plan: Plan, m: ArchivedMarkdown)
    requires w.file.Some? && Parse(w.file.value) == Success(m) && m.cursor.Some?
    requires m.sessionId == setup.session && m.summaryPlaceholder == m.summary.IsPlaceholder()
    ensures var p := PersistedFound(plan, m);
            && ReadsAs(setup, w.file.value, p.revision, p.summary)
            && p.summary == m.summary && p.revision == m.revision
            && p.markdownHash == plan.markdownHash && p.gitHistory == plan.gitHistory
  {
    hide Parse, ReadBackSummary;
  }

  /** A completion whose values describe the file keeps everything. */
  lemma CompletionKeeps(
    setup: Setup, w: World, id: nat, p: Persisted, recovered: bool, placeholder: bool, same: bool)
    requires ValidSetup(setup) && Consistent(setup, w) && Completable(w, id, p)
    requires w.file.Some? && p.markdownHash == setup.hash(w.file.value) && p.revision > 0
    requires ReadsAs(setup, w.file.value, p.revision, p.summary)
    requires placeholder == p.summary.IsPlaceholder()
    requires p.gitHistory ==> CommitIdOf(setup, p.revision) in w.log
    ensures Consistent(setup, Complete(w, id, p, recovered, placeholder, same).value)
  {
    hide Parse, Render, ReadBackSummary, Importable, PlanFits, ValidCommitId;
    var after := Complete(w, id, p, recovered, placeholder, same).value;
    hide ReadsAs;
    assert after.attempts[|after.attempts| - 1].outcome != Running;
    assert LogOk(setup, after);
  }

  lemma KeepsGate(setup: Setup, s: System, e: Event)
    requires Inv(setup, s) && s.pc == Gate && e.Step?
    ensures Inv(setup, StepGate(s, e))
  {
    hide Parse, Render, ReadBackSummary, ReadsAs;
    if s.world.row.lifecycle == Processing {
      AbandonKeeps(setup, s.world);
      hide Abandon;
    }
  }

  lemma AbandonKeeps(setup: Setup, w: World)
    requires ValidSetup(setup) && Consistent(setup, w) && FileIsRecorded(setup, w) && w.row.token.Some?
    ensures var after := Abandon(w);
            && Consistent(setup, after) && FileIsRecorded(setup, after)
            && after.row.lifecycle != Processing && after.row.revision == w.row.revision
            && (Importable(setup, w).None? ==> Importable(setup, after).None?)
  {
    hide Parse, Render, ReadBackSummary, ReadsAs;
    NewestIsCurrent(w);
    EndingKeeps(setup, w, Abandon(w), AttemptFailed);
  }

  lemma KeepsClaiming(setup: Setup, s: System, e: Event)
    requires Inv(setup, s) && s.pc == Claiming && e.Step?
    ensures Inv(setup, StepClaiming(s, e))
  {
    hide Parse, Render, ReadBackSummary, ReadsAs, ValidCommitId, PlanFits;
    if Claimable(s.world.row) {
      ClaimKeeps(setup, s.world);
      hide Claim;
    }
  }

  lemma ClaimKeeps(setup: Setup, w: World)
    requires ValidSetup(setup) && Consistent(setup, w) && FileIsRecorded(setup, w) && Claimable(w.row)
    requires w.row.revision == 0 ==> Importable(setup, w).None?
    ensures Consistent(setup, Claim(w)) && Unplanned(setup, Claim(w), |w.attempts|)
    ensures Claim(w).row.revision == w.row.revision && Claim(w).row.summary == w.row.summary
    ensures Claim(w).row.markdownHash == w.row.markdownHash
  {
    hide Parse, Render, ReadBackSummary, ReadsAs, ValidCommitId, PlanFits;
    var after := Claim(w);
    if w.row.revision == 0 {
      assert after.(file := setup.base) == after;
    }
    assert forall i :: 0 <= i < |w.attempts| ==> after.attempts[i] == w.attempts[i];
    assert StatesOk(after);
    assert LogOk(setup, after);
    assert PlanIsOwn(setup, after);
    assert FileIsRecorded(setup, after);
    assert Importable(setup, after.(file := setup.base)).None? || after.row.revision != 0;
  }

  // ----- the claimed attempt

  /** The prior archive of a claimed row is readable unless its summary's work list is the lone
      `None.`; it says what the row says. */
  lemma PriorIsRecorded(setup: Setup, w: World, claimed: Row)
    requires FileIsRecorded(setup, w)
    requires claimed.revision == w.row.revision && claimed.markdownHash == w.row.markdownHash
    ensures match LoadPrior(setup, w, claimed)
            case None => w.row.revision > 0 && w.row.summary.value.workCompleted == ["None."]
            case Some(None) => w.row.revision == 0
            case Some(Some(m)) =>
              && w.row.revision > 0
              && (m.summary == w.row.summary.value || m.summary == ReadBackSummary(w.row.summary.value))
              && m.summaryPlaceholder == RowIsPlaceholder(w.row)
  {
    hide Parse, ReadBackSummary;
  }

  lemma KeepsWorking(setup: Setup, s: System, e: Event)
    requires Inv(setup, s) && s.pc.Working? && e.Step?
    ensures Inv(setup, System(s.world, Decide(setup, s.world, s.pc.id, s.pc.claimed, e.input)))
  {
    var w, id, claimed := s.world, s.pc.id, s.pc.claimed;
    assert Unplanned(setup, w, id) && Consistent(setup, w) && ValidSetup(setup);
    assert claimed.revision == w.row.revision && claimed.summary == w.row.summary;
    assert claimed.markdownHash == w.row.markdownHash;
    hide Consistent, ValidSetup, Unplanned, Inv;
    DecideFits(setup, w, id, claimed, e.input);
    hide Decide;
    DecidedKeeps(setup, w, id, Decide(setup, w, id, claimed, e.input));
  }

  /** What the worker may go on with after reading the prior archive. */
  predicate Decided(setup: Setup, w: World, id: nat, next: Pc) {
    match next
    case Planning(i, d) => i == id && DraftFits(setup, w, d) && d.previous == w.file
    case Settling(i, noChange, _) => i == id && (noChange ==> w.row.revision > 0 && !RowIsPlaceholder(w.row))
    case Failing(i, _) => i == id
    case Deferring => true
    case _ => false
  }

  lemma DecidedKeeps(setup: Setup, w: World, id: nat, next: Pc)
    requires ValidSetup(setup) && Consistent(setup, w) && Unplanned(setup, w, id) && Decided(setup, w, id, next)
    ensures Inv(setup, System(w, next))
  {
    hide Consistent, ValidSetup, FileIsRecorded, DraftFits;
  }

  lemma DecideFits(setup: Setup, w: World, id: nat, claimed: Row, input: Input)
    requires Unplanned(setup, w, id)
    requires claimed.revision == w.row.revision && claimed.summary == w.row.summary
    requires claimed.markdownHash == w.row.markdownHash
    ensures Decided(setup, w, id, Decide(setup, w, id, claimed, input))
    ensures var next := Decide(setup, w, id, claimed, input);
            next.Planning? ==> (next.draft.cursorOnly <==> input.CursorOnlyInput?)
  {
    PriorIsRecorded(setup, w, claimed);
    DecideKind(setup, w, id, claimed, input);
    hide Unplanned, LoadPrior, FileIsRecorded, DecideWith, Decided, ReadBackSummary, RowIsPlaceholder;
    var prior := LoadPrior(setup, w, claimed);
    if prior.Some? && claimed.revision + 1 < U64_BOUND {
      DecideWithFits(setup, w, id, claimed, prior.value, input);
    }
    hide Decide;
    assert Decided(setup, w, id, Failing(id, false)) by { FailingIsDecided(setup, w, id, false); }
  }

  lemma DecideKind(setup: Setup, w: World, id: nat, claimed: Row, input: Input)
    ensures var next := Decide(setup, w, id, claimed, input);
            next.Planning? ==> (next.draft.cursorOnly <==> input.CursorOnlyInput?)
  {
    hide LoadPrior, Renderable, StructuredSummary.IsPlaceholder;
  }

  lemma FailingIsDecided(setup: Setup, w: World, id: nat, park: bool)
    ensures Decided(setup, w, id, Failing(id, park))
  {
  }

  lemma DecideWithFits(
    setup: Setup, w: World, id: nat, claimed: Row, prior: Option<ArchivedMarkdown>, input: Input)
    requires claimed.revision + 1 < U64_BOUND
    requires claimed.revision == w.row.revision && claimed.summary == w.row.summary
    requires prior.None? ==> w.row.revision == 0
    requires prior.Some? ==>
               && w.row.revision > 0 && w.row.summary.Some?
               && (prior.value.summary == w.row.summary.value
                   || prior.value.summary == ReadBackSummary(w.row.summary.value))
               && prior.value.summaryPlaceholder == RowIsPlaceholder(w.row)
    ensures Decided(setup, w, id, DecideWith(setup, w.file, id, claimed, prior, input))
  {
    hide Renderable, ReadBackSummary, StructuredSummary.IsPlaceholder, PlanFits;
    match input
    case SummarisedInput(r, _, _) =>
      var revision := r.(number := claimed.revision + 1);
      if Renderable(setup, revision) && !revision.summary.IsPlaceholder() {
        NextRevisionFits(setup, claimed.revision, w.row.summary, revision);
      }
    case CursorOnlyInput(r, _) =>
      if prior.Some? && !prior.value.summaryPlaceholder {
        var revision := r.(number := claimed.revision, summary := prior.value.summary);
        if Renderable(setup, revision) {
          CursorOnlyFits(setup, claimed.revision, w.row.summary, revision);
        }
      }
    case RejectedInput(r, _, _, _) =>
      var revision := r.(number := claimed.revision + 1);
      if FloorApplies(claimed, prior) && Renderable(setup, revision) {
        NextRevisionFits(setup, claimed.revision, w.row.summary, revision);
      }
    case _ =>
  }

  lemma NextRevisionFits(setup: Setup, revision: nat, summary: Option<StructuredSummary>, r: Revision)
    requires r.number == revision + 1 && Renderable(setup, r)
    requires r.summary.IsPlaceholder() ==> revision == 0 || SummaryIsPlaceholder(summary)
    ensures PlanFits(setup, revision, summary, r)
  {
    hide Renderable, StructuredSummary.IsPlaceholder;
  }

  lemma CursorOnlyFits(setup: Setup, revision: nat, summary: Option<StructuredSummary>, r: Revision)
    requires r.number == revision && Renderable(setup, r) && summary.Some?
    requires r.summary == summary.value || r.summary == ReadBackSummary(summary.value)
    requires !summary.value.IsPlaceholder()
    ensures PlanFits(setup, revision, summary, r) && !r.summary.IsPlaceholder()
  {
    ReadBackTwice(summary.value);
    hide Renderable, StructuredSummary.IsPlaceholder, ReadBackSummary;
  }

  lemma KeepsPlanning(setup: Setup, s: System, e: Event)
    requires Inv(setup, s) && s.pc.Planning? && e.Step?
    ensures Inv(setup, StepPlanning(setup, s, e))
  {
    hide Parse, Render, ReadBackSummary, ReadsAs, PlanFits, ValidCommitId;
    var id, d := s.pc.id, s.pc.draft;
    assert IsRunning(s.world, id);
    PlanningKeeps(setup, s.world, id, d);
    hide Consistent, FileIsRecorded;
  }

  lemma PlanningKeeps(setup: Setup, w: World, id: nat, d: Draft)
    requires ValidSetup(setup) && Consistent(setup, w) && Unplanned(setup, w, id)
    requires DraftFits(setup, w, d) && IsRunning(w, id)
    ensures var after := StorePlan(w, id, PlanFor(d.rendered, d.gitHistory, setup.hash)).value;
            && Consistent(setup, after) && FileIsRecorded(setup, after) && Planned(setup, after, id, d)
            && after.file == w.file
  {
    hide Parse, Render, ReadBackSummary, ReadsAs, PlanFits, ValidCommitId;
  }

  lemma KeepsVerdict(setup: Setup, s: System, e: Event)
    requires Inv(setup, s) && s.pc.Verdict? && e.Step?
    ensures Inv(setup, StepVerdict(s, e))
  {
    hide Parse, Render, ReadBackSummary, ReadsAs, PlanFits, ValidCommitId, PlanFor;
  }

  lemma KeepsWriting(setup: Setup, s: System, e: Event)
    requires Inv(setup, s) && s.pc.Writing? && e.Step?
    ensures Inv(setup, StepWriting(setup, s, e))
  {
    hide Parse, Render, ReadBackSummary, ReadsAs, PlanFits, ValidCommitId;
    WritingKeeps(setup, s.world, s.pc.id, s.pc.draft);
    hide Consistent;
  }

  lemma WritingKeeps(setup: Setup, w: World, id: nat, d: Draft)
    requires ValidSetup(setup) && Consistent(setup, w) && Planned(setup, w, id, d)
    requires FileIsRecorded(setup, w) && d.previous == w.file
    ensures var after := w.(file := Some(Render(d.rendered)));
            Consistent(setup, after) && Written(setup, after, id, d)
  {
    hide Parse, Render, ReadBackSummary, ReadsAs, PlanFits, ValidCommitId;
    var after := w.(file := Some(Render(d.rendered)));
    assert after.(file := d.previous) == w;
    assert after.(file := setup.base) == w.(file := setup.base);
  }

  lemma KeepsCommitting(setup: Setup, s: System, e: Event)
    requires Inv(setup, s) && s.pc.Committing? && e.Step?
    ensures Inv(setup, StepCommitting(setup, s, e))
  {
    var id := CommitIdOf(setup, s.pc.draft.rendered.number);
    var log := Commit(s.world.log, id, e.fate).0;
    assert Written(setup, s.world, s.pc.id, s.pc.draft) && Consistent(setup, s.world) && ValidSetup(setup);
    hide Inv, Written;
    CommittingLog(setup, s.world, s.pc.draft.rendered.number, e.fate);
    hide Consistent, ValidSetup, Commit;
    LogGrowsWritten(setup, s.world, log, s.pc.id, s.pc.draft);
    CommittedKeeps(setup, s.world.(log := log), s.pc.id, s.pc.draft, Commit(s.world.log, id, e.fate).1);
  }

  lemma CommittedKeeps(setup: Setup, w: World, id: nat, d: Draft, ok: bool)
    requires ValidSetup(setup) && Consistent(setup, w) && Written(setup, w, id, d)
    requires ok ==> CommitIdOf(setup, d.rendered.number) in w.log
    ensures Inv(setup, System(w, if ok then Completing(id, d) else RollingBack(id, d)))
  {
    hide ValidSetup, Consistent, Written;
  }

  /** Committing one of this session's revisions, whatever becomes of the command. */
  lemma CommittingLog(setup: Setup, w: World, revision: nat, fate: Fate)
    requires ValidSetup(setup) && Consistent(setup, w)
    ensures var (log, ok) := Commit(w.log, CommitIdOf(setup, revision), fate);
            && Consistent(setup, w.(log := log))
            && Reconcile(setup, w.(log := log)) == Reconcile(setup, w)
            && (ok ==> CommitIdOf(setup, revision) in log)
  {
    hide Reconcile, HasCurrent, FileIsRecorded, FileIsPlanned, PlanIsOwn, StatesOk, Importable, RowIsPlaceholder;
    var id := CommitIdOf(setup, revision);
    CommitKeeps(w.log, id, fate);
    hide Commit, ValidCommitId, NoDuplicates, Consistent;
    LogGrows(setup, w, Commit(w.log, id, fate).0);
  }

  lemma LogGrowsWritten(setup: Setup, w: World, log: seq<CommitId>, id: nat, d: Draft)
    requires Written(setup, w, id, d)
    ensures Written(setup, w.(log := log), id, d)
  {
    hide Parse, Render, ReadBackSummary, ReadsAs, PlanFits, PlanFor;
  }

  lemma KeepsRollingBack(setup: Setup, s: System, e: Event)
    requires Inv(setup, s) && s.pc.RollingBack? && e.Step?
    ensures Inv(setup, StepRollingBack(s, e))
  {
    hide Parse, Render, ReadBackSummary, ReadsAs, PlanFits, ValidCommitId, PlanFor;
    var after := s.world.(file := s.pc.draft.previous);
    assert after.(file := setup.base) == s.world.(file := setup.base);
  }

  lemma KeepsCompleting(setup: Setup, s: System, e: Event)
    requires Inv(setup, s) && s.pc.Completing? && e.Step?
    ensures Inv(setup, StepCompleting(setup, s, e))
  {
    var w, id, d := s.world, s.pc.id, s.pc.draft;
    hide Inv, AtPc, Consistent, ValidSetup, Written, Effect, Complete, PersistedDraft;
    AtCompleting(setup, s);
    IdleKeeps(setup, w, w, e.fate);
    DraftCompletes(setup, w, id, d);
    var after := Complete(w, id, PersistedDraft(d, setup.hash), false, d.placeholder, d.sameGeneration);
    if after.Some? {
      IdleKeeps(setup, w, after.value, e.fate);
    }
  }

  lemma AtCompleting(setup: Setup, s: System)
    requires Inv(setup, s) && s.pc.Completing?
    ensures ValidSetup(setup) && Consistent(setup, s.world) && Written(setup, s.world, s.pc.id, s.pc.draft)
    ensures s.pc.draft.gitHistory ==> CommitIdOf(setup, s.pc.draft.rendered.number) in s.world.log
  {
    hide ValidSetup, Consistent, Written;
  }

  lemma DraftCompletes(setup: Setup, w: World, id: nat, d: Draft)
    requires ValidSetup(setup) && Consistent(setup, w) && Written(setup, w, id, d)
    requires d.gitHistory ==> CommitIdOf(setup, d.rendered.number) in w.log
    ensures var after := Complete(w, id, PersistedDraft(d, setup.hash), false, d.placeholder, d.sameGeneration);
            after.Some? ==> Consistent(setup, after.value)
  {
    assert w.file.Some?;
    hide Consistent, ValidSetup, Written, PersistedDraft, ReadsAs, Restates, Render;
    var p := PersistedDraft(d, setup.hash);
    if Completable(w, id, p) {
      DraftReadsAs(setup, w, id, d);
      CompletionKeeps(setup, w, id, p, false, d.placeholder, d.sameGeneration);
    }
  }

  lemma DraftReadsAs(setup: Setup, w: World, id: nat, d: Draft)
    requires Written(setup, w, id, d)
    ensures var p := PersistedDraft(d, setup.hash);
            && ReadsAs(setup, w.file.value, p.revision, p.summary) && p.revision > 0
            && p.markdownHash == setup.hash(w.file.value) && d.placeholder == p.summary.IsPlaceholder()
            && p.revision == d.rendered.number && p.gitHistory == d.gitHistory
  {
    RenderReads(setup, d.rendered);
    PositiveNumber(setup, d.rendered);
    hide Parse, Render, ReadBackSummary, WellFormed;
  }

  lemma KeepsFailing(setup: Setup, s: System, e: Event)
    requires Inv(setup, s) && s.pc.Failing? && e.Step?
    ensures Inv(setup, StepFailing(s, e))
  {
    hide Parse, Render, ReadBackSummary, ReadsAs, PlanFits;
    var after := FailAttempt(s.world, s.pc.id, s.pc.park || e.flag);
    EndingKeeps(setup, s.world, after, AttemptFailed);
    hide FailAttempt;
  }

  lemma KeepsDeferring(setup: Setup, s: System, e: Event)
    requires Inv(setup, s) && s.pc == Deferring && e.Step?
    ensures Inv(setup, Effect(s.world, Abandon(s.world), e.fate, Idle, Idle))
  {
    assert s.world.row.token.Some? && FileIsRecorded(setup, s.world);
    hide Inv, Abandon, Consistent, ValidSetup, FileIsRecorded, Importable;
    AbandonKeeps(setup, s.world);
    IdleKeeps(setup, s.world, Abandon(s.world), e.fate);
  }

  lemma KeepsSettling(setup: Setup, s: System, e: Event)
    requires Inv(setup, s) && s.pc.Settling? && e.Step?
    ensures Inv(setup, StepSettling(s, e))
  {
    hide Parse, Render, ReadBackSummary, ReadsAs, PlanFits;
    var after :=
      if s.pc.noChange then CompleteNoChange(s.world, s.pc.id, s.pc.sameGeneration)
      else CompleteNotWorthy(s.world, s.pc.id);
    EndingKeeps(setup, s.world, after, if s.pc.noChange then Superseded else Succeeded);
    hide CompleteNoChange, CompleteNotWorthy, Consistent;
  }

  // ----- requeueing

  lemma RequeueKeeps(setup: Setup, s: System, lifecycle: Lifecycle)
    requires Inv(setup, s)
    ensures Inv(setup, s.(world := StepRequeue(s.world, lifecycle)))
  {
    hide Consistent, ValidSetup, AtPc, StepRequeue;
    RequeueConsistent(setup, s.world, lifecycle);
    RequeueAtPc(setup, s, lifecycle);
  }

  lemma RequeueAtPc(setup: Setup, s: System, lifecycle: Lifecycle)
    requires AtPc(setup, s)
    ensures AtPc(setup, s.(world := StepRequeue(s.world, lifecycle)))
  {
    hide Reconcile, Importable, ReadsAs, PlanFits, PlanFor, Render;
    RequeueReconciles(setup, s.world, lifecycle);
  }

  lemma RequeueConsistent(setup: Setup, w: World, lifecycle: Lifecycle)
    requires Consistent(setup, w)
    ensures Consistent(setup, StepRequeue(w, lifecycle))
  {
    hide Parse, Render, ReadBackSummary, ReadsAs, PlanFits, ValidCommitId;
  }

  lemma RequeueReconciles(setup: Setup, w: World, lifecycle: Lifecycle)
    ensures Reconcile(setup, StepRequeue(w, lifecycle)) == Reconcile(setup, w)
    ensures Importable(setup, StepRequeue(w, lifecycle)) == Importable(setup, w)
  {
    hide Parse, AgreesWithPlan;
  }

  // ----- every event

  /** The invariant survives every event. */
  lemma NextKeeps(setup: Setup, s: System, e: Event)
    requires Inv(setup, s)
    ensures Inv(setup, Next(setup, s, e))
  {
    match e
    case Wake => hide Consistent;
    case Crash => hide Consistent;
    case Requeue(lifecycle) => RequeueKeeps(setup, s, lifecycle); hide Inv;
    case Step(_, _, _) => StepKeeps(setup, s, e); hide Inv;
  }

  lemma StepKeeps(setup: Setup, s: System, e: Event)
    requires Inv(setup, s) && e.Step?
    ensures Inv(setup, StepWorker(setup, s, e))
  {
    hide Inv, StepStarting, StepReconciling, StepReconcileCommitting, StepReconcileCompleting;
    hide StepGate, StepClaiming, Decide, StepPlanning, StepVerdict, StepWriting, StepCommitting;
    hide StepRollingBack, StepCompleting, StepFailing, Effect, StepSettling;
    match s.pc
    case Idle =>
    case Starting => KeepsStarting(setup, s, e);
    case Reconciling => KeepsReconciling(setup, s, e);
    case ReconcileCommitting(_, _) => KeepsReconcileCommitting(setup, s, e);
    case ReconcileCompleting(_, _) => KeepsReconcileCompleting(setup, s, e);
    case Gate => KeepsGate(setup, s, e);
    case Claiming => KeepsClaiming(setup, s, e);
    case Working(_, _) => KeepsWorking(setup, s, e);
    case Planning(_, _) => KeepsPlanning(setup, s, e);
    case Verdict(_, _) => KeepsVerdict(setup, s, e);
    case Writing(_, _) => KeepsWriting(setup, s, e);
    case Committing(_, _) => KeepsCommitting(setup, s, e);
    case RollingBack(_, _) => KeepsRollingBack(setup, s, e);
    case Completing(_, _) => KeepsCompleting(setup, s, e);
    case Failing(_, _) => KeepsFailing(setup, s, e);
    case Deferring => KeepsDeferring(setup, s, e);
    case Settling(_, _, _) => KeepsSettling(setup, s, e);
  }

  lemma {:induction false} RunKeeps(setup: Setup, s: System, events: seq<Event>)
    requires Inv(setup, s)
    ensures Inv(setup, Run(setup, s, events))
    decreases |events|
  {
    hide Inv, Next;
    if events != [] {
      NextKeeps(setup, s, events[0]);
      RunKeeps(setup, Next(setup, s, events[0]), events[1..]);
    }
  }

  lemma InitialInv(setup: Setup, lifecycle: Lifecycle)
    requires ValidSetup(setup) && InitialLifecycle(lifecycle)
    ensures Inv(setup, Initial(setup, lifecycle))
  {
    hide Parse;
  }
}
