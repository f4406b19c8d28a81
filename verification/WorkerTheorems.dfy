/** What the archive worker guarantees over every run: any sequence of wake-ups, effects that work,
    fail or lose their answer, crashes between any two of them, and requeues. */
module WorkerTheorems {
  import opened Wrappers
  import opened Summary
  import opened ArchiveRecord
  import opened ArchiveReader
  import opened ArchiveRoundTrip
  import opened CommitMessage
  import opened WorkerStore
  import opened WorkerMachine
  import opened WorkerSafety
  import opened WorkerSteps

  function Reached(setup: Setup, lifecycle: Lifecycle, events: seq<Event>): World {
    Run(setup, Initial(setup, lifecycle), events).world
  }

  lemma ReachedIsConsistent(setup: Setup, lifecycle: Lifecycle, events: seq<Event>)
    requires ValidSetup(setup) && InitialLifecycle(lifecycle)
    ensures Consistent(setup, Reached(setup, lifecycle, events))
  {
    hide Consistent, ValidSetup, Run;
    InitialInv(setup, lifecycle);
    RunKeeps(setup, Initial(setup, lifecycle), events);
    hide AtPc;
  }

  /** Crash consistency: the file is the recorded one or the pending plan's content, and with no plan
      pending it is exactly the recorded one. */
  lemma CrashConsistency(setup: Setup, lifecycle: Lifecycle, events: seq<Event>)
    requires ValidSetup(setup) && InitialLifecycle(lifecycle)
    ensures var w := Reached(setup, lifecycle, events);
            && (FileIsRecorded(setup, w)
                || (PendingPlan(w).Some?
                    && w.row.token == PendingPlan(w)
                    && w.file == Some(Render(w.attempts[PendingPlan(w).value].plan.value.rendered))
                    && w.attempts[PendingPlan(w).value].plan.value.markdownHash == setup.hash(w.file.value)))
            && (PendingPlan(w).None? ==> FileIsRecorded(setup, w))
  {
    ReachedIsConsistent(setup, lifecycle, events);
    var w := Reached(setup, lifecycle, events);
    hide Reached;
    PlannedIsPending(setup, w);
    hide Consistent, FileIsRecorded, Render;
  }

  lemma PlannedIsPending(setup: Setup, w: World)
    requires Consistent(setup, w)
    ensures FileIsRecorded(setup, w) || FileIsPlanned(w)
    ensures FileIsPlanned(w) ==>
              && PendingPlan(w) == Some(|w.attempts| - 1) && w.row.token == PendingPlan(w)
              && w.file == Some(Render(CurrentPlan(w).rendered))
              && CurrentPlan(w).markdownHash == setup.hash(w.file.value)
  {
    hide Parse, Render, ReadsAs, FileIsRecorded, Importable, PlanFits, LogOk, StatesOk;
    if FileIsPlanned(w) {
      PendingIsCurrent(w);
    }
  }

  /** The prior archive of a claimed session is refused only when the recorded summary's work list
      is the lone `None.`, so never for its hash, its session or its revision. */
  lemma PriorIsRefusedOnlyForNone(setup: Setup, lifecycle: Lifecycle, events: seq<Event>)
    requires ValidSetup(setup) && InitialLifecycle(lifecycle)
    ensures var s := Run(setup, Initial(setup, lifecycle), events);
            s.pc.Working? && LoadPrior(setup, s.world, s.pc.claimed).None? ==>
              s.world.row.summary.Some? && s.world.row.summary.value.workCompleted == ["None."]
  {
    hide Run, Consistent, ValidSetup, ReadsAs, FileIsRecorded, LoadPrior, AtPc, Inv;
    InitialInv(setup, lifecycle);
    RunKeeps(setup, Initial(setup, lifecycle), events);
    var s := Run(setup, Initial(setup, lifecycle), events);
    if s.pc.Working? {
      AtWorking(setup, s);
      PriorIsRecorded(setup, s.world, s.pc.claimed);
      if LoadPrior(setup, s.world, s.pc.claimed).None? {
        RecordedHasSummary(setup, s.world);
      }
    }
  }

  lemma AtWorking(setup: Setup, s: System)
    requires Inv(setup, s) && s.pc.Working?
    ensures FileIsRecorded(setup, s.world)
    ensures s.pc.claimed.revision == s.world.row.revision && s.pc.claimed.markdownHash == s.world.row.markdownHash
  {
    hide Consistent, ValidSetup, FileIsRecorded;
  }

  lemma RecordedHasSummary(setup: Setup, w: World)
    requires FileIsRecorded(setup, w) && w.row.revision > 0
    ensures w.row.summary.Some?
  {
  }

  // ----- revisions and placeholders

  /** How a step may move the recorded revision: not at all, keeping what its summary says; by one;
      or from nothing to what an imported archive states. */
  predicate Advances(before: Row, after: Row) {
    || (after.revision == before.revision
        && (after.summary == before.summary
            || (after.summary.Some? && before.summary.Some?
                && ReadBackSummary(after.summary.value) == ReadBackSummary(before.summary.value))))
    || after.revision == before.revision + 1
    || (before.revision == 0 && after.revision > 0)
  }

  predicate IsReal(row: Row) {
    row.revision > 0 && row.summary.Some? && !row.summary.value.IsPlaceholder()
  }

  predicate MovesRow(pc: Pc) {
    pc.Starting? || pc.ReconcileCompleting? || pc.Completing?
  }

  lemma QuietStep(setup: Setup, s: System, e: Event)
    requires !e.Step? || !MovesRow(s.pc)
    ensures Next(setup, s, e).world.row.revision == s.world.row.revision
    ensures Next(setup, s, e).world.row.summary == s.world.row.summary
    ensures Next(setup, s, e).world.row.markdownHash == s.world.row.markdownHash
  {
    hide Decide, Reconcile, Commit, PlanFor, Render, Claimable;
  }

  lemma CompleteAdvances(setup: Setup, w: World, id: nat, p: Persisted, recovered: bool, placeholder: bool, same: bool)
    requires Consistent(setup, w) && Completable(w, id, p)
    requires || ReadBackSummary(p.summary) == ReadBackSummary(w.attempts[id].plan.value.rendered.summary)
             || w.row.revision == 0
             || (p.revision == w.row.revision && w.row.summary.Some?
                 && ReadBackSummary(p.summary) == ReadBackSummary(w.row.summary.value))
    ensures var row := Complete(w, id, p, recovered, placeholder, same).value.row;
            && Advances(w.row, row)
            && w.row.revision <= row.revision <= w.row.revision + 1
            && (IsReal(w.row) ==> IsReal(row))
  {
    hide Parse, Render, ReadsAs, FileIsRecorded, FileIsPlanned, Importable, LogOk, StatesOk, Renderable, ReadBackSummary;
    assert CurrentIsPlanned(w) && id == |w.attempts| - 1;
    var r := w.attempts[id].plan.value.rendered;
    assert w.attempts[id].plan.value.revision == r.number;
    assert PlanFits(setup, w.row.revision, w.row.summary, r);
    hide Consistent, PlanIsOwn;
    PositiveNumber(setup, r);
    ReadBackTwice(p.summary);
    ReadBackTwice(w.attempts[id].plan.value.rendered.summary);
    if w.row.summary.Some? {
      ReadBackTwice(w.row.summary.value);
    }
    hide StructuredSummary.IsPlaceholder;
  }

  /** The plan an event completes, if it completes one: the transaction lands. */
  function Completion(setup: Setup, s: System, e: Event): Option<Plan> {
    if !e.Step? || e.fate == Refuses then None
    else match s.pc
      case ReconcileCompleting(id, m) =>
        if id < |s.world.attempts| && s.world.attempts[id].plan.Some? && m.cursor.Some?
           && Completable(s.world, id, PersistedFound(s.world.attempts[id].plan.value, m))
        then s.world.attempts[id].plan else None
      case Completing(id, d) =>
        if Completable(s.world, id, PersistedDraft(d, setup.hash)) then s.world.attempts[id].plan else None
      case _ => None
  }

  /** A completed attempt raises the revision by one; a cursor-only one raises it by nothing and keeps
      what the recorded summary says. */
  lemma DraftAdvances(setup: Setup, s: System, e: Event)
    requires Inv(setup, s) && s.pc.Completing? && e.Step?
    ensures var row := StepCompleting(setup, s, e).world.row;
            && Advances(s.world.row, row) && s.world.row.revision <= row.revision <= s.world.row.revision + 1
            && (IsReal(s.world.row) ==> IsReal(row))
            && (Completion(setup, s, e).None? ==> row == s.world.row)
            && (Completion(setup, s, e).Some? ==>
                  && row.revision == s.world.row.revision + (if s.pc.draft.cursorOnly then 0 else 1)
                  && row.summary == Some(s.pc.draft.rendered.summary)
                  && (s.pc.draft.cursorOnly ==>
                        && s.world.row.summary.Some?
                        && ReadBackSummary(row.summary.value) == ReadBackSummary(s.world.row.summary.value)))
  {
    DraftKind(setup, s, e);
    hide Inv, Consistent, ValidSetup, Written, Completion;
    AtCompleting(setup, s);
    var w, id, d := s.world, s.pc.id, s.pc.draft;
    var p := PersistedDraft(d, setup.hash);
    if Completable(w, id, p) {
      WrittenIsPlan(setup, w, id, d);
      CompleteAdvances(setup, w, id, p, false, d.placeholder, d.sameGeneration);
    }
    hide Completable, PersistedDraft, ReadBackSummary, StructuredSummary.IsPlaceholder;
  }

  lemma DraftKind(setup: Setup, s: System, e: Event)
    requires Inv(setup, s) && s.pc.Completing? && e.Step?
    ensures var row := StepCompleting(setup, s, e).world.row;
            && (Completion(setup, s, e).None? ==> row == s.world.row)
            && (Completion(setup, s, e).Some? ==>
                  && row.revision == s.world.row.revision + (if s.pc.draft.cursorOnly then 0 else 1)
                  && row.summary == Some(s.pc.draft.rendered.summary)
                  && (s.pc.draft.cursorOnly ==>
                        && s.world.row.summary.Some?
                        && ReadBackSummary(row.summary.value) == ReadBackSummary(s.world.row.summary.value)))
  {
    hide Inv, Consistent, ValidSetup, Written, ReadBackSummary;
    AtCompleting(setup, s);
    WrittenIsPlan(setup, s.world, s.pc.id, s.pc.draft);
    hide Restates, PersistedDraft, PlanFor;
  }

  lemma WrittenIsPlan(setup: Setup, w: World, id: nat, d: Draft)
    requires Written(setup, w, id, d)
    ensures id < |w.attempts| && w.attempts[id].plan == Some(PlanFor(d.rendered, d.gitHistory, setup.hash))
    ensures PersistedDraft(d, setup.hash).summary == d.rendered.summary
    ensures PersistedDraft(d, setup.hash).revision == d.rendered.number
    ensures d.rendered.number == w.row.revision + (if d.cursorOnly then 0 else 1)
    ensures d.cursorOnly ==> w.row.summary.Some?
                             && ReadBackSummary(d.rendered.summary) == ReadBackSummary(w.row.summary.value)
  {
    hide FileIsRecorded, Render, Renderable, ReadBackSummary, StructuredSummary.IsPlaceholder;
  }

  /** What reconciliation found says what the plan or the row says. */
  lemma FoundSays(setup: Setup, w: World, id: nat, m: ArchivedMarkdown)
    requires ValidSetup(setup) && Consistent(setup, w)
    requires Reconcile(setup, w) == Matches(id, m) && w.row.token == Some(id)
    ensures id < |w.attempts| && w.attempts[id].plan.Some?
    ensures || ReadBackSummary(m.summary) == ReadBackSummary(w.attempts[id].plan.value.rendered.summary)
            || w.row.revision == 0
            || (m.revision == w.row.revision && w.row.summary.Some?
                && ReadBackSummary(m.summary) == ReadBackSummary(w.row.summary.value))
  {
    hide Consistent, ValidSetup, Reconcile, FileIsRecorded, FileIsPlanned, PlanIsOwn, Parse, Render, ReadBackSummary;
    FoundFits(setup, w, id, m);
    ConsistentFile(setup, w);
    if FileIsPlanned(w) {
      PlannedSays(setup, w, m);
      PlannedIsLast(w);
    } else if w.row.revision > 0 {
      RecordedSays(setup, w, m);
    }
    hide CurrentIsPlanned;
  }

  lemma ConsistentFile(setup: Setup, w: World)
    requires Consistent(setup, w)
    ensures (FileIsRecorded(setup, w) || FileIsPlanned(w)) && PlanIsOwn(setup, w)
  {
    hide FileIsRecorded, FileIsPlanned, PlanIsOwn, LogOk, StatesOk, Importable, HasCurrent;
  }

  lemma PlannedSays(setup: Setup, w: World, m: ArchivedMarkdown)
    requires PlanIsOwn(setup, w) && FileIsPlanned(w) && Parse(w.file.value) == Success(m)
    ensures CurrentIsPlanned(w)
    ensures ReadBackSummary(m.summary) == ReadBackSummary(CurrentPlan(w).rendered.summary)
  {
    PlannedRenderable(setup, w);
    hide PlanIsOwn, Renderable, Parse, Render;
    RenderReads(setup, CurrentPlan(w).rendered);
    ReadBackTwice(CurrentPlan(w).rendered.summary);
    hide ReadBackSummary;
  }

  lemma PlannedRenderable(setup: Setup, w: World)
    requires PlanIsOwn(setup, w) && CurrentIsPlanned(w)
    ensures Renderable(setup, CurrentPlan(w).rendered)
  {
    hide Renderable;
  }

  lemma RecordedSays(setup: Setup, w: World, m: ArchivedMarkdown)
    requires FileIsRecorded(setup, w) && w.row.revision > 0 && Parse(w.file.value) == Success(m)
    ensures w.row.summary.Some? && m.revision == w.row.revision
    ensures ReadBackSummary(m.summary) == ReadBackSummary(w.row.summary.value)
  {
    ReadBackTwice(w.row.summary.value);
    hide Parse, ReadBackSummary;
  }

  /** A reconciled attempt does too. */
  lemma FoundAdvances(setup: Setup, s: System, e: Event)
    requires Inv(setup, s) && s.pc.ReconcileCompleting? && e.Step?
    ensures var row := StepReconcileCompleting(s, e).world.row;
            && Advances(s.world.row, row) && s.world.row.revision <= row.revision <= s.world.row.revision + 1
            && (IsReal(s.world.row) ==> IsReal(row))
  {
    hide Inv, Consistent, ValidSetup, Reconcile, PersistedFound;
    AtReconcileCompleting(setup, s);
    var w, id, m := s.world, s.pc.id, s.pc.found;
    if m.cursor.Some? {
      var p := PersistedFound(w.attempts[id].plan.value, m);
      if Completable(w, id, p) {
        FoundSays(setup, w, id, m);
        FoundSummary(w.attempts[id].plan.value, m);
        CompleteAdvances(setup, w, id, p, true, m.summaryPlaceholder, e.flag);
      }
    }
    hide Completable, ReadBackSummary, StructuredSummary.IsPlaceholder;
  }

  lemma FoundSummary(plan: Plan, m: ArchivedMarkdown)
    requires m.cursor.Some?
    ensures PersistedFound(plan, m).summary == m.summary && PersistedFound(plan, m).revision == m.revision
  {
  }

  lemma StartingAdvances(setup: Setup, s: System, e: Event)
    requires s.pc == Starting && e.Step?
    ensures var row := StepStarting(setup, s, e).world.row;
            Advances(s.world.row, row) && s.world.row.revision <= row.revision && (IsReal(s.world.row) ==> IsReal(row))
  {
    hide Parse, ReadBackSummary, StructuredSummary.IsPlaceholder;
  }

  /** Every event moves the recorded revision forward, by one at most once there is one, and never
      puts a placeholder over a real summary. */
  lemma NextAdvances(setup: Setup, s: System, e: Event)
    requires Inv(setup, s)
    ensures Advances(s.world.row, Next(setup, s, e).world.row)
    ensures s.world.row.revision <= Next(setup, s, e).world.row.revision
    ensures IsReal(s.world.row) ==> IsReal(Next(setup, s, e).world.row)
  {
    hide Inv, StepStarting, StepReconcileCompleting, StepCompleting, ReadBackSummary, StructuredSummary.IsPlaceholder;
    if e.Step? && MovesRow(s.pc) {
      match s.pc
      case Starting => StartingAdvances(setup, s, e);
      case ReconcileCompleting(_, _) => FoundAdvances(setup, s, e);
      case Completing(_, _) => DraftAdvances(setup, s, e);
    } else {
      QuietStep(setup, s, e);
    }
    hide StepWorker;
  }

  /** Over any run the revision never goes back, and once a real summary is recorded every later
      record is a real summary. */
  lemma {:induction false} RunsAdvance(setup: Setup, s: System, events: seq<Event>)
    requires Inv(setup, s)
    ensures s.world.row.revision <= Run(setup, s, events).world.row.revision
    ensures IsReal(s.world.row) ==> IsReal(Run(setup, s, events).world.row)
    decreases |events|
  {
    hide Inv, Next, IsReal, Advances;
    if events != [] {
      NextKeeps(setup, s, events[0]);
      NextAdvances(setup, s, events[0]);
      RunsAdvance(setup, Next(setup, s, events[0]), events[1..]);
    }
  }

  /** After any run, one more event of any kind does the same. */
  lemma EveryEventAdvances(setup: Setup, lifecycle: Lifecycle, events: seq<Event>, e: Event)
    requires ValidSetup(setup) && InitialLifecycle(lifecycle)
    ensures var s := Run(setup, Initial(setup, lifecycle), events);
            var after := Next(setup, s, e);
            && Advances(s.world.row, after.world.row)
            && s.world.row.revision <= after.world.row.revision
            && (s.world.row.revision > 0 ==> after.world.row.revision <= s.world.row.revision + 1)
            && (IsReal(s.world.row) ==> IsReal(after.world.row))
  {
    hide Inv, Run, Next, IsReal;
    InitialInv(setup, lifecycle);
    RunKeeps(setup, Initial(setup, lifecycle), events);
    NextAdvances(setup, Run(setup, Initial(setup, lifecycle), events), e);
  }

  /** A placeholder is never reconciled or completed into a clean archived state: an archived session
      records a real summary, and its file, recorded or pending, does not call itself a placeholder. */
  lemma ArchivedIsReal(setup: Setup, lifecycle: Lifecycle, events: seq<Event>)
    requires ValidSetup(setup) && InitialLifecycle(lifecycle)
    ensures var w := Reached(setup, lifecycle, events);
            w.row.lifecycle == Archived ==>
              && IsReal(w.row) && w.file.Some?
              && (Parse(w.file.value).Success? ==> !Parse(w.file.value).value.summaryPlaceholder)
  {
    ReachedIsConsistent(setup, lifecycle, events);
    hide Reached, Run, Consistent;
    if Reached(setup, lifecycle, events).row.lifecycle == Archived {
      ConsistentArchivedIsReal(setup, Reached(setup, lifecycle, events));
    }
  }

  lemma ConsistentArchivedIsReal(setup: Setup, w: World)
    requires Consistent(setup, w) && w.row.lifecycle == Archived
    ensures IsReal(w.row) && w.file.Some?
    ensures Parse(w.file.value).Success? ==> !Parse(w.file.value).value.summaryPlaceholder
  {
    hide Parse, Render, ReadBackSummary, StructuredSummary.IsPlaceholder, Importable, LogOk, StatesOk, Renderable;
    if FileIsPlanned(w) {
      RenderReads(setup, CurrentPlan(w).rendered);
    }
  }

  // ----- commits

  function Completed(setup: Setup, s: System, e: Event): seq<Plan> {
    match Completion(setup, s, e) case Some(plan) => [plan] case None => []
  }

  /** The plans a run completes, in order, whether they ended as summaries or as placeholders. */
  function Completions(setup: Setup, s: System, events: seq<Event>): seq<Plan>
    decreases |events|
  {
    if events == [] then [] else Completed(setup, s, events[0]) + Completions(setup, Next(setup, s, events[0]), events[1..])
  }

  /** A completion records its plan, and nothing else moves the record but an import. */
  lemma CompletionRecords(setup: Setup, s: System, e: Event)
    ensures var row := Next(setup, s, e).world.row;
            match Completion(setup, s, e)
            case Some(plan) =>
              row.revision == plan.revision && row.markdownHash == Some(plan.markdownHash) && row.summary.Some?
            case None =>
              (s.pc == Starting && s.world.row.revision == 0)
              || (row.revision == s.world.row.revision && row.summary == s.world.row.summary
                  && row.markdownHash == s.world.row.markdownHash)
  {
    hide PersistedFound, PersistedDraft, Hydrate;
    if e.Step? && MovesRow(s.pc) {
      if s.pc.Completing? {
        DraftRecords(setup, s, e);
      } else if s.pc.ReconcileCompleting? {
        FoundRecords(setup, s, e);
      }
      hide StepReconcileCompleting, StepCompleting, Completable;
    } else {
      QuietStep(setup, s, e);
      hide StepWorker, Completable;
    }
  }

  lemma DraftRecords(setup: Setup, s: System, e: Event)
    requires s.pc.Completing? && e.Step?
    ensures var row := StepCompleting(setup, s, e).world.row;
            match Completion(setup, s, e)
            case Some(plan) =>
              row.revision == plan.revision && row.markdownHash == Some(plan.markdownHash) && row.summary.Some?
            case None => row == s.world.row
  {
    hide PersistedDraft;
  }

  lemma FoundRecords(setup: Setup, s: System, e: Event)
    requires s.pc.ReconcileCompleting? && e.Step?
    ensures var row := StepReconcileCompleting(s, e).world.row;
            match Completion(setup, s, e)
            case Some(plan) =>
              row.revision == plan.revision && row.markdownHash == Some(plan.markdownHash) && row.summary.Some?
            case None => row == s.world.row
  {
    hide PersistedFound;
  }

  predicate MovesLog(pc: Pc) {
    pc.ReconcileCommitting? || pc.Committing?
  }

  lemma LogStays(setup: Setup, s: System, e: Event)
    requires !e.Step? || !MovesLog(s.pc)
    ensures Next(setup, s, e).world.log == s.world.log
  {
    hide Decide, Reconcile, PlanFor, Render, Claimable, Restates, PersistedFound, PersistedDraft, Importable;
  }

  lemma LogGrowsNext(setup: Setup, s: System, e: Event)
    ensures forall c :: c in s.world.log ==> c in Next(setup, s, e).world.log
  {
    hide LogHolds, LogReadable, LogOutput, Messages;
    if !e.Step? || !MovesLog(s.pc) {
      LogStays(setup, s, e);
      hide StepWorker;
    }
  }

  lemma CompletionHasCommit(setup: Setup, s: System, e: Event)
    requires Inv(setup, s) && Completion(setup, s, e).Some?
    ensures var plan := Completion(setup, s, e).value;
            plan.gitHistory ==> CommitIdOf(setup, plan.revision) in s.world.log
  {
    hide Inv, Consistent, ValidSetup, Written, Reconcile;
    if s.pc.Completing? {
      AtCompleting(setup, s);
    } else {
      AtReconcileCompleting(setup, s);
    }
  }

  lemma {:induction false} CompletionsAreCommitted(setup: Setup, s: System, events: seq<Event>)
    requires Inv(setup, s)
    ensures var log := Run(setup, s, events).world.log;
            && (forall c :: c in s.world.log ==> c in log)
            && (forall p :: p in Completions(setup, s, events) && p.gitHistory ==> CommitIdOf(setup, p.revision) in log)
    decreases |events|
  {
    hide Inv, Next, Completion;
    if events != [] {
      NextKeeps(setup, s, events[0]);
      LogGrowsNext(setup, s, events[0]);
      if Completion(setup, s, events[0]).Some? {
        CompletionHasCommit(setup, s, events[0]);
      }
      CompletionsAreCommitted(setup, Next(setup, s, events[0]), events[1..]);
    }
  }

  lemma {:induction false} RecordIsLastCompletion(setup: Setup, s: System, events: seq<Event>)
    requires Inv(setup, s)
    ensures var row, done := Run(setup, s, events).world.row, Completions(setup, s, events);
            if done != [] then
              row.revision == done[|done| - 1].revision && row.markdownHash == Some(done[|done| - 1].markdownHash)
            else s.world.row.revision > 0 ==>
              row.revision == s.world.row.revision && row.markdownHash == s.world.row.markdownHash
    decreases |events|
  {
    hide Inv, Next, Completion;
    if events != [] {
      NextKeeps(setup, s, events[0]);
      CompletionRecords(setup, s, events[0]);
      RecordedIsPositive(setup, Next(setup, s, events[0]));
      RecordIsLastCompletion(setup, Next(setup, s, events[0]), events[1..]);
    }
  }

  lemma RecordedIsPositive(setup: Setup, s: System)
    requires Inv(setup, s)
    ensures s.world.row.revision > 0 <==> s.world.row.summary.Some?
  {
    hide AtPc, ValidSetup, FileIsRecorded, FileIsPlanned, LogOk, StatesOk, PlanIsOwn, Importable;
  }

  /** Exactly one commit per archived revision: no two commits are alike, every Git-tracked plan the run
      completed, as a summary or as a placeholder, has its commit, and what the row records is the last
      plan completed, unless it was imported before the first. */
  lemma OneCommitPerRevision(setup: Setup, lifecycle: Lifecycle, events: seq<Event>)
    requires ValidSetup(setup) && InitialLifecycle(lifecycle)
    ensures var w := Reached(setup, lifecycle, events);
            var done := Completions(setup, Initial(setup, lifecycle), events);
            && NoDuplicates(w.log)
            && (forall p :: p in done && p.gitHistory ==> CommitIdOf(setup, p.revision) in w.log)
            && (forall i :: 0 <= i < |w.attempts| && Settled(w.attempts[i]) && w.attempts[i].plan.value.gitHistory ==>
                  CommitIdOf(setup, w.attempts[i].plan.value.revision) in w.log)
            && (done != [] ==>
                  && w.row.revision == done[|done| - 1].revision
                  && w.row.markdownHash == Some(done[|done| - 1].markdownHash))
  {
    hide Run, Completions, FileIsRecorded, FileIsPlanned, Importable, PlanIsOwn, StatesOk, NoDuplicates;
    ReachedIsConsistent(setup, lifecycle, events);
    InitialInv(setup, lifecycle);
    CompletionsAreCommitted(setup, Initial(setup, lifecycle), events);
    RecordIsLastCompletion(setup, Initial(setup, lifecycle), events);
    hide Inv;
  }
}
