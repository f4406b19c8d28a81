/** What the bounded reader of the Git log does to the archive worker: the exact condition under which
    a claimed attempt completes, and the runs on which a session's history fills up for good. */
module WorkerHistory {
  import opened Wrappers
  import opened Identity
  import opened Summary
  import opened ArchiveRecord
  import opened ArchiveReader
  import opened ArchiveRoundTrip
  import opened CommitMessage
  import opened WorkerStore
  import opened WorkerMachine
  import opened WorkerSafety
  import opened WorkerSteps
  import opened WorkerTheorems
  import opened WorkerRecovery

  // ----- a log that can no longer be read

  /** The log is over the limit, and no answered commit is waiting for its completion. */
  predicate Full(s: System) {
    && !LogReadable(s.world.log)
    && match s.pc
       case ReconcileCompleting(id, _) =>
         id < |s.world.attempts| && s.world.attempts[id].plan.Some? ==> !s.world.attempts[id].plan.value.gitHistory
       case Completing(_, d) => !d.gitHistory
       case _ => true
  }

  lemma FullStep(setup: Setup, s: System, e: Event)
    requires Full(s)
    ensures Full(Next(setup, s, e)) && Next(setup, s, e).world.log == s.world.log
    ensures Completion(setup, s, e).Some? ==> !Completion(setup, s, e).value.gitHistory
  {
    hide Next, LogReadable, Completable;
    FullLogStays(setup, s, e);
    FullGoesOn(setup, s, e);
    if Completion(setup, s, e).Some? && s.pc.Completing? {
      RestatesHistory(setup, s.world, s.pc.id, s.pc.draft);
    }
  }

  lemma RestatesHistory(setup: Setup, w: World, id: nat, d: Draft)
    requires Completable(w, id, PersistedDraft(d, setup.hash))
    ensures w.attempts[id].plan.value.gitHistory == d.gitHistory
  {
    hide Render;
  }

  lemma FullLogStays(setup: Setup, s: System, e: Event)
    requires !LogReadable(s.world.log)
    ensures Next(setup, s, e).world.log == s.world.log
    ensures e.Step? && s.pc.ReconcileCommitting? ==> Next(setup, s, e).pc == Idle
    ensures e.Step? && s.pc.Committing? ==> Next(setup, s, e).pc == RollingBack(s.pc.id, s.pc.draft)
  {
    hide LogReadable, LogHolds, LogOutput, Messages;
    if !e.Step? || !MovesLog(s.pc) {
      LogStays(setup, s, e);
      hide StepWorker;
    }
  }

  lemma FullGoesOn(setup: Setup, s: System, e: Event)
    requires Full(s)
    ensures var after := Next(setup, s, e);
            match after.pc
            case ReconcileCompleting(id, _) =>
              id < |after.world.attempts| && after.world.attempts[id].plan.Some? ==>
                !after.world.attempts[id].plan.value.gitHistory
            case Completing(_, d) => !d.gitHistory
            case _ => true
  {
    if !e.Step? {
      hide StepWorker, LogReadable;
    } else if MovesLog(s.pc) {
      FullLogStays(setup, s, e);
      hide Next, LogReadable;
    } else {
      StepGoesOn(setup, s, e);
      hide StepWorker, LogReadable;
    }
  }

  lemma StepGoesOn(setup: Setup, s: System, e: Event)
    requires e.Step? && !MovesLog(s.pc)
    ensures var after := StepWorker(setup, s, e);
            && (after.pc.ReconcileCompleting? ==>
                  && after.pc.id < |after.world.attempts| && after.world.attempts[after.pc.id].plan.Some?
                  && !after.world.attempts[after.pc.id].plan.value.gitHistory)
            && (after.pc.Completing? ==> !after.pc.draft.gitHistory)
  {
    hide Reconcile, PlanFor, Render, Complete, PersistedFound, PersistedDraft, LoadPrior, Renderable;
    hide Hydrate, Abandon, FailAttempt, CompleteNoChange, CompleteNotWorthy, Claim, Claimable, Arrived;
  }

  /** Once the log is over the limit it stays as it is, and no Git-tracked plan is completed or
      reconciled ever again, whatever happens. */
  lemma {:induction false} FullForever(setup: Setup, s: System, events: seq<Event>)
    requires Full(s)
    ensures Full(Run(setup, s, events)) && Run(setup, s, events).world.log == s.world.log
    ensures forall p :: p in Completions(setup, s, events) ==> !p.gitHistory
    decreases |events|
  {
    hide Full, Next, Completion;
    if events != [] {
      FullStep(setup, s, events[0]);
      FullForever(setup, Next(setup, s, events[0]), events[1..]);
    }
  }

  /** The worker, if there is one, has not got past the commit of the pending plan. */
  predicate BeforeCommit(pc: Pc, id: nat) {
    pc.Idle? || pc.Starting? || pc.Reconciling? || (pc.ReconcileCommitting? && pc.id == id)
  }

  /** The file is a Git-tracked pending plan's and the log is over the limit. */
  predicate FullAndPending(setup: Setup, s: System) {
    && !LogReadable(s.world.log)
    && Reconcile(setup, s.world).Matches?
    && var id := Reconcile(setup, s.world).id;
       s.world.attempts[id].plan.value.gitHistory && BeforeCommit(s.pc, id)
  }

  lemma FullAndPendingStep(setup: Setup, s: System, e: Event)
    requires FullAndPending(setup, s)
    ensures var after := Next(setup, s, e);
            && FullAndPending(setup, after)
            && after.world.attempts == s.world.attempts && after.world.file == s.world.file
  {
    FullLogStays(setup, s, e);
    PendingStays(setup, s, e, Reconcile(setup, s.world).id);
    hide Next, Reconcile, LogReadable;
    ReconcileIgnoresRow(setup, s.world, Next(setup, s, e).world);
  }

  lemma PendingStays(setup: Setup, s: System, e: Event, id: nat)
    requires BeforeCommit(s.pc, id) && !LogReadable(s.world.log)
    requires Reconcile(setup, s.world).Matches? && Reconcile(setup, s.world).id == id
    requires s.world.attempts[id].plan.value.gitHistory
    ensures var after := Next(setup, s, e);
            && BeforeCommit(after.pc, id)
            && after.world.attempts == s.world.attempts && after.world.file == s.world.file
  {
    hide Reconcile, LogReadable, LogHolds, Importable, StepReconcileCompleting, StepGate, StepClaiming, Decide;
    hide StepPlanning, StepVerdict, StepWriting, StepCommitting, StepRollingBack, StepCompleting, StepFailing;
    hide StepSettling, Abandon;
  }

  /** A crash behind the commit that filled the log is never recovered from: the plan stays pending, the
      file stays as it is and no attempt is ever claimed again. */
  lemma {:induction false} PendingForever(setup: Setup, s: System, events: seq<Event>)
    requires FullAndPending(setup, s)
    ensures var after := Run(setup, s, events);
            && FullAndPending(setup, after)
            && after.world.attempts == s.world.attempts && after.world.file == s.world.file
    decreases |events|
  {
    hide FullAndPending, Next;
    if events != [] {
      FullAndPendingStep(setup, s, events[0]);
      PendingForever(setup, Next(setup, s, events[0]), events[1..]);
    }
  }

  // ----- the claimed attempt

  function Times(e: Event, n: nat): seq<Event> {
    if n == 0 then [] else [e] + Times(e, n - 1)
  }

  lemma RunTimes(setup: Setup, s: System, e: Event, n: nat)
    ensures Run(setup, s, Times(e, n + 1)) == Run(setup, Next(setup, s, e), Times(e, n))
  {
    hide Next;
    assert Times(e, n + 1)[0] == e && Times(e, n + 1)[1..] == Times(e, n);
  }

  lemma {:induction false} IdleRuns(setup: Setup, w: World, e: Event, n: nat)
    requires e.Step?
    ensures Run(setup, System(w, Idle), Times(e, n)) == System(w, Idle)
  {
    if n > 0 {
      assert Next(setup, System(w, Idle), e) == System(w, Idle);
      RunTimes(setup, System(w, Idle), e, n - 1);
      IdleRuns(setup, w, e, n - 1);
    }
  }

  /** The draft's attempt, ended one way or the other. */
  function EndedAttempt(setup: Setup, a: Attempt, d: Draft, completes: bool): Attempt {
    Attempt(if completes && !d.placeholder then Succeeded else AttemptFailed, a.retryState,
            Some(PlanFor(d.rendered, d.gitHistory, setup.hash)))
  }

  function LogAfter(setup: Setup, log: seq<CommitId>, d: Draft): seq<CommitId> {
    if d.gitHistory then Commit(log, CommitIdOf(setup, d.rendered.number), Works).0 else log
  }

  function CompletedRow(setup: Setup, d: Draft): Row {
    Row(d.rendered.number, Some(d.rendered.summary), Some(setup.hash(Render(d.rendered))),
        if d.placeholder then Failed else if d.sameGeneration then Archived else RevisionPending,
        d.placeholder, if d.placeholder then Some(RevisionPending) else None, None)
  }

  /** What a completed attempt leaves. */
  function CompletedWorld(setup: Setup, w: World, id: nat, d: Draft): World
    requires id < |w.attempts|
  {
    World(CompletedRow(setup, d), w.attempts[id := EndedAttempt(setup, w.attempts[id], d, true)],
          Some(Render(d.rendered)), LogAfter(setup, w.log, d))
  }

  /** What an attempt whose commit failed leaves. */
  function RolledBackWorld(setup: Setup, w: World, id: nat, d: Draft): World
    requires id < |w.attempts|
  {
    World(
      w.row.(lifecycle := Failed, retryState := Some(w.attempts[id].retryState), parked := true, token := None),
      w.attempts[id := EndedAttempt(setup, w.attempts[id], d, false)], d.previous, w.log)
  }

  /** The attempt's plan is stored and its file is not written yet. */
  predicate AboutToWrite(setup: Setup, w: World, id: nat, d: Draft) {
    && IsRunning(w, id) && w.row.token == Some(id)
    && w.attempts[id].plan == Some(PlanFor(d.rendered, d.gitHistory, setup.hash))
  }

  /** The rest of the attempt from its file on, when nothing fails but perhaps the reading of the log. */
  lemma WrittenGoesOn(setup: Setup, w: World, id: nat, d: Draft, e: Event)
    requires AboutToWrite(setup, w, id, d) && e.Step? && e.fate == Works
    ensures var s1 := Next(setup, System(w, Writing(id, d)), e);
            var s2 := Next(setup, s1, e);
            var s3 := Next(setup, s2, e);
            var s4 := Next(setup, s3, e);
            if !d.gitHistory then s2 == System(CompletedWorld(setup, w, id, d), Idle)
            else if LogReadable(w.log) then s3 == System(CompletedWorld(setup, w, id, d), Idle)
            else s4 == System(RolledBackWorld(setup, w, id, d), Idle)
  {
    var w1 := w.(file := Some(Render(d.rendered)));
    WritingStep(setup, w, id, d, e);
    if d.gitHistory {
      CommittingStep(setup, w1, id, d, e);
      hide PlanFor, Render, StepWriting, StepCommitting;
      CommitAnswers(w.log, CommitIdOf(setup, d.rendered.number));
      hide LogReadable, Commit;
      if LogReadable(w.log) {
        DraftEnds(setup, w1.(log := LogAfter(setup, w.log, d)), id, d, e);
        hide StepCompleting;
      } else {
        RollsBack(setup, w1, id, d, e);
        hide StepRollingBack, StepFailing;
      }
    } else {
      DraftEnds(setup, w1, id, d, e);
      hide PlanFor, Render, StepWriting, StepCompleting;
    }
  }

  lemma CommitAnswers(log: seq<CommitId>, id: CommitId)
    ensures Commit(log, id, Works).1 == LogReadable(log)
    ensures !LogReadable(log) ==> Commit(log, id, Works).0 == log
  {
    hide LogReadable, LogHolds;
  }

  lemma DraftEnds(setup: Setup, w: World, id: nat, d: Draft, e: Event)
    requires AboutToWrite(setup, w, id, d) && e.Step? && e.fate == Works
    ensures Next(setup, System(w, Completing(id, d)), e)
            == System(World(CompletedRow(setup, d), w.attempts[id := EndedAttempt(setup, w.attempts[id], d, true)],
                            w.file, w.log), Idle)
  {
    CompletingStep(setup, w, id, d, e);
    hide Render;
  }

  lemma RollsBack(setup: Setup, w: World, id: nat, d: Draft, e: Event)
    requires AboutToWrite(setup, w, id, d) && e.Step? && e.fate == Works
    ensures Next(setup, Next(setup, System(w, RollingBack(id, d)), e), e)
            == System(RolledBackWorld(setup, w, id, d), Idle)
  {
    hide Render, PlanFor;
  }

  /** What becomes of an attempt on which nothing else fails. */
  function Outcome(setup: Setup, w: World, id: nat, d: Draft): World
    requires id < |w.attempts|
  {
    if d.gitHistory ==> LogReadable(w.log) then CompletedWorld(setup, w, id, d) else RolledBackWorld(setup, w, id, d)
  }

  lemma WrittenRuns(setup: Setup, w: World, id: nat, d: Draft, e: Event, more: nat)
    requires AboutToWrite(setup, w, id, d) && e.Step? && e.fate == Works
    ensures Run(setup, System(w, Writing(id, d)), Times(e, more + 4)) == System(Outcome(setup, w, id, d), Idle)
  {
    hide Next, Run, Times, CompletedWorld, RolledBackWorld, LogReadable;
    WrittenGoesOn(setup, w, id, d, e);
    var s := System(w, Writing(id, d));
    var s1 := Next(setup, s, e);
    var s2 := Next(setup, s1, e);
    var s3 := Next(setup, s2, e);
    RunTimes(setup, s, e, more + 3);
    RunTimes(setup, s1, e, more + 2);
    RunTimes(setup, s2, e, more + 1);
    RunTimes(setup, s3, e, more);
    IdleRuns(setup, Outcome(setup, w, id, d), e, more + 2);
    IdleRuns(setup, Outcome(setup, w, id, d), e, more + 1);
    IdleRuns(setup, Outcome(setup, w, id, d), e, more);
  }

  function WithPlan(setup: Setup, w: World, id: nat, d: Draft): World
    requires id < |w.attempts|
  {
    w.(attempts := w.attempts[id := w.attempts[id].(plan := Some(PlanFor(d.rendered, d.gitHistory, setup.hash)))])
  }

  function WithVerdict(w: World): World {
    w.(row := w.row.(lifecycle := Failed, retryState := Some(RevisionPending), parked := true))
  }

  lemma PlanIsStored(setup: Setup, w: World, id: nat, d: Draft, e: Event)
    requires IsRunning(w, id) && w.row.token == Some(id) && e.Step? && e.fate == Works
    ensures var s1 := Next(setup, System(w, Planning(id, d)), e);
            var planned := WithPlan(setup, w, id, d);
            && AboutToWrite(setup, planned, id, d) && AboutToWrite(setup, WithVerdict(planned), id, d)
            && if d.placeholder then Next(setup, s1, e) == System(WithVerdict(planned), Writing(id, d))
               else s1 == System(planned, Writing(id, d))
  {
    PlanningStep(setup, w, id, d, e);
    hide PlanFor, StepPlanning;
  }

  lemma OutcomeOfPlanned(setup: Setup, w: World, id: nat, d: Draft)
    requires id < |w.attempts|
    ensures Outcome(setup, WithPlan(setup, w, id, d), id, d) == Outcome(setup, w, id, d)
    ensures Outcome(setup, WithVerdict(WithPlan(setup, w, id, d)), id, d) == Outcome(setup, w, id, d)
  {
    hide PlanFor, Render, LogReadable, LogAfter;
  }

  /** From its plan on, an attempt on which nothing fails but perhaps the reading of the log. */
  lemma PlannedRuns(setup: Setup, w: World, id: nat, d: Draft, e: Event)
    requires IsRunning(w, id) && w.row.token == Some(id) && e.Step? && e.fate == Works
    ensures Run(setup, System(w, Planning(id, d)), Times(e, 6)) == System(Outcome(setup, w, id, d), Idle)
  {
    hide Next, Run, Times, Outcome, WithPlan, WithVerdict, AboutToWrite;
    PlanIsStored(setup, w, id, d, e);
    OutcomeOfPlanned(setup, w, id, d);
    var s := System(w, Planning(id, d));
    RunTimes(setup, s, e, 5);
    if d.placeholder {
      RunTimes(setup, Next(setup, s, e), e, 4);
      WrittenRuns(setup, WithVerdict(WithPlan(setup, w, id, d)), id, d, e, 0);
    } else {
      WrittenRuns(setup, WithPlan(setup, w, id, d), id, d, e, 1);
    }
  }

  /** A claimed attempt on which nothing fails completes its plan if and only if, for a Git-tracked one,
      the log can be read; otherwise the file, the record and the log are what they were and the
      attempt has failed. */
  lemma AttemptCompletesIff(setup: Setup, s: System, input: Input, flag: bool)
    requires Inv(setup, s) && s.pc.Working?
    requires Decide(setup, s.world, s.pc.id, s.pc.claimed, input).Planning?
    ensures var d := Decide(setup, s.world, s.pc.id, s.pc.claimed, input).draft;
            var after := Run(setup, s, Times(Step(Works, input, flag), 7));
            && after.pc == Idle
            && (Finished(after.world, s.pc.id, PlanFor(d.rendered, d.gitHistory, setup.hash)) <==>
                  (d.gitHistory ==> LogReadable(s.world.log)))
            && ((d.gitHistory ==> LogReadable(s.world.log)) ==> after.world.file == Some(Render(d.rendered)))
            && (d.gitHistory && !LogReadable(s.world.log) ==>
                  && after.world.file == s.world.file && after.world.log == s.world.log
                  && after.world.row.revision == s.world.row.revision
                  && after.world.row.summary == s.world.row.summary
                  && after.world.row.markdownHash == s.world.row.markdownHash
                  && after.world.row.lifecycle == Failed)
  {
    hide Inv, Decide, Next, Run, Times, LogReadable, Render, StepWorker, Outcome, Finished, PlanFor;
    var e := Step(Works, input, flag);
    var w, id := s.world, s.pc.id;
    var d := Decide(setup, w, id, s.pc.claimed, input).draft;
    ClaimedDraft(setup, s, input);
    WorkingStep(setup, w, id, s.pc.claimed, e);
    StepIsNext(setup, s, e);
    RunTimes(setup, s, e, 6);
    PlannedRuns(setup, w, id, d, e);
    OutcomeSays(setup, w, id, d);
  }

  lemma OutcomeSays(setup: Setup, w: World, id: nat, d: Draft)
    requires id < |w.attempts|
    requires d.gitHistory ==> d.rendered.number == w.row.revision + 1
    ensures var after := Outcome(setup, w, id, d);
            && (Finished(after, id, PlanFor(d.rendered, d.gitHistory, setup.hash)) <==>
                  (d.gitHistory ==> LogReadable(w.log)))
            && ((d.gitHistory ==> LogReadable(w.log)) ==> after.file == Some(Render(d.rendered)))
            && (d.gitHistory && !LogReadable(w.log) ==>
                  && after.file == d.previous && after.log == w.log
                  && after.row.revision == w.row.revision && after.row.summary == w.row.summary
                  && after.row.markdownHash == w.row.markdownHash && after.row.lifecycle == Failed)
  {
    hide LogReadable, Render, LogAfter;
  }

  lemma StepIsNext(setup: Setup, s: System, e: Event)
    requires e.Step?
    ensures Next(setup, s, e) == StepWorker(setup, s, e)
  {
    hide StepWorker;
  }

  lemma ClaimedDraft(setup: Setup, s: System, input: Input)
    requires Inv(setup, s) && s.pc.Working?
    requires Decide(setup, s.world, s.pc.id, s.pc.claimed, input).Planning?
    ensures var next := Decide(setup, s.world, s.pc.id, s.pc.claimed, input);
            && next.id == s.pc.id && IsRunning(s.world, s.pc.id) && s.world.row.token == Some(s.pc.id)
            && next.draft.previous == s.world.file
            && (next.draft.gitHistory ==> next.draft.rendered.number == s.world.row.revision + 1)
  {
    hide ValidSetup, FileIsRecorded, FileIsPlanned, PlanIsOwn, StatesOk, LogOk, Importable, PlanFits, Decide;
    DecideFits(setup, s.world, s.pc.id, s.pc.claimed, input);
  }

  // ----- a session whose history fills up

  /** A revision that every number makes renderable, with a real summary that reads back. */
  predicate Repeatable(setup: Setup, r: Revision) {
    && Renderable(setup, r)
    && !r.summary.IsPlaceholder() && r.summary.workCompleted != ["None."]
  }

  lemma RenumberedIsRenderable(setup: Setup, r: Revision, k: u64)
    requires Renderable(setup, r) && k > 0
    ensures Renderable(setup, r.(number := k))
  {
    hide ValidateSummary, ValidProject, ValidHash, ValidCompletion, ValidFallback;
  }

  /** The session has k revisions, each committed, waits for its next one and has nothing pending. */
  predicate Recorded(setup: Setup, w: World, r: Revision, k: nat) {
    && w.row.revision == k
    && w.row.lifecycle == (if k == 0 then SummaryPending else RevisionPending)
    && PendingPlan(w).None?
    && w.log == History(setup.source, setup.session, k)
    && (k == 0 ==> w.file.None?)
    && (0 < k < U64_BOUND ==>
          && w.file == Some(Render(r.(number := k)))
          && w.row.markdownHash == Some(setup.hash(w.file.value)))
  }

  /** One attempt after the other with the same summary, each tracked in Git, and nothing fails. */
  function Summarised(r: Revision): Event {
    Step(Works, SummarisedInput(r, true, false), false)
  }

  function Round(r: Revision): seq<Event> {
    [Wake] + Times(Summarised(r), 11)
  }

  function Rounds(r: Revision, n: nat): seq<Event> {
    if n == 0 then [] else Rounds(r, n - 1) + Round(r)
  }

  function RoundDraft(w: World, r: Revision, k: u64): Draft {
    Draft(r.(number := k), true, false, false, false, w.file)
  }

  lemma RoundIsClaimed(setup: Setup, w: World, r: Revision, k: nat)
    requires Recorded(setup, w, r, k)
    ensures var e := Summarised(r);
            var claimed := System(Claim(w), Working(|w.attempts|, w.row));
            Claimable(w.row) && Next(setup, System(w, Idle), Wake) == System(w, Starting) &&
            Next(setup, Next(setup, Next(setup, Next(setup, System(w, Starting), e), e), e), e) == claimed
  {
    hide Claim, Render, History, PendingPlan;
    var e := Summarised(r);
    assert Next(setup, System(w, Starting), e) == System(w, Reconciling);
    assert Next(setup, System(w, Reconciling), e) == System(w, Gate);
    assert Next(setup, System(w, Gate), e) == System(w, Claiming);
  }

  lemma PriorReads(setup: Setup, w: World, r: Revision, k: nat)
    requires Recorded(setup, w, r, k) && Repeatable(setup, r) && k < U64_BOUND
    ensures LoadPrior(setup, Claim(w), w.row).Some?
  {
    hide Renderable, Render, Parse, ReadBackSummary, AgreesWithPlan, Restates, History, PendingPlan, RetryState;
    hide StructuredSummary.IsPlaceholder;
    if k > 0 {
      RenumberedIsRenderable(setup, r, k);
      RenderReads(setup, r.(number := k));
    }
  }

  lemma SummaryIsDrafted(setup: Setup, w: World, id: nat, claimed: Row, r: Revision, git: bool, same: bool)
    requires LoadPrior(setup, w, claimed).Some? && claimed.revision + 1 < U64_BOUND
    requires Renderable(setup, r.(number := claimed.revision + 1)) && !r.summary.IsPlaceholder()
    ensures Decide(setup, w, id, claimed, SummarisedInput(r, git, same))
            == Planning(id, Draft(r.(number := claimed.revision + 1), git, false, false, same, w.file))
  {
    hide Renderable, LoadPrior, StructuredSummary.IsPlaceholder;
  }

  lemma ClaimRuns(w: World)
    requires Claimable(w.row)
    ensures IsRunning(Claim(w), |w.attempts|) && Claim(w).row.token == Some(|w.attempts|) && Claim(w).file == w.file
  {
  }

  lemma RoundIsDrafted(setup: Setup, w: World, r: Revision, k: nat)
    requires Recorded(setup, w, r, k) && Repeatable(setup, r) && k + 1 < U64_BOUND
    ensures Decide(setup, Claim(w), |w.attempts|, w.row, Summarised(r).input)
            == Planning(|w.attempts|, RoundDraft(w, r, k + 1))
    ensures IsRunning(Claim(w), |w.attempts|) && Claim(w).row.token == Some(|w.attempts|)
  {
    hide Renderable, Render, LoadPrior, History, PendingPlan, StructuredSummary.IsPlaceholder, Claim, Decide;
    RenumberedIsRenderable(setup, r, k + 1);
    PriorReads(setup, w, r, k);
    ClaimRuns(w);
    SummaryIsDrafted(setup, Claim(w), |w.attempts|, w.row, r, true, false);
  }

  lemma RoundEnds(setup: Setup, w: World, r: Revision, k: nat)
    requires Recorded(setup, w, r, k) && Repeatable(setup, r) && k + 1 < U64_BOUND
    ensures Run(setup, System(w, Idle), Round(r))
            == System(Outcome(setup, Claim(w), |w.attempts|, RoundDraft(w, r, k + 1)), Idle)
  {
    hide Next, Run, Times, Recorded, Repeatable, Claim, Outcome;
    var e, id := Summarised(r), |w.attempts|;
    RoundIsClaimed(setup, w, r, k);
    RoundIsDrafted(setup, w, r, k);
    var s := System(w, Starting);
    var s1 := Next(setup, s, e);
    var s2 := Next(setup, s1, e);
    var s3 := Next(setup, s2, e);
    var s4 := Next(setup, s3, e);
    RunTimes(setup, s, e, 10);
    RunTimes(setup, s1, e, 9);
    RunTimes(setup, s2, e, 8);
    RunTimes(setup, s3, e, 7);
    RunTimes(setup, s4, e, 6);
    WorkingStep(setup, Claim(w), id, w.row, e);
    StepIsNext(setup, s4, e);
    PlannedRuns(setup, Claim(w), id, RoundDraft(w, r, k + 1), e);
    RunWake(setup, System(w, Idle), Times(e, 11));
    hide StepWorker, Decide, RoundDraft;
  }

  lemma RunWake(setup: Setup, s: System, events: seq<Event>)
    ensures Run(setup, s, [Wake] + events) == Run(setup, Next(setup, s, Wake), events)
  {
    hide Next;
    assert ([Wake] + events)[0] == Wake && ([Wake] + events)[1..] == events;
  }

  lemma {:induction false} NothingPending(attempts: seq<Attempt>, a: Attempt)
    requires PendingFrom(attempts).None? && a.outcome != Running
    ensures PendingFrom(attempts + [a]).None?
  {
    assert (attempts + [a])[..|attempts|] == attempts;
  }

  /** Committing the next revision of a history that can be read makes the next history. */
  lemma CommitExtendsHistory(source: SourceKind, session: string, k: nat)
    requires ValidSessionId(session)
    ensures Commit(History(source, session, k), CommitId(source, session, k + 1), Works) ==
            if LogReadable(History(source, session, k)) then (History(source, session, k + 1), true)
            else (History(source, session, k), false)
  {
    var log, id := History(source, session, k), CommitId(source, session, k + 1);
    forall i | i in log
      ensures ValidCommitId(i) && i != id
    {
    }
    ExistenceIsMembership(log, id);
    hide LogReadable, LogHolds, LogOutput, Messages, ValidSessionId;
  }

  lemma RoundRecords(setup: Setup, w: World, r: Revision, k: nat)
    requires Recorded(setup, w, r, k) && k + 1 < U64_BOUND && ValidSessionId(setup.session)
    requires LogReadable(w.log)
    ensures Recorded(setup, Outcome(setup, Claim(w), |w.attempts|, RoundDraft(w, r, k + 1)), r, k + 1)
  {
    hide Render, History, LogReadable, Commit, PendingFrom, PlanFor, RetryState, ValidSessionId;
    var d, id := RoundDraft(w, r, k + 1), |w.attempts|;
    CommitExtendsHistory(setup.source, setup.session, k);
    var ended := EndedAttempt(setup, Claim(w).attempts[id], d, true);
    NothingPending(w.attempts, ended);
    assert Claim(w).attempts[id := ended] == w.attempts + [ended];
  }

  lemma {:induction false} RoundsRecord(setup: Setup, r: Revision, n: nat)
    requires setup.base.None? && ValidSessionId(setup.session) && Repeatable(setup, r) && n < U64_BOUND
    requires n > 0 ==> LogReadable(History(setup.source, setup.session, n - 1))
    ensures var after := Run(setup, Initial(setup, SummaryPending), Rounds(r, n));
            after.pc == Idle && Recorded(setup, after.world, r, n)
  {
    hide Run, Round, Repeatable, Render, LogReadable, Outcome, Claim, History, RoundDraft, ValidSessionId;
    if n > 0 {
      hide Recorded, Initial;
      HistoryReadableIff(setup.source, setup.session, n - 1);
      RoundsRecord(setup, r, n - 1);
      var s := Run(setup, Initial(setup, SummaryPending), Rounds(r, n - 1));
      RunAppend(setup, Initial(setup, SummaryPending), Rounds(r, n - 1), Round(r));
      RecordedLog(setup, s.world, r, n - 1);
      RoundEnds(setup, s.world, r, n - 1);
      RoundRecords(setup, s.world, r, n - 1);
      assert s == System(s.world, Idle);
    } else {
      assert History(setup.source, setup.session, 0) == [];
      NothingYet(setup);
    }
  }

  lemma NothingYet(setup: Setup)
    ensures Run(setup, Initial(setup, SummaryPending), []) == Initial(setup, SummaryPending)
    ensures PendingPlan(Initial(setup, SummaryPending).world).None?
  {
  }

  lemma RecordedLog(setup: Setup, w: World, r: Revision, k: nat)
    requires Recorded(setup, w, r, k)
    ensures w.log == History(setup.source, setup.session, k) && w.row.revision == k
  {
  }

  // ----- the last commit, and a crash behind it

  /** A round that dies between its commit and its completion. */
  function CrashedRound(r: Revision): seq<Event> {
    [Wake] + (Times(Summarised(r), 8) + [Crash])
  }

  /** The plan is pending, its file is written and its commit is the newest of the log. */
  function CommittedWorld(setup: Setup, w: World, r: Revision, k: u64): World
    requires Claimable(w.row)
  {
    WithPlan(setup, Claim(w), |w.attempts|, RoundDraft(w, r, k)).(
      file := Some(Render(r.(number := k))), log := History(setup.source, setup.session, k))
  }

  lemma CommittedSteps(setup: Setup, w: World, r: Revision, k: nat)
    requires Recorded(setup, w, r, k) && k + 1 < U64_BOUND && ValidSessionId(setup.session) && LogReadable(w.log)
    ensures var e, d, id := Summarised(r), RoundDraft(w, r, k + 1), |w.attempts|;
            Next(setup, Next(setup, Next(setup, System(Claim(w), Planning(id, d)), e), e), e)
            == System(CommittedWorld(setup, w, r, k + 1), Completing(id, d))
  {
    hide Render, History, LogReadable, Commit, PendingPlan, PlanFor, RetryState;
    var e, d, id := Summarised(r), RoundDraft(w, r, k + 1), |w.attempts|;
    CommitExtendsHistory(setup.source, setup.session, k);
    PlanIsStored(setup, Claim(w), id, d, e);
    var planned := WithPlan(setup, Claim(w), id, d);
    WritingStep(setup, planned, id, d, e);
    CommittingStep(setup, planned.(file := Some(Render(d.rendered))), id, d, e);
    hide StepPlanning, StepWriting, StepCommitting;
  }

  lemma {:induction false} RunTimesThen(setup: Setup, s: System, e: Event, n: nat, then_: seq<Event>)
    requires n > 0
    ensures Run(setup, s, Times(e, n) + then_) == Run(setup, Next(setup, s, e), Times(e, n - 1) + then_)
  {
    hide Next;
    assert (Times(e, n) + then_)[0] == e && (Times(e, n) + then_)[1..] == Times(e, n - 1) + then_;
  }

  lemma CrashedRoundEnds(setup: Setup, w: World, r: Revision, k: nat)
    requires Recorded(setup, w, r, k) && Repeatable(setup, r) && k + 1 < U64_BOUND
    requires ValidSessionId(setup.session) && LogReadable(w.log) && Claimable(w.row)
    ensures Run(setup, System(w, Idle), CrashedRound(r)) == System(CommittedWorld(setup, w, r, k + 1), Idle)
  {
    hide Next, Run, Times, Recorded, Repeatable, Claim, CommittedWorld, Claimable, LogReadable, ValidSessionId;
    var e, id, last := Summarised(r), |w.attempts|, [Crash];
    RoundIsClaimed(setup, w, r, k);
    RoundIsDrafted(setup, w, r, k);
    CommittedSteps(setup, w, r, k);
    var s := System(w, Starting);
    var s1 := Next(setup, s, e);
    var s2 := Next(setup, s1, e);
    var s3 := Next(setup, s2, e);
    var s4 := Next(setup, s3, e);
    WorkingStep(setup, Claim(w), id, w.row, e);
    StepIsNext(setup, s4, e);
    var s5 := Next(setup, s4, e);
    var s6 := Next(setup, s5, e);
    var s7 := Next(setup, s6, e);
    RunWake(setup, System(w, Idle), Times(e, 8) + last);
    RunTimesThen(setup, s, e, 8, last);
    RunTimesThen(setup, s1, e, 7, last);
    RunTimesThen(setup, s2, e, 6, last);
    RunTimesThen(setup, s3, e, 5, last);
    RunTimesThen(setup, s4, e, 4, last);
    RunTimesThen(setup, s5, e, 3, last);
    RunTimesThen(setup, s6, e, 2, last);
    RunTimesThen(setup, s7, e, 1, last);
    RunCrash(setup, Next(setup, s7, e), e);
    hide StepWorker, Decide, RoundDraft;
  }

  lemma RunCrash(setup: Setup, s: System, e: Event)
    ensures Run(setup, s, Times(e, 0) + [Crash]) == s.(pc := Idle)
  {
    assert Times(e, 0) + [Crash] == [Crash] && [Crash][1..] == [];
    assert Run(setup, s, [Crash]) == Run(setup, Next(setup, s, Crash), []);
    hide StepWorker;
  }

  lemma CommittedIsPending(setup: Setup, w: World, r: Revision, k: u64)
    requires Claimable(w.row) && Repeatable(setup, r) && k > 0
    requires !LogReadable(History(setup.source, setup.session, k))
    ensures FullAndPending(setup, System(CommittedWorld(setup, w, r, k), Idle))
  {
    hide LogReadable, History, Renderable, Render, Parse, AgreesWithPlan, ReadBackSummary, Restates, RetryState;
    hide StructuredSummary.IsPlaceholder, PendingPlan, PersistedFound;
    RenumberedIsRenderable(setup, r, k);
    RenderReads(setup, r.(number := k));
    NewestIsPending(CommittedWorld(setup, w, r, k));
  }

  lemma NewestIsPending(w: World)
    requires w.attempts != []
    requires w.attempts[|w.attempts| - 1].outcome == Running && w.attempts[|w.attempts| - 1].plan.Some?
    ensures PendingPlan(w) == Some(|w.attempts| - 1)
  {
  }

  lemma EmptyHistoryReads(setup: Setup)
    ensures LogReadable(History(setup.source, setup.session, 0))
  {
    assert Messages([]) == [];
  }

  lemma CommittedRow(setup: Setup, w: World, r: Revision, k: u64)
    requires Claimable(w.row)
    ensures CommittedWorld(setup, w, r, k).row.revision == w.row.revision
    ensures CommittedWorld(setup, w, r, k).log == History(setup.source, setup.session, k)
  {
    hide History, Render, PlanFor;
  }

  lemma PendingHasPlan(setup: Setup, s: System)
    requires FullAndPending(setup, s)
    ensures PendingPlan(s.world).Some?
  {
    hide LogReadable, Parse, AgreesWithPlan;
  }

  /** The last history that can be read, and the next. */
  predicate IsLast(setup: Setup, n: nat) {
    && n < 175
    && LogReadable(History(setup.source, setup.session, n))
    && !LogReadable(History(setup.source, setup.session, n + 1))
  }

  lemma RoundsFill(setup: Setup, r: Revision, n: nat, events: seq<Event>)
    requires setup.base.None? && ValidSessionId(setup.session) && Repeatable(setup, r) && IsLast(setup, n)
    ensures var full := Run(setup, Initial(setup, SummaryPending), Rounds(r, n + 1));
            && full.pc == Idle && full.world.row.revision == n + 1
            && full.world.log == History(setup.source, setup.session, n + 1) && !LogReadable(full.world.log)
            && Run(setup, full, events).world.log == full.world.log
            && forall p :: p in Completions(setup, full, events) ==> !p.gitHistory
  {
    hide Run, Repeatable, Rounds, Recorded, LogReadable, ValidSessionId, History;
    RoundsRecord(setup, r, n + 1);
    var full := Run(setup, Initial(setup, SummaryPending), Rounds(r, n + 1));
    RecordedLog(setup, full.world, r, n + 1);
    FullForever(setup, full, events);
    hide Initial, Completions;
  }

  lemma CrashFills(setup: Setup, r: Revision, n: nat, events: seq<Event>)
    requires setup.base.None? && ValidSessionId(setup.session) && Repeatable(setup, r) && IsLast(setup, n)
    ensures var stuck := Run(setup, Initial(setup, SummaryPending), Rounds(r, n) + CrashedRound(r));
            && stuck.world.log == History(setup.source, setup.session, n + 1)
            && stuck.world.row.revision == n
            && PendingPlan(stuck.world).Some?
            && Run(setup, stuck, events).world.attempts == stuck.world.attempts
            && Run(setup, stuck, events).world.file == stuck.world.file
  {
    hide Run, Repeatable, Rounds, CrashedRound, Recorded, LogReadable, ValidSessionId, History, FullAndPending;
    hide Next, CommittedWorld, PendingPlan, Claimable;
    HistoryReadableIff(setup.source, setup.session, n);
    RoundsRecord(setup, r, n);
    var start := Initial(setup, SummaryPending);
    var before := Run(setup, start, Rounds(r, n));
    RecordedLog(setup, before.world, r, n);
    RoundIsClaimed(setup, before.world, r, n);
    CrashedRoundEnds(setup, before.world, r, n);
    RunAppend(setup, start, Rounds(r, n), CrashedRound(r));
    var stuck := System(CommittedWorld(setup, before.world, r, n + 1), Idle);
    assert before == System(before.world, Idle);
    CommittedIsPending(setup, before.world, r, n + 1);
    PendingForever(setup, stuck, events);
    PendingHasPlan(setup, stuck);
    CommittedRow(setup, before.world, r, n + 1);
    hide Initial;
  }

  /** Every session's history fills up: some run on which nothing fails commits revisions 1 to n + 1, fewer
      than 176, after which the log cannot be read and no Git-tracked plan is completed any more. When a
      crash falls behind the last of these commits, that revision itself stays pending for good and the
      session with it. */
  lemma HistoryFillsUp(setup: Setup, r: Revision, events: seq<Event>) returns (n: nat)
    requires setup.base.None? && ValidSessionId(setup.session) && Repeatable(setup, r)
    ensures n < 175
    ensures var full := Run(setup, Initial(setup, SummaryPending), Rounds(r, n + 1));
            && full.pc == Idle && full.world.row.revision == n + 1
            && full.world.log == History(setup.source, setup.session, n + 1) && !LogReadable(full.world.log)
            && Run(setup, full, events).world.log == full.world.log
            && forall p :: p in Completions(setup, full, events) ==> !p.gitHistory
    ensures var stuck := Run(setup, Initial(setup, SummaryPending), Rounds(r, n) + CrashedRound(r));
            && stuck.world.log == History(setup.source, setup.session, n + 1)
            && stuck.world.row.revision == n
            && PendingPlan(stuck.world).Some?
            && Run(setup, stuck, events).world.attempts == stuck.world.attempts
            && Run(setup, stuck, events).world.file == stuck.world.file
  {
    hide Run, Repeatable, Rounds, CrashedRound, LogReadable, History, Completions, PendingPlan, Initial;
    EmptyHistoryReads(setup);
    n := FirstUnreadable(setup.source, setup.session, 0);
    RoundsFill(setup, r, n, events);
    CrashFills(setup, r, n, events);
  }

  /** There is such a revision for every session. */
  function SmallRevision(setup: Setup): Revision {
    SmallPlaceholder(setup).(summary := StructuredSummary("t", "g", ["w"], [], [], [], [], ["x"]))
  }

  lemma RepeatableExists(setup: Setup)
    ensures Repeatable(setup, SmallRevision(setup))
  {
    hide ValidateSummary, ValidProject, ValidHash, ValidCompletion, ValidFallback;
    PlaceholderExists(setup);
    ValidatedSummaryIsNormal(SmallRevision(setup).summary);
    assert NormalSummary(SmallRevision(setup).summary);
  }
}
