/** Which sessions a worker claims, what it makes of each outcome of the transcript and the summarizer, and
    that a failed session is tried again. */
module WorkerClaims {
  import opened Wrappers
  import opened Summary
  import opened ArchiveRecord
  import opened ArchiveReader
  import opened ArchiveRoundTrip
  import opened WorkerStore
  import opened WorkerMachine
  import opened WorkerSafety
  import opened WorkerSteps
  import opened WorkerTheorems
  import opened WorkerRecovery

  // ----- the claim

  /** No worker is at it, there is nothing to reconcile, and there is no archive left to import. */
  predicate AtRest(setup: Setup, w: World) {
    && w.row.lifecycle != Processing
    && Reconcile(setup, w).NothingToReconcile?
    && (w.row.revision > 0 || Importable(setup, w).None?)
  }

  /** Whether the session waits for a worker, state by state. */
  predicate Waits(row: Row) {
    row.lifecycle != Observed && row.lifecycle != Archived && !(row.lifecycle == Failed && row.parked)
  }

  /** The state the session is given back in when the attempt comes to nothing. */
  function GivenBack(row: Row): Lifecycle {
    if row.lifecycle != Failed then row.lifecycle
    else if row.retryState.Some? then row.retryState.value
    else if row.revision == 0 then SummaryPending else RevisionPending
  }

  lemma RestReachesClaiming(setup: Setup, w: World)
    requires AtRest(setup, w)
    ensures var s := Next(setup, System(w, Idle), Wake);
            Next(setup, Next(setup, Next(setup, s, Fine(false)), Fine(false)), Fine(false)) == System(w, Claiming)
  {
    hide Importable, Reconcile;
    var s := Next(setup, System(w, Idle), Wake);
    assert s == System(w, Starting);
    var s1 := Next(setup, s, Fine(false));
    assert s1 == System(w, Reconciling);
    var s2 := Next(setup, s1, Fine(false));
    assert s2 == System(w, Gate);
  }

  lemma ClaimingClaims(setup: Setup, w: World)
    requires w.row.lifecycle != Processing
    ensures var after := Next(setup, System(w, Claiming), Fine(false));
            && (after.pc.Working? <==> Waits(w.row))
            && (Waits(w.row) ==>
                  && after.pc == Working(|w.attempts|, w.row)
                  && after.world == w.(
                       row := w.row.(lifecycle := Processing, retryState := Some(GivenBack(w.row)), token := Some(|w.attempts|)),
                       attempts := w.attempts + [Attempt(Running, GivenBack(w.row), None)]))
            && (!Waits(w.row) ==> after == System(w, Idle))
  {
  }

  /** A fault-free worker claims a session at rest if and only if it is neither just observed nor archived
      nor failed and parked; the claim opens one attempt that remembers the state to give back, and a
      session that is not claimed stays as it is. */
  lemma ClaimsIff(setup: Setup, w: World)
    requires AtRest(setup, w)
    ensures var after := Run(setup, System(w, Idle), ClaimRun());
            && (after.pc.Working? <==> Waits(w.row))
            && (Waits(w.row) ==>
                  && after.pc == Working(|w.attempts|, w.row)
                  && |after.world.attempts| == |w.attempts| + 1
                  && after.world.attempts[|w.attempts|] == Attempt(Running, GivenBack(w.row), None)
                  && after.world.row.lifecycle == Processing && after.world.row.token == Some(|w.attempts|)
                  && after.world.file == w.file && after.world.log == w.log)
            && (!Waits(w.row) ==> after == System(w, Idle))
  {
    RunFive(setup, System(w, Idle), Wake, Fine(false), Fine(false), Fine(false), Fine(false));
    RestReachesClaiming(setup, w);
    ClaimingClaims(setup, w);
    hide Next, Run, AtRest;
  }

  /** A failed attempt that was not parked is followed by another: the next fault-free worker claims the
      session again, and its attempt gives back the state the failed one came from. A parked one is left
      alone. */
  lemma FailedIsTriedAgain(setup: Setup, s: System, park: bool)
    requires Inv(setup, s) && s.pc.Failing? && s.pc.park == park && s.pc.id < |s.world.attempts|
    requires Reconcile(setup, FailAttempt(s.world, s.pc.id, park)).NothingToReconcile?
    ensures var failed := Next(setup, s, Fine(false));
            var after := Run(setup, failed, ClaimRun());
            && failed.pc == Idle && failed.world.row.lifecycle == Failed && failed.world.row.parked == park
            && failed.world.row.revision == s.world.row.revision && failed.world.file == s.world.file
            && (after.pc.Working? <==> !park)
            && (!park ==>
                  && |after.world.attempts| == |s.world.attempts| + 1
                  && after.world.attempts[|s.world.attempts|]
                     == Attempt(Running, s.world.attempts[s.pc.id].retryState, None))
            && (park ==> after == failed)
  {
    var failed := Next(setup, s, Fine(false));
    FailureLeaves(setup, s, park);
    hide Inv, Next, Run, ClaimRun;
    assert failed == System(failed.world, Idle);
    ClaimsIff(setup, failed.world);
  }

  lemma FailureLeaves(setup: Setup, s: System, park: bool)
    requires Inv(setup, s) && s.pc.Failing? && s.pc.park == park && s.pc.id < |s.world.attempts|
    requires Reconcile(setup, FailAttempt(s.world, s.pc.id, park)).NothingToReconcile?
    ensures var failed := Next(setup, s, Fine(false));
            && failed.pc == Idle && AtRest(setup, failed.world)
            && failed.world == FailAttempt(s.world, s.pc.id, park)
            && failed.world.row.lifecycle == Failed && failed.world.row.parked == park
            && s.pc.id < |s.world.attempts| && |failed.world.attempts| == |s.world.attempts|
            && failed.world.row.retryState == Some(s.world.attempts[s.pc.id].retryState)
            && failed.world.row.revision == s.world.row.revision && failed.world.file == s.world.file
  {
    hide Parse, PlanIsOwn, LogOk, StatesOk, FileIsPlanned, ValidSetup, ReadsAs, Reconcile;
    var w := s.world;
    assert w.row.revision == 0 ==> w.(file := setup.base) == w;
  }

  /** A session left in processing by a worker that died before its plan is given back and claimed again
      by the next one, exactly when the state it is given back in waits for a worker. */
  lemma AbandonedIsClaimedIff(setup: Setup, w: World)
    requires ValidSetup(setup) && Consistent(setup, w)
    requires w.row.lifecycle == Processing && PendingPlan(w).None? && FileIsRecorded(setup, w)
    ensures var id := |w.attempts| - 1;
            var after := Run(setup, System(w, Idle), ClaimRun());
            && id >= 0
            && (after.pc.Working? <==> w.attempts[id].retryState != Observed)
            && (after.pc.Working? ==>
                  && |after.world.attempts| == |w.attempts| + 1
                  && after.world.attempts[id].outcome == AttemptFailed
                  && after.world.attempts[|w.attempts|].outcome == Running)
  {
    AbandonLeaves(setup, w);
    RunFive(setup, System(w, Idle), Wake, Fine(false), Fine(false), Fine(false), Fine(false));
    AbandonReachesClaiming(setup, w);
    ClaimingClaims(setup, Abandon(w));
    hide Next, Run, Consistent, Abandon;
  }

  lemma AbandonLeaves(setup: Setup, w: World)
    requires Consistent(setup, w) && w.row.lifecycle == Processing
    ensures var id := |w.attempts| - 1;
            && id >= 0
            && Abandon(w).attempts == w.attempts[id := w.attempts[id].(outcome := AttemptFailed)]
            && Abandon(w).row.lifecycle == w.attempts[id].retryState
            && Abandon(w).row.lifecycle != Processing && Abandon(w).row.lifecycle != Archived
            && !Abandon(w).row.parked
  {
    hide Parse, PlanIsOwn, LogOk, FileIsPlanned, FileIsRecorded, Importable;
    NewestIsCurrent(w);
  }

  lemma AbandonReachesClaiming(setup: Setup, w: World)
    requires Consistent(setup, w) && w.row.lifecycle == Processing && PendingPlan(w).None? && FileIsRecorded(setup, w)
    requires Abandon(w).row.lifecycle != Processing
    ensures var s := Next(setup, System(w, Idle), Wake);
            Next(setup, Next(setup, Next(setup, s, Fine(false)), Fine(false)), Fine(false)) == System(Abandon(w), Claiming)
  {
    hide Parse, PlanIsOwn, LogOk, StatesOk, FileIsPlanned, ReadsAs, PendingFrom, Abandon;
    var s := Next(setup, System(w, Idle), Wake);
    assert w.row.revision == 0 ==> w.(file := setup.base) == w && w.attempts != [];
    assert s == System(w, Starting);
    var s1 := Next(setup, s, Fine(false));
    assert s1 == System(w, Reconciling);
    var s2 := Next(setup, s1, Fine(false));
    assert s2 == System(w, Gate);
  }

  // ----- what a finished attempt leaves

  /** A session is taken up again after its attempt settled exactly when the transcript had not changed
      what is archived but had moved on meanwhile. Otherwise it is archived as it was, or goes back to
      being observed when there was nothing worth archiving. */
  lemma SettledIsClaimedIff(setup: Setup, s: System)
    requires Inv(setup, s) && s.pc.Settling? && s.pc.id < |s.world.attempts|
    ensures var settled := Next(setup, s, Fine(false));
            && settled.pc == Idle && settled.world.file == s.world.file && settled.world.log == s.world.log
            && settled.world.row.revision == s.world.row.revision && settled.world.row.summary == s.world.row.summary
            && |settled.world.attempts| == |s.world.attempts|
            && settled.world.attempts[..s.pc.id] == s.world.attempts[..s.pc.id]
            && settled.world.attempts[s.pc.id].outcome == (if s.pc.noChange then Superseded else Succeeded)
            && (Waits(settled.world.row) <==> s.pc.noChange && !s.pc.sameGeneration)
            && (!Waits(settled.world.row) ==> settled.world.row.lifecycle == if s.pc.noChange then Archived else Observed)
            && (Reconcile(setup, settled.world).NothingToReconcile? ==>
                  (Run(setup, settled, ClaimRun()).pc.Working? <==> s.pc.noChange && !s.pc.sameGeneration))
  {
    hide *;
    SettlingLeaves(setup, s);
    var settled := Next(setup, s, Fine(false));
    assert settled == System(settled.world, Idle);
    if Reconcile(setup, settled.world).NothingToReconcile? {
      ClaimsIff(setup, settled.world);
    }
  }

  lemma SettlingLeaves(setup: Setup, s: System)
    requires Inv(setup, s) && s.pc.Settling? && s.pc.id < |s.world.attempts|
    ensures var settled := Next(setup, s, Fine(false));
            && settled.pc == Idle && settled.world.file == s.world.file && settled.world.log == s.world.log
            && settled.world.row.revision == s.world.row.revision && settled.world.row.summary == s.world.row.summary
            && |settled.world.attempts| == |s.world.attempts|
            && settled.world.attempts[..s.pc.id] == s.world.attempts[..s.pc.id]
            && settled.world.attempts[s.pc.id].outcome == (if s.pc.noChange then Superseded else Succeeded)
            && settled.world.row.lifecycle == (if !s.pc.noChange then Observed
                                               else if s.pc.sameGeneration then Archived else RevisionPending)
            && (Waits(settled.world.row) <==> s.pc.noChange && !s.pc.sameGeneration)
            && (Reconcile(setup, settled.world).NothingToReconcile? ==> AtRest(setup, settled.world))
  {
    hide Parse, PlanIsOwn, LogOk, StatesOk, FileIsPlanned, ValidSetup, ReadsAs, Reconcile, RowIsPlaceholder;
    var w := s.world;
    assert w.row.revision == 0 ==> w.(file := setup.base) == w;
  }

  /** A session is taken up again after its attempt completed exactly when it recorded a real summary and
      the transcript had moved on meanwhile; a placeholder parks it, and otherwise it is archived. */
  lemma CompletedIsClaimedIff(setup: Setup, s: System)
    requires Inv(setup, s) && s.pc.Completing?
    ensures var d := s.pc.draft;
            var done := Next(setup, s, Fine(false));
            && done.pc == Idle && done.world.file == s.world.file && done.world.log == s.world.log
            && done.world.row.revision == d.rendered.number && done.world.row.summary == Some(d.rendered.summary)
            && (Waits(done.world.row) <==> !d.placeholder && !d.sameGeneration)
            && (d.placeholder ==> done.world.row.lifecycle == Failed && done.world.row.parked)
            && (!d.placeholder && d.sameGeneration ==> done.world.row.lifecycle == Archived)
            && (Reconcile(setup, done.world).NothingToReconcile? ==>
                  (Run(setup, done, ClaimRun()).pc.Working? <==> !d.placeholder && !d.sameGeneration))
  {
    CompletingLeaves(setup, s);
    hide Inv, Next, Run, ClaimRun, Reconcile;
    var done := Next(setup, s, Fine(false));
    assert done == System(done.world, Idle);
    if Reconcile(setup, done.world).NothingToReconcile? {
      ClaimsIff(setup, done.world);
    }
  }

  lemma DraftIsCompletable(setup: Setup, w: World, id: nat, d: Draft)
    requires Written(setup, w, id, d)
    requires w.attempts != [] && (w.attempts[|w.attempts| - 1].outcome == Running <==> w.row.token.Some?)
    ensures Completable(w, id, PersistedDraft(d, setup.hash))
  {
    hide Render, PlanFits, FileIsRecorded;
  }

  lemma CompleteLeaves(w: World, id: nat, p: Persisted, placeholder: bool, same: bool)
    requires Completable(w, id, p)
    ensures var after := Complete(w, id, p, false, placeholder, same);
            && after.Some? && after.value.file == w.file && after.value.log == w.log
            && after.value.row.revision == p.revision && after.value.row.summary == Some(p.summary)
            && (placeholder ==> after.value.row.lifecycle == Failed && after.value.row.parked)
            && (!placeholder ==> after.value.row.lifecycle == if same then Archived else RevisionPending)
  {
    hide Restates;
  }

  lemma CurrentRuns(setup: Setup, w: World)
    requires Consistent(setup, w)
    ensures w.row.token.Some? ==> w.attempts != []
    ensures w.attempts != [] ==> (w.attempts[|w.attempts| - 1].outcome == Running <==> w.row.token.Some?)
  {
    hide LogOk, StatesOk, PlanIsOwn, FileIsPlanned, FileIsRecorded, Importable;
  }

  lemma CompletingLeaves(setup: Setup, s: System)
    requires Inv(setup, s) && s.pc.Completing?
    ensures var d := s.pc.draft;
            var done := Next(setup, s, Fine(false));
            && done.pc == Idle && done.world.file == s.world.file && done.world.log == s.world.log
            && done.world.row.revision == d.rendered.number > 0 && done.world.row.summary == Some(d.rendered.summary)
            && (d.placeholder ==> done.world.row.lifecycle == Failed && done.world.row.parked)
            && (!d.placeholder ==> done.world.row.lifecycle == if d.sameGeneration then Archived else RevisionPending)
  {
    hide *;
    var w, id, d := s.world, s.pc.id, s.pc.draft;
    AtCompleting(setup, s);
    CurrentRuns(setup, w);
    WrittenIsCurrent(setup, w, id, d);
    DraftIsPositive(setup, w, id, d);
    DraftIsCompletable(setup, w, id, d);
    DraftSays(d, setup.hash);
    FineCompleting(setup, w, id, d);
    CompleteLeaves(w, id, PersistedDraft(d, setup.hash), d.placeholder, d.sameGeneration);
    assert s == System(w, Completing(id, d));
  }

  lemma DraftIsPositive(setup: Setup, w: World, id: nat, d: Draft)
    requires Written(setup, w, id, d)
    ensures d.rendered.number > 0
  {
    DraftReadsAs(setup, w, id, d);
    hide Written, PersistedDraft, ReadsAs;
  }

  lemma WrittenIsCurrent(setup: Setup, w: World, id: nat, d: Draft)
    requires Written(setup, w, id, d)
    ensures w.row.token.Some?
  {
    hide Render, PlanFits, FileIsRecorded, PlanFor;
  }

  lemma DraftSays(d: Draft, hash: string -> string)
    ensures PersistedDraft(d, hash).revision == d.rendered.number && PersistedDraft(d, hash).summary == d.rendered.summary
  {
    hide Render;
  }

  lemma FineCompleting(setup: Setup, w: World, id: nat, d: Draft)
    ensures var after := Complete(w, id, PersistedDraft(d, setup.hash), false, d.placeholder, d.sameGeneration);
            Next(setup, System(w, Completing(id, d)), Fine(false)) == System(if after.Some? then after.value else w, Idle)
  {
    CompletingStep(setup, w, id, d, Fine(false));
    hide StepWorker, Complete, PersistedDraft;
  }

  // ----- what an import leaves

  /** Importing takes over what the file says, and only from a file that reads as a later revision of this
      very session. A session that had work waiting goes on waiting when a hook had recorded it; one that
      is being processed stays so; any other is archived, and parked when the file holds a placeholder. */
  lemma HydrateSays(setup: Setup, w: World, observed: bool)
    ensures var after := Hydrate(setup, w, observed);
            var read := if w.file.Some? then Parse(w.file.value) else Failure(InvalidArchive);
            var imports := read.Success? && read.value.source == setup.source && read.value.sessionId == setup.session
                           && read.value.revision > w.row.revision;
            && after.attempts == w.attempts && after.file == w.file && after.log == w.log
            && (!imports ==> after == w)
            && (imports ==>
                  && after.row.revision == read.value.revision && after.row.summary == Some(read.value.summary)
                  && after.row.markdownHash == Some(setup.hash(w.file.value)) && after.row.token == w.row.token
                  && (after.row.lifecycle == Processing <==> w.row.lifecycle == Processing)
                  && (w.row.lifecycle != Processing ==>
                        && (Waits(after.row) <==> observed && w.row.lifecycle != Observed && w.row.lifecycle != Archived)
                        && (!Waits(after.row) ==>
                              if read.value.summaryPlaceholder then after.row.lifecycle == Failed && after.row.parked
                              else after.row.lifecycle == Archived)))
  {
    hide Parse;
  }

  // ----- what reconciliation accepts

  /** The file is taken for the pending plan's exactly when it has the planned hash, reads, and states this
      session and the plan's revision and cursor; a file with the planned hash that does not read stops
      the worker, and any other is left for a new attempt. */
  lemma ReconcileIff(setup: Setup, w: World)
    ensures var found, pending := Reconcile(setup, w), PendingPlan(w);
            var hashed := pending.Some? && w.file.Some? && w.attempts[pending.value].plan.value.markdownHash == setup.hash(w.file.value);
            && (found.Unreadable? <==> hashed && Parse(w.file.value).Failure?)
            && (found.Matches? <==>
                  && hashed && Parse(w.file.value).Success?
                  && StatesPlan(setup, Parse(w.file.value).value, w.attempts[pending.value].plan.value))
            && (found.Matches? ==> found == Matches(pending.value, Parse(w.file.value).value))
  {
    hide Parse;
  }

  predicate StatesPlan(setup: Setup, m: ArchivedMarkdown, plan: Plan) {
    && m.sessionId == setup.session && m.revision == plan.revision && m.cursor.Some?
    && (m.cursor.value.recordCount, m.cursor.value.byteOffset) == (plan.recordCount, plan.byteOffset)
    && (m.cursor.value.prefixHash, m.cursor.value.sourceHash) == (plan.prefixHash, plan.sourceHash)
  }

  /** What a reconciled attempt records is what the file says: its revision, cursor, reasons and summary;
      only the hash, which the file was found by, and the kind of history come from the plan. */
  lemma FoundSays(plan: Plan, m: ArchivedMarkdown)
    requires m.cursor.Some?
    ensures var p := PersistedFound(plan, m);
            && p.revision == m.revision && p.summary == m.summary
            && (p.recordCount, p.byteOffset) == (m.cursor.value.recordCount, m.cursor.value.byteOffset)
            && (p.prefixHash, p.sourceHash) == (m.cursor.value.prefixHash, m.cursor.value.sourceHash)
            && p.sourceBytes == m.cursor.value.sourceBytes
            && p.completionReason == m.completionReason && p.fallbackReason == m.fallbackReason
            && p.markdownHash == plan.markdownHash && p.gitHistory == plan.gitHistory
  {
  }

  // ----- what is read and written on the way

  /** The prior archive is taken only from a file that has the recorded hash, reads, and states this
      session and the row's revision; before the first revision there is none to take. */
  lemma PriorIff(setup: Setup, w: World, row: Row)
    ensures var prior := LoadPrior(setup, w, row);
            var believed := w.file.Some? && (row.markdownHash.Some? ==> row.markdownHash.value == setup.hash(w.file.value))
                            && Parse(w.file.value).Success?
                            && Parse(w.file.value).value.sessionId == setup.session
                            && Parse(w.file.value).value.revision == row.revision;
            && (prior == Some(None) <==> row.revision == 0)
            && (prior.Some? && prior.value.Some? <==> row.revision > 0 && believed)
            && (row.revision > 0 && believed ==> prior == Some(Some(Parse(w.file.value).value)))
  {
    hide Parse;
  }

  /** A replacement of the archive file that reports an error parks the session, unless the file has the
      planned content's hash all the same; then the attempt stays open for the next worker to finish. */
  lemma FailedWriteParks(setup: Setup, s: System, fate: Fate, input: Input, flag: bool)
    requires Inv(setup, s) && s.pc.Writing? && fate != Works
    ensures var after := Next(setup, s, Step(fate, input, flag));
            var planned := Render(s.pc.draft.rendered);
            && after.world.row == s.world.row && after.world.attempts == s.world.attempts && after.world.log == s.world.log
            && after.world.file == (if fate == Lost then Some(planned) else s.world.file)
            && (if after.world.file.Some? && setup.hash(after.world.file.value) == setup.hash(planned)
                then after.pc == Idle && PendingPlan(after.world) == Some(s.pc.id)
                else
                  var parked := Next(setup, after, Fine(false));
                  && after.pc == Failing(s.pc.id, true)
                  && parked.pc == Idle && parked.world.row.lifecycle == Failed && parked.world.row.parked)
  {
    hide *;
    var w, id, d := s.world, s.pc.id, s.pc.draft;
    var e := Step(fate, input, flag);
    StepOf(setup, s, e);
    WritingStep(setup, w, id, d, e);
    AtWriting(setup, s);
    ArrivedIff(setup, Next(setup, s, e).world.file, Render(d.rendered));
    FailingParks(setup, Next(setup, s, e).world, id);
  }

  lemma StepOf(setup: Setup, s: System, e: Event)
    requires e.Step?
    ensures Next(setup, s, e) == StepWorker(setup, s, e)
  {
    hide StepWorker;
  }

  lemma ArrivedIff(setup: Setup, file: Option<string>, text: string)
    ensures Arrived(setup, file, text) <==> file.Some? && setup.hash(file.value) == setup.hash(text)
  {
  }

  lemma AtWriting(setup: Setup, s: System)
    requires Inv(setup, s) && s.pc.Writing?
    ensures s.world.row.token == Some(s.pc.id) && s.pc.id < |s.world.attempts|
    ensures forall file, log :: PendingPlan(World(s.world.row, s.world.attempts, file, log)) == Some(s.pc.id)
  {
    hide ValidSetup, LogOk, StatesOk, PlanIsOwn, FileIsPlanned, FileIsRecorded, Importable, DraftFits, PlanFor;
    assert PendingFrom(s.world.attempts) == Some(s.pc.id);
  }

  lemma FailingParks(setup: Setup, w: World, id: nat)
    ensures w.row.token == Some(id) && id < |w.attempts| ==>
              var parked := Next(setup, System(w, Failing(id, true)), Fine(false));
              parked.pc == Idle && parked.world.row.lifecycle == Failed && parked.world.row.parked
  {
  }

  // ----- what becomes of a claimed attempt

  /** The recorded archive can be read and there is room for another revision. */
  predicate CanGoOn(w: World) {
    && w.row.revision + 1 < U64_BOUND
    && (w.row.revision > 0 ==> w.file.Some? && Parse(w.file.value).Success?)
  }

  /** What a claimed attempt goes on with, outcome by outcome and in terms of the row alone: a summary is
      planned at the next revision unless it is a placeholder; a rejection is planned as a placeholder
      only where no real summary is recorded; a moved cursor only where one is; without any of these the
      attempt settles, fails or is deferred as the outcome says. */
  lemma DecideIff(setup: Setup, s: System, input: Input)
    requires Inv(setup, s) && s.pc.Working?
    ensures var w, id := s.world, s.pc.id;
            var next := Decide(setup, w, id, s.pc.claimed, input);
            if !CanGoOn(w) then next == Failing(id, false)
            else match input
              case DeferInput => next == Deferring
              case NotWorthyInput => next == Settling(id, false, false)
              case FailInput(park) => next == Failing(id, park)
              case UnchangedInput(same) =>
                next == if IsReal(w.row) then Settling(id, true, same) else Failing(id, false)
              case SummarisedInput(r, git, same) =>
                var revision := r.(number := w.row.revision + 1);
                next == if Renderable(setup, revision) && !r.summary.IsPlaceholder()
                        then Planning(id, Draft(revision, git, false, false, same, w.file)) else Failing(id, false)
              case RejectedInput(r, git, same, park) =>
                var revision := r.(number := w.row.revision + 1);
                next == if !IsReal(w.row) && Renderable(setup, revision) && r.summary.IsPlaceholder()
                        then Planning(id, Draft(revision, git, true, false, same, w.file)) else Failing(id, park)
              case CursorOnlyInput(r, same) =>
                if !IsReal(w.row) then next == Failing(id, false)
                else
                  var revision := r.(number := w.row.revision, summary := Parse(w.file.value).value.summary);
                  next == if Renderable(setup, revision)
                          then Planning(id, Draft(revision, false, false, true, same, w.file)) else Failing(id, false)
  {
    hide Renderable, StructuredSummary.IsPlaceholder, Parse;
    AtWork(setup, s);
    PriorSays(setup, s.world, s.pc.claimed);
    hide Inv, LoadPrior, FileIsRecorded, ReadBackSummary;
  }

  lemma AtWork(setup: Setup, s: System)
    requires Inv(setup, s) && s.pc.Working?
    ensures FileIsRecorded(setup, s.world)
    ensures s.world.row.revision > 0 <==> s.world.row.summary.Some?
    ensures s.pc.claimed.revision == s.world.row.revision && s.pc.claimed.markdownHash == s.world.row.markdownHash
  {
    hide ValidSetup, FileIsRecorded, FileIsPlanned, LogOk, StatesOk, PlanIsOwn, Importable;
  }

  lemma PriorSays(setup: Setup, w: World, claimed: Row)
    requires FileIsRecorded(setup, w) && (w.row.revision > 0 <==> w.row.summary.Some?)
    requires claimed.revision == w.row.revision && claimed.markdownHash == w.row.markdownHash
    ensures var prior := LoadPrior(setup, w, claimed);
            && (prior.Some? <==> (w.row.revision > 0 ==> w.file.Some? && Parse(w.file.value).Success?))
            && (prior.Some? && w.row.revision == 0 ==> prior.value.None?)
            && (prior.Some? && w.row.revision > 0 ==>
                  && prior.value == Some(Parse(w.file.value).value)
                  && (prior.value.value.summaryPlaceholder <==> !IsReal(w.row)))
  {
    hide Parse, ReadBackSummary, StructuredSummary.IsPlaceholder;
  }
}
