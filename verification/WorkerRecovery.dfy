/** When recovery finishes what a crash interrupted, and when it never can. */
module WorkerRecovery {
  import opened Wrappers
  import opened Text
  import opened Summary
  import opened ArchiveRecord
  import opened ArchiveReader
  import opened ArchiveRoundTrip
  import opened CommitMessage
  import opened WorkerStore
  import opened WorkerMachine
  import opened WorkerSafety
  import opened WorkerSteps
  import opened WorkerTheorems

  // ----- recovery completes

  /** One fault-free step; `sameGeneration` says whether the transcript is still the summarised one. */
  function Fine(sameGeneration: bool): Event {
    Step(Works, DeferInput, sameGeneration)
  }

  function RecoveryRun(sameGeneration: bool): seq<Event> {
    [Wake, Fine(sameGeneration), Fine(sameGeneration), Fine(sameGeneration), Fine(sameGeneration)]
  }

  lemma RunFive(setup: Setup, s: System, a: Event, b: Event, c: Event, d: Event, e: Event)
    ensures Run(setup, s, [a, b, c, d, e]) ==
            Next(setup, Next(setup, Next(setup, Next(setup, Next(setup, s, a), b), c), d), e)
  {
    hide Next;
    var s1 := Next(setup, s, a);
    var s2 := Next(setup, s1, b);
    var s3 := Next(setup, s2, c);
    var s4 := Next(setup, s3, d);
    assert [a, b, c, d, e][1..] == [b, c, d, e];
    assert [b, c, d, e][1..] == [c, d, e];
    assert [c, d, e][1..] == [d, e];
    assert [d, e][1..] == [e];
    assert [e][1..] == [];
    assert Run(setup, s4, [e]) == Next(setup, s4, e);
    assert Run(setup, s3, [d, e]) == Run(setup, s4, [e]);
    assert Run(setup, s2, [c, d, e]) == Run(setup, s3, [d, e]);
    assert Run(setup, s1, [b, c, d, e]) == Run(setup, s2, [c, d, e]);
  }

  /** The attempt is over and the row records its plan. */
  predicate Finished(w: World, id: nat, plan: Plan) {
    && id < |w.attempts|
    && w.attempts[id].outcome != Running
    && w.row.revision == plan.revision
    && w.row.markdownHash == Some(plan.markdownHash)
    && w.row.token == None
  }

  /** What reconciliation does with the pending plan's own content, from the file on. */
  lemma FoundRecovers(setup: Setup, w: World, id: nat, m: ArchivedMarkdown, same: bool)
    requires Reconcile(setup, w) == Matches(id, m) && IsRunning(w, id) && w.row.token == Some(id)
    requires Restates(PersistedFound(w.attempts[id].plan.value, m), w.attempts[id].plan.value)
    ensures var plan := w.attempts[id].plan.value;
            var after := Next(setup, Next(setup, Next(setup, System(w, Reconciling), Fine(same)), Fine(same)), Fine(same));
            if plan.gitHistory ==> LogReadable(w.log)
            then after.pc == Idle && Finished(after.world, id, plan) && after.world.file == w.file
            else after == System(w, Idle)
  {
    assert m.cursor.Some?;
    hide Restates, Finished;
    var plan := w.attempts[id].plan.value;
    FoundGoesOn(setup, w, id, m, same);
    hide Reconcile, AgreesWithPlan;
    if plan.gitHistory {
      CommittingGoesOn(setup, w, id, m, same);
      IdleStays(setup, w, same);
      var log := Commit(w.log, CommitIdOf(setup, m.revision), Works).0;
      hide Next, Commit, LogReadable;
      CompletingFinishes(setup, w.(log := log), id, m, same);
    } else {
      CompletingFinishes(setup, w, id, m, same);
      hide Next;
      var s := Next(setup, System(w, ReconcileCompleting(id, m)), Fine(same));
      IdleStays(setup, s.world, same);
    }
  }

  lemma FoundGoesOn(setup: Setup, w: World, id: nat, m: ArchivedMarkdown, same: bool)
    requires Reconcile(setup, w) == Matches(id, m)
    ensures Next(setup, System(w, Reconciling), Fine(same)) ==
            System(w, if w.attempts[id].plan.value.gitHistory then ReconcileCommitting(id, m)
                      else ReconcileCompleting(id, m))
  {
    hide Reconcile;
  }

  lemma CommittingGoesOn(setup: Setup, w: World, id: nat, m: ArchivedMarkdown, same: bool)
    ensures Next(setup, System(w, ReconcileCommitting(id, m)), Fine(same)) ==
            if LogReadable(w.log)
            then System(w.(log := Commit(w.log, CommitIdOf(setup, m.revision), Works).0), ReconcileCompleting(id, m))
            else System(w, Idle)
  {
    hide LogReadable, LogHolds, LogOutput, Messages;
  }

  lemma IdleStays(setup: Setup, w: World, same: bool)
    ensures Next(setup, System(w, Idle), Fine(same)) == System(w, Idle)
  {
  }

  lemma CompletingFinishes(setup: Setup, w: World, id: nat, m: ArchivedMarkdown, same: bool)
    requires IsRunning(w, id) && w.attempts[id].plan.Some? && w.row.token == Some(id) && m.cursor.Some?
    requires Restates(PersistedFound(w.attempts[id].plan.value, m), w.attempts[id].plan.value)
    ensures var after := Next(setup, System(w, ReconcileCompleting(id, m)), Fine(same));
            && after.pc == Idle && after.world.file == w.file
            && Finished(after.world, id, w.attempts[id].plan.value)
  {
  }

  /** Reconciliation of the pending plan's own content finds it, unless the content does not read. */
  lemma PlannedIsFound(setup: Setup, w: World)
    requires Consistent(setup, w) && FileIsPlanned(w)
    ensures var id := |w.attempts| - 1;
            var plan := CurrentPlan(w);
            && IsRunning(w, id) && w.row.token == Some(id) && PendingPlan(w) == Some(id)
            && w.attempts[id].plan == Some(plan)
            && match Parse(w.file.value)
               case Failure(_) => plan.rendered.summary.workCompleted == ["None."] && Reconcile(setup, w) == Unreadable
               case Success(m) =>
                 && plan.rendered.summary.workCompleted != ["None."]
                 && Reconcile(setup, w) == Matches(id, m)
                 && m.cursor.Some? && Restates(PersistedFound(plan, m), plan)
  {
    hide Parse, Render, FileIsRecorded, LogOk, StatesOk, Importable, AgreesWithPlan, Renderable, Restates;
    PendingIsCurrent(w);
    var plan := CurrentPlan(w);
    assert plan == PlanFor(plan.rendered, plan.gitHistory, setup.hash);
    RenderReads(setup, plan.rendered);
    if Parse(w.file.value).Success? {
      AgreesOnCursor(setup, Parse(w.file.value).value, plan);
    }
    hide Consistent, PlanIsOwn, PersistedFound, PlanFor, ReadBackSummary, StructuredSummary.IsPlaceholder;
  }

  lemma AgreesOnCursor(setup: Setup, m: ArchivedMarkdown, plan: Plan)
    requires AgreesWithPlan(setup, m, plan)
    ensures m.cursor.Some?
  {
  }

  lemma StartingReconciles(setup: Setup, w: World, same: bool)
    ensures var s := Next(setup, System(w, Starting), Fine(same));
            && s.pc == Reconciling
            && s.world.attempts == w.attempts && s.world.row.token == w.row.token
            && s.world.file == w.file && s.world.log == w.log
            && Reconcile(setup, s.world) == Reconcile(setup, w)
  {
    hide Parse, AgreesWithPlan;
  }

  /** Recovery is never stuck on the pending plan's own content: a fault-free run completes the
      attempt with the planned revision if and only if the planned work list is not the lone
      `None.` and, for a plan tracked in Git, the log can still be read. */
  lemma RecoveryIff(setup: Setup, w: World, same: bool)
    requires Consistent(setup, w) && FileIsPlanned(w)
    ensures var after := Run(setup, System(w, Idle), RecoveryRun(same));
            var plan := CurrentPlan(w);
            && after.pc == Idle && after.world.file == w.file
            && (Finished(after.world, |w.attempts| - 1, plan) <==>
                  && plan.rendered.summary.workCompleted != ["None."]
                  && (plan.gitHistory ==> LogReadable(w.log)))
  {
    var plan := CurrentPlan(w);
    hide Consistent, FileIsPlanned, CurrentIsPlanned, LogReadable, Next, Run, Parse, Reconcile, PersistedFound, Restates;
    hide Finished;
    PlannedIsFound(setup, w);
    RunFive(setup, System(w, Idle), Wake, Fine(same), Fine(same), Fine(same), Fine(same));
    WakeStarts(setup, w);
    StartingReconciles(setup, w, same);
    FromReconciling(setup, Next(setup, System(w, Starting), Fine(same)).world, |w.attempts| - 1, plan, same);
  }

  lemma FromReconciling(setup: Setup, w: World, id: nat, plan: Plan, same: bool)
    requires IsRunning(w, id) && w.row.token == Some(id) && w.attempts[id].plan == Some(plan)
    requires match Reconcile(setup, w)
             case NothingToReconcile => false
             case Unreadable => plan.rendered.summary.workCompleted == ["None."]
             case Matches(i, m) =>
               && i == id && plan.rendered.summary.workCompleted != ["None."]
               && m.cursor.Some? && Restates(PersistedFound(plan, m), plan)
    ensures var after := Next(setup, Next(setup, Next(setup, System(w, Reconciling), Fine(same)), Fine(same)), Fine(same));
            && after.pc == Idle && after.world.file == w.file
            && (Finished(after.world, id, plan) <==>
                  && plan.rendered.summary.workCompleted != ["None."]
                  && (plan.gitHistory ==> LogReadable(w.log)))
  {
    hide LogReadable, Next, Reconcile, PersistedFound, Restates;
    match Reconcile(setup, w)
    case Matches(_, m) => FoundRecovers(setup, w, id, m, same);
    case Unreadable => UnreadableStops(setup, w, same);
  }

  lemma WakeStarts(setup: Setup, w: World)
    ensures Next(setup, System(w, Idle), Wake) == System(w, Starting)
  {
    hide StepWorker;
  }

  lemma UnreadableStops(setup: Setup, w: World, same: bool)
    requires Reconcile(setup, w) == Unreadable
    ensures Next(setup, Next(setup, Next(setup, System(w, Reconciling), Fine(same)), Fine(same)), Fine(same))
            == System(w, Idle)
  {
    hide Reconcile;
  }

  /** With a hash that determines its content, a file with the hash of the row's own pending plan is
      that plan's content, so `RecoveryIff` speaks of every such file. */
  lemma HashedIsPlanned(setup: Setup, w: World)
    requires Consistent(setup, w) && CurrentIsPlanned(w) && w.file.Some?
    requires forall a: string, b: string :: setup.hash(a) == setup.hash(b) ==> a == b
    requires setup.hash(w.file.value) == CurrentPlan(w).markdownHash
    ensures FileIsPlanned(w)
  {
    hide FileIsRecorded, LogOk, StatesOk, Importable, PlanFits, Render;
    var plan := CurrentPlan(w);
    assert setup.hash(w.file.value) == setup.hash(Render(plan.rendered));
  }

  // ----- recovery that never completes

  /** The session's worker can go no further: the file matches a pending plan that is not the row's
      own, or does not read. */
  predicate Stuck(setup: Setup, s: System) {
    match Reconcile(setup, s.world)
    case NothingToReconcile => false
    case Unreadable => s.pc.Idle? || s.pc.Starting? || s.pc.Reconciling?
    case Matches(id, _) =>
      && s.world.row.token != Some(id)
      && match s.pc
         case Idle => true
         case Starting => true
         case Reconciling => true
         case ReconcileCommitting(i, _) => i == id
         case ReconcileCompleting(i, _) => i == id
         case _ => false
  }

  lemma ReconcileIgnoresRow(setup: Setup, w: World, after: World)
    requires after.attempts == w.attempts && after.file == w.file
    ensures Reconcile(setup, after) == Reconcile(setup, w)
  {
    hide Parse, AgreesWithPlan;
  }

  lemma StuckStep(setup: Setup, s: System, e: Event)
    requires Stuck(setup, s)
    ensures Stuck(setup, Next(setup, s, e))
    ensures Next(setup, s, e).world.attempts == s.world.attempts
    ensures Next(setup, s, e).world.file == s.world.file
    ensures Next(setup, s, e).world.row.token == s.world.row.token
  {
    hide Reconcile, Commit, Importable;
    var after := Next(setup, s, e);
    assert after.world.attempts == s.world.attempts && after.world.file == s.world.file;
    ReconcileIgnoresRow(setup, s.world, after.world);
  }

  /** Stuck is for good: whatever happens next, no attempt is claimed or completed and the file stays
      as it is. */
  lemma {:induction false} StuckForever(setup: Setup, s: System, events: seq<Event>)
    requires Stuck(setup, s)
    ensures var after := Run(setup, s, events);
            && Stuck(setup, after)
            && after.world.attempts == s.world.attempts && after.world.file == s.world.file
    decreases |events|
  {
    hide Stuck, Next;
    if events != [] {
      StuckStep(setup, s, events[0]);
      StuckForever(setup, Next(setup, s, events[0]), events[1..]);
    }
  }

  /** The recorded file does not read and nothing is about to replace it. */
  predicate Unread(s: System) {
    && s.world.row.revision > 0
    && s.world.file.Some? && Parse(s.world.file.value).Failure?
    && match s.pc
       case Idle => true
       case Starting => true
       case Reconciling => true
       case Gate => true
       case Claiming => true
       case Working(_, claimed) => claimed.revision > 0
       case Failing(_, _) => true
       case _ => false
  }

  lemma UnreadStep(setup: Setup, s: System, e: Event)
    requires Unread(s)
    ensures Unread(Next(setup, s, e))
    ensures Next(setup, s, e).world.row.revision == s.world.row.revision
    ensures Next(setup, s, e).world.file == s.world.file
  {
    hide Parse, AgreesWithPlan, DecideWith, PendingPlan, Hydrate, NewestRunning;
  }

  /** An unreadable record is for good: every later attempt fails, the revision never moves again. */
  lemma {:induction false} UnreadForever(setup: Setup, s: System, events: seq<Event>)
    requires Unread(s)
    ensures var after := Run(setup, s, events);
            Unread(after) && after.world.row.revision == s.world.row.revision && after.world.file == s.world.file
    decreases |events|
  {
    hide Unread, Next;
    if events != [] {
      UnreadStep(setup, s, events[0]);
      UnreadForever(setup, Next(setup, s, events[0]), events[1..]);
    }
  }

  /** Completing a revision whose work list is the lone `None.` makes such a record. */
  lemma NoneMakesUnread(setup: Setup, s: System, e: Event)
    requires Inv(setup, s) && s.pc.Completing? && e.Step? && e.fate == Works
    requires s.pc.draft.rendered.summary.workCompleted == ["None."]
    requires Completable(s.world, s.pc.id, PersistedDraft(s.pc.draft, setup.hash))
    ensures Unread(StepCompleting(setup, s, e))
  {
    var w, id, d := s.world, s.pc.id, s.pc.draft;
    AtCompleting(setup, s);
    hide Inv, Consistent, ValidSetup;
    DraftReadsAs(setup, w, id, d);
    DraftRenderable(setup, w, id, d);
    hide Renderable, Render, Parse, ReadsAs;
    RenderReads(setup, d.rendered);
  }

  lemma DraftRenderable(setup: Setup, w: World, id: nat, d: Draft)
    requires Written(setup, w, id, d)
    ensures Renderable(setup, d.rendered) && w.file == Some(Render(d.rendered))
  {
    hide Renderable, Render, FileIsRecorded;
  }

  // ----- any pending plan

  predicate IsPlanOf(setup: Setup, plan: Plan) {
    plan == PlanFor(plan.rendered, plan.gitHistory, setup.hash) && Renderable(setup, plan.rendered)
  }

  /** Every stored plan is its own revision's, whichever attempt it belongs to. */
  predicate PlansOk(setup: Setup, w: World) {
    forall i :: 0 <= i < |w.attempts| && w.attempts[i].plan.Some? ==> IsPlanOf(setup, w.attempts[i].plan.value)
  }

  /** Only the storing of a plan gives an attempt a plan it did not have. */
  lemma OtherStepsStoreNoPlan(setup: Setup, s: System, e: Event)
    requires !e.Step? || !s.pc.Planning?
    ensures var after := Next(setup, s, e).world;
            && |s.world.attempts| <= |after.attempts|
            && forall i :: 0 <= i < |after.attempts| && after.attempts[i].plan.Some? ==>
                 i < |s.world.attempts| && after.attempts[i].plan == s.world.attempts[i].plan
  {
    hide Decide, Reconcile, Commit, PlanFor, Render, Claimable, Restates, PersistedFound, PersistedDraft, Hydrate;
    hide StepPlanning;
    if e.Step? && s.pc.Starting? {
      HydratesRowOnly(setup, s.world, e.flag);
    }
  }

  lemma HydratesRowOnly(setup: Setup, w: World, observed: bool)
    ensures Hydrate(setup, w, observed).attempts == w.attempts
  {
    hide Importable;
  }

  lemma NextKeepsPlans(setup: Setup, s: System, e: Event)
    requires Inv(setup, s) && PlansOk(setup, s.world)
    ensures PlansOk(setup, Next(setup, s, e).world)
  {
    hide IsPlanOf, Inv, PlanFor, StepPlanning;
    if e.Step? && s.pc.Planning? {
      DraftIsPlannable(setup, s);
      PlanningStep(setup, s.world, s.pc.id, s.pc.draft, e);
    } else {
      OtherStepsStoreNoPlan(setup, s, e);
      hide Next;
    }
  }

  lemma DraftIsPlannable(setup: Setup, s: System)
    requires Inv(setup, s) && s.pc.Planning?
    ensures var d := s.pc.draft; IsPlanOf(setup, PlanFor(d.rendered, d.gitHistory, setup.hash))
  {
    hide Consistent, ValidSetup, Renderable, Render, FileIsRecorded;
  }

  lemma {:induction false} RunKeepsPlans(setup: Setup, s: System, events: seq<Event>)
    requires Inv(setup, s) && PlansOk(setup, s.world)
    ensures PlansOk(setup, Run(setup, s, events).world)
    decreases |events|
  {
    hide Inv, Next, PlansOk;
    if events != [] {
      NextKeeps(setup, s, events[0]);
      NextKeepsPlans(setup, s, events[0]);
      RunKeepsPlans(setup, Next(setup, s, events[0]), events[1..]);
    }
  }

  /** The file is the content of the newest pending plan, whoever's it is. */
  predicate FileIsPending(w: World) {
    PendingPlan(w).Some? && w.file == Some(Render(w.attempts[PendingPlan(w).value].plan.value.rendered))
  }

  /** Reconciliation of a pending plan's own content finds it, unless the content does not read. */
  lemma PendingIsFound(setup: Setup, w: World)
    requires FileIsPending(w) && IsPlanOf(setup, w.attempts[PendingPlan(w).value].plan.value)
    ensures var id := PendingPlan(w).value;
            var plan := w.attempts[id].plan.value;
            match Parse(w.file.value)
            case Failure(_) => plan.rendered.summary.workCompleted == ["None."] && Reconcile(setup, w) == Unreadable
            case Success(m) =>
              && plan.rendered.summary.workCompleted != ["None."]
              && Reconcile(setup, w) == Matches(id, m)
              && m.cursor.Some? && Restates(PersistedFound(plan, m), plan)
  {
    hide Parse, Render, AgreesWithPlan, Renderable, Restates, PendingFrom;
    var plan := w.attempts[PendingPlan(w).value].plan.value;
    RenderReads(setup, plan.rendered);
    if Parse(w.file.value).Success? {
      AgreesOnCursor(setup, Parse(w.file.value).value, plan);
    }
    hide IsPlanOf, PersistedFound, PlanFor, ReadBackSummary, StructuredSummary.IsPlaceholder;
  }

  lemma StuckIsUnfinished(setup: Setup, w: World, id: nat, plan: Plan, events: seq<Event>)
    requires Stuck(setup, System(w, Idle)) && IsRunning(w, id)
    ensures !Finished(Run(setup, System(w, Idle), events).world, id, plan)
  {
    hide Stuck, Run;
    StuckForever(setup, System(w, Idle), events);
  }

  /** Recovery of any pending plan's own content: a fault-free run completes its attempt if and only if
      the attempt is still the row's own, the planned work list is not the lone `None.` and, for a plan
      tracked in Git, the log can still be read. When the attempt is not the row's own, or its content
      does not read, nothing ever will. */
  lemma PendingRecoversIff(setup: Setup, w: World, same: bool)
    requires FileIsPending(w) && IsPlanOf(setup, w.attempts[PendingPlan(w).value].plan.value)
    ensures var id := PendingPlan(w).value;
            var plan := w.attempts[id].plan.value;
            && (Finished(Run(setup, System(w, Idle), RecoveryRun(same)).world, id, plan) <==>
                  && w.row.token == Some(id)
                  && plan.rendered.summary.workCompleted != ["None."]
                  && (plan.gitHistory ==> LogReadable(w.log)))
            && (w.row.token != Some(id) || plan.rendered.summary.workCompleted == ["None."] ==>
                  Stuck(setup, System(w, Idle)))
  {
    PendingIsFound(setup, w);
    var id := PendingPlan(w).value;
    var plan := w.attempts[id].plan.value;
    assert IsRunning(w, id);
    hide FileIsPending, LogReadable, Next, Run, Parse, Reconcile, PersistedFound, Restates, Finished, IsPlanOf, PendingPlan;
    if w.row.token != Some(id) || plan.rendered.summary.workCompleted == ["None."] {
      StuckIsUnfinished(setup, w, id, plan, RecoveryRun(same));
    } else {
      RunFive(setup, System(w, Idle), Wake, Fine(same), Fine(same), Fine(same), Fine(same));
      WakeStarts(setup, w);
      StartingReconciles(setup, w, same);
      FromReconciling(setup, Next(setup, System(w, Starting), Fine(same)).world, id, plan, same);
    }
  }

  /** So at every reachable state, for whatever plan is pending. */
  lemma EveryPendingRecoversIff(setup: Setup, lifecycle: Lifecycle, events: seq<Event>, same: bool)
    requires ValidSetup(setup) && InitialLifecycle(lifecycle)
    ensures var w := Reached(setup, lifecycle, events);
            FileIsPending(w) ==>
              var id := PendingPlan(w).value;
              var plan := w.attempts[id].plan.value;
              && (Finished(Run(setup, System(w, Idle), RecoveryRun(same)).world, id, plan) <==>
                    && w.row.token == Some(id)
                    && plan.rendered.summary.workCompleted != ["None."]
                    && (plan.gitHistory ==> LogReadable(w.log)))
              && (w.row.token != Some(id) || plan.rendered.summary.workCompleted == ["None."] ==>
                    Stuck(setup, System(w, Idle)))
  {
    hide Inv, ValidSetup, Finished, Run, LogReadable, FileIsPending, Stuck, IsPlanOf, PendingPlan;
    InitialInv(setup, lifecycle);
    RunKeepsPlans(setup, Initial(setup, lifecycle), events);
    var w := Reached(setup, lifecycle, events);
    if FileIsPending(w) {
      PendingHasOutcome(w);
      PendingRecoversIff(setup, w, same);
    }
  }

  lemma PendingHasOutcome(w: World)
    requires FileIsPending(w)
    ensures PendingPlan(w).Some? && PendingPlan(w).value < |w.attempts| && w.attempts[PendingPlan(w).value].plan.Some?
  {
    hide Render;
  }

  // ----- a run that gets stuck

  /** A first revision that is a placeholder and reads back. */
  predicate FirstPlaceholder(setup: Setup, r: Revision) {
    && Renderable(setup, r) && r.number == 1
    && r.summary.IsPlaceholder() && r.summary.workCompleted != ["None."]
  }

  function Rejection(r: Revision): Event {
    Step(Works, RejectedInput(r, false, true, true), false)
  }

  /** From a wake-up to the claim, five steps; then the verdict is recorded in three more. */
  function ClaimRun(): seq<Event> {
    [Wake, Fine(false), Fine(false), Fine(false), Fine(false)]
  }

  function CrashedRun(r: Revision): seq<Event> {
    [Rejection(r), Fine(false), Fine(false), Crash, Requeue(SummaryPending)]
  }

  function CompletedRun(r: Revision): seq<Event> {
    [Rejection(r), Fine(false), Fine(false), Fine(false), Fine(false)]
  }

  function StuckRun(r: Revision): seq<Event> {
    ClaimRun() + CrashedRun(r) + (ClaimRun() + CompletedRun(r))
  }

  /** A world without a file whose session waits for its first summary. */
  predicate Waiting(w: World) {
    && w.row.revision == 0 && w.row.lifecycle == SummaryPending && !w.row.parked
    && w.file.None?
  }

  /** The worker as it stands once it has claimed the session. */
  function Claimed(w: World): System
    requires Waiting(w)
  {
    System(Claim(w), Working(|w.attempts|, w.row))
  }

  lemma ClaimRunClaims(setup: Setup, w: World)
    requires Waiting(w)
    ensures Run(setup, System(w, Idle), ClaimRun()) == Claimed(w)
  {
    RunFive(setup, System(w, Idle), Wake, Fine(false), Fine(false), Fine(false), Fine(false));
    hide Claim, Parse;
    var s1 := Next(setup, System(w, Idle), Wake);
    assert s1 == System(w, Starting);
    var s2 := Next(setup, s1, Fine(false));
    assert s2 == System(w, Reconciling);
    var s3 := Next(setup, s2, Fine(false));
    assert s3 == System(w, Gate);
    var s4 := Next(setup, s3, Fine(false));
    assert s4 == System(w, Claiming);
  }

  function PlaceholderDraft(r: Revision): Draft {
    Draft(r, false, true, false, true, None)
  }

  /** The claimed attempt up to the recorded verdict. */
  lemma VerdictStands(setup: Setup, w: World, r: Revision)
    requires Waiting(w) && FirstPlaceholder(setup, r)
    ensures var id := |w.attempts|;
            var s1 := Next(setup, Claimed(w), Rejection(r));
            var s2 := Next(setup, s1, Fine(false));
            var s3 := Next(setup, s2, Fine(false));
            && s3.pc == Writing(id, PlaceholderDraft(r))
            && s3.world == World(
                 Row(0, w.row.summary, w.row.markdownHash, Failed, true, Some(RevisionPending), Some(id)),
                 w.attempts + [Attempt(Running, SummaryPending, Some(PlanFor(r, false, setup.hash)))],
                 None, w.log)
  {
    hide Renderable, Render, StructuredSummary.IsPlaceholder;
    var id := |w.attempts|;
    var d := PlaceholderDraft(r);
    assert r.(number := 1) == r;
    var s1 := Next(setup, Claimed(w), Rejection(r));
    assert s1 == System(Claim(w), Planning(id, d));
    var s2 := Next(setup, s1, Fine(false));
    assert s2.pc == Verdict(id, d);
    assert s2.world.attempts == w.attempts + [Attempt(Running, SummaryPending, Some(PlanFor(r, false, setup.hash)))];
  }

  function PlannedAttempt(setup: Setup, r: Revision, outcome: AttemptOutcome): Attempt {
    Attempt(outcome, SummaryPending, Some(PlanFor(r, false, setup.hash)))
  }

  /** The first attempt dies between its verdict and its file, and the session is put back. */
  lemma CrashedRunWaits(setup: Setup, w: World, r: Revision)
    requires Waiting(w) && FirstPlaceholder(setup, r)
    ensures var after := Run(setup, Claimed(w), CrashedRun(r));
            && after.pc == Idle && Waiting(after.world)
            && after.world.attempts == w.attempts + [PlannedAttempt(setup, r, Running)]
  {
    hide Next, Run, Claimed, PlanFor, FirstPlaceholder;
    RunFive(setup, Claimed(w), Rejection(r), Fine(false), Fine(false), Crash, Requeue(SummaryPending));
    VerdictStands(setup, w, r);
    var s1 := Next(setup, Claimed(w), Rejection(r));
    CrashAndRequeue(setup, Next(setup, Next(setup, s1, Fine(false)), Fine(false)));
  }

  lemma CrashAndRequeue(setup: Setup, s: System)
    requires s.world.row.lifecycle == Failed
    ensures Next(setup, Next(setup, s, Crash), Requeue(SummaryPending)) ==
            System(s.world.(row := s.world.row.(lifecycle := SummaryPending, retryState := None, parked := false)), Idle)
  {
    hide StepWorker;
  }

  /** The second attempt makes the same placeholder and completes. */
  lemma CompletedRunCompletes(setup: Setup, w: World, r: Revision)
    requires Waiting(w) && FirstPlaceholder(setup, r)
    ensures var after := Run(setup, Claimed(w), CompletedRun(r));
            && after.pc == Idle && after.world.row.token == None
            && after.world.file == Some(Render(r))
            && after.world.attempts == w.attempts + [PlannedAttempt(setup, r, AttemptFailed)]
  {
    hide Next, Run, Claimed, Render, PlanFor, FirstPlaceholder, Waiting;
    RunFive(setup, Claimed(w), Rejection(r), Fine(false), Fine(false), Fine(false), Fine(false));
    VerdictStands(setup, w, r);
    var s1 := Next(setup, Claimed(w), Rejection(r));
    var s3 := Next(setup, Next(setup, s1, Fine(false)), Fine(false));
    WriteAndComplete(setup, s3.world, r);
    assert s3.world.attempts[..|w.attempts|] == w.attempts;
  }

  lemma WriteAndComplete(setup: Setup, w: World, r: Revision)
    requires w.attempts != [] && w.attempts[|w.attempts| - 1] == PlannedAttempt(setup, r, Running)
    requires w.row.token == Some(|w.attempts| - 1)
    ensures var id := |w.attempts| - 1;
            var after := Next(setup, Next(setup, System(w, Writing(id, PlaceholderDraft(r))), Fine(false)), Fine(false));
            && after.pc == Idle && after.world.row.token == None
            && after.world.file == Some(Render(r))
            && after.world.attempts == w.attempts[..id] + [PlannedAttempt(setup, r, AttemptFailed)]
  {
    hide Render;
    var id := |w.attempts| - 1;
    var s := Next(setup, System(w, Writing(id, PlaceholderDraft(r))), Fine(false));
    assert s == System(w.(file := Some(Render(r))), Completing(id, PlaceholderDraft(r)));
    assert Completable(s.world, id, PersistedDraft(PlaceholderDraft(r), setup.hash));
  }

  lemma LeftoverMatches(setup: Setup, w: World, r: Revision)
    requires FirstPlaceholder(setup, r) && |w.attempts| >= 2
    requires w.file == Some(Render(r)) && w.row.token == None
    requires w.attempts[|w.attempts| - 2] == PlannedAttempt(setup, r, Running)
    requires w.attempts[|w.attempts| - 1].outcome != Running
    ensures Stuck(setup, System(w, Idle))
  {
    hide Parse, Render, Renderable, ReadBackSummary, StructuredSummary.IsPlaceholder, AgreesWithPlan, PendingPlan;
    RenderReads(setup, r);
    LeftoverPends(w);
  }

  lemma LeftoverPends(w: World)
    requires |w.attempts| >= 2 && w.attempts[|w.attempts| - 1].outcome != Running
    requires w.attempts[|w.attempts| - 2].outcome == Running && w.attempts[|w.attempts| - 2].plan.Some?
    ensures PendingPlan(w) == Some(|w.attempts| - 2)
  {
  }

  /** A placeholder attempt that dies between its verdict and its file, followed by a second attempt
      that writes the same placeholder, leaves the session stuck: the first attempt's plan matches
      the file for ever and can never be completed. */
  lemma StuckIsReachable(setup: Setup, w: World, r: Revision)
    requires Waiting(w) && FirstPlaceholder(setup, r)
    ensures Stuck(setup, Run(setup, System(w, Idle), StuckRun(r)))
  {
    hide Run, Render, Renderable, Claimed, Stuck, PlanFor, FirstPlaceholder;
    ClaimRunClaims(setup, w);
    CrashedRunWaits(setup, w, r);
    RunAppend(setup, System(w, Idle), ClaimRun(), CrashedRun(r));
    var between := Run(setup, System(w, Idle), ClaimRun() + CrashedRun(r));
    ClaimRunClaims(setup, between.world);
    CompletedRunCompletes(setup, between.world, r);
    RunAppend(setup, between, ClaimRun(), CompletedRun(r));
    RunAppend(setup, System(w, Idle), ClaimRun() + CrashedRun(r), ClaimRun() + CompletedRun(r));
    var after := Run(setup, between, ClaimRun() + CompletedRun(r));
    LeftoverMatches(setup, after.world, r);
    assert after == System(after.world, Idle);
  }

  /** So from the very first attempt a session without an archive can end up there, for good. */
  lemma FirstRunGetsStuck(setup: Setup, r: Revision, events: seq<Event>)
    requires setup.base.None? && FirstPlaceholder(setup, r)
    ensures var stuck := Run(setup, Initial(setup, SummaryPending), StuckRun(r));
            Stuck(setup, stuck) &&
            Run(setup, Initial(setup, SummaryPending), StuckRun(r) + events).world.attempts == stuck.world.attempts
  {
    hide Run, Stuck, FirstPlaceholder;
    var s := Initial(setup, SummaryPending);
    StuckIsReachable(setup, s.world, r);
    RunAppend(setup, s, StuckRun(r), events);
    StuckForever(setup, Run(setup, s, StuckRun(r)), events);
  }

  /** Such a placeholder exists for every session. */
  function SmallPlaceholder(setup: Setup): Revision {
    var hash := "sha256:" + seq(64, _ => '0');
    Revision(
      NormalizedSession(setup.source, setup.session, 0, 0, hash, hash, 0, None, None, []),
      ProjectIdentity("p", "c", "n", None, None, Live),
      StructuredSummary("t", "g", ["w"], [], [], [], [], [PLACEHOLDER_SUMMARY_TAG]),
      1, "unknown", None)
  }

  lemma SmallHashIsValid(setup: Setup)
    ensures ValidHash(SmallPlaceholder(setup).session.sourceHash)
  {
    hide ValidHash;
    var digest := seq(64, _ => '0');
    HashIsValid(digest);
    assert SmallPlaceholder(setup).session.sourceHash == "sha256:" + digest;
  }

  lemma SmallTextsAreNormal()
    ensures NormalText("t", TITLE_LIMIT, true) && NormalText("g", GOAL_LIMIT, false) && NormalText("w", ITEM_LIMIT, true)
  {
  }

  lemma TagIsNormal()
    ensures NormalText(PLACEHOLDER_SUMMARY_TAG, TAG_LIMIT, true)
  {
    var tag := PLACEHOLDER_SUMMARY_TAG;
    assert tag[0] == 'm' && tag[|tag| - 1] == 'y';
  }

  lemma SmallSummaryIsNormal(setup: Setup)
    ensures var s := SmallPlaceholder(setup).summary;
            ValidateSummary(s) == Success(s) && s.IsPlaceholder() && s.workCompleted != ["None."]
  {
    hide ValidateSummary, NormalText;
    var s := SmallPlaceholder(setup).summary;
    SmallTextsAreNormal();
    TagIsNormal();
    assert NormalSummary(s);
    ValidatedSummaryIsNormal(s);
  }

  lemma PlaceholderExists(setup: Setup)
    ensures FirstPlaceholder(setup, SmallPlaceholder(setup))
  {
    hide ValidateSummary, ValidHash, StructuredSummary.IsPlaceholder;
    SmallHashIsValid(setup);
    SmallSummaryIsNormal(setup);
  }

  lemma HashIsValid(digest: string)
    requires |digest| == 64 && forall c :: c in digest ==> c == '0'
    ensures ValidHash("sha256:" + digest)
  {
    StripPrefixOfAppend("sha256:", digest);
  }
}
