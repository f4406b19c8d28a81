/** The archive worker as a state machine over its durable effects. A worker owns the session lock,
    does one effect per step, and can crash between any two of them, which loses its memory and
    the lock and nothing else. Hooks may requeue the session at any time. */
module WorkerMachine {
  import opened Wrappers
  import opened Summary
  import opened ArchiveRecord
  import opened ArchiveReader
  import opened ArchiveRoundTrip
  import opened CommitMessage
  import opened WorkerStore

  /** What a claimed attempt makes of the transcript and the summarizer. */
  datatype Input =
    | DeferInput
    | UnchangedInput(sameGeneration: bool)
    | NotWorthyInput
    | FailInput(park: bool)
    | SummarisedInput(revision: Revision, gitHistory: bool, sameGeneration: bool)
    | CursorOnlyInput(revision: Revision, sameGeneration: bool)
    | RejectedInput(revision: Revision, gitHistory: bool, sameGeneration: bool, park: bool)

  /** The revision in the worker's memory and the file it replaces. A cursor-only one restates the
      recorded summary under a moved cursor. */
  datatype Draft = Draft(
    rendered: Revision,
    gitHistory: bool,
    placeholder: bool,
    cursorOnly: bool,
    sameGeneration: bool,
    previous: Option<string>)

  datatype Pc =
    | Idle
    | Starting
    | Reconciling
    | ReconcileCommitting(id: nat, found: ArchivedMarkdown)
    | ReconcileCompleting(id: nat, found: ArchivedMarkdown)
    | Gate
    | Claiming
    | Working(id: nat, claimed: Row)
    | Planning(id: nat, draft: Draft)
    | Verdict(id: nat, draft: Draft)
    | Writing(id: nat, draft: Draft)
    | Committing(id: nat, draft: Draft)
    | RollingBack(id: nat, draft: Draft)
    | Completing(id: nat, draft: Draft)
    | Failing(id: nat, park: bool)
    | Deferring
    | Settling(id: nat, noChange: bool, sameGeneration: bool)

  datatype System = System(world: World, pc: Pc)

  /** One thing that happens. `Step` carries the fate of the effect and the adversary's choices. */
  datatype Event =
    | Wake
    | Step(fate: Fate, input: Input, flag: bool)
    | Crash
    | Requeue(lifecycle: Lifecycle)

  function CommitIdOf(setup: Setup, revision: nat): CommitId {
    CommitId(setup.source, setup.session, revision)
  }

  // ----- reconciliation

  /** What reconciliation finds. */
  datatype Finding =
    | NothingToReconcile
    | Unreadable
    | Matches(id: nat, found: ArchivedMarkdown)

  /** The session, revision and cursor comparisons of `reconcile_persisted_attempt`. */
  predicate AgreesWithPlan(setup: Setup, m: ArchivedMarkdown, plan: Plan) {
    && m.sessionId == setup.session
    && m.revision == plan.revision
    && m.cursor.Some?
    && m.cursor.value.recordCount == plan.recordCount
    && m.cursor.value.byteOffset == plan.byteOffset
    && m.cursor.value.prefixHash == plan.prefixHash
    && m.cursor.value.sourceHash == plan.sourceHash
  }

  function Reconcile(setup: Setup, w: World): (r: Finding)
    ensures r.Matches? ==> r.id < |w.attempts| && w.attempts[r.id].plan.Some?
  {
    match PendingPlan(w)
    case None => NothingToReconcile
    case Some(id) =>
      var plan := w.attempts[id].plan.value;
      match w.file
      case None => NothingToReconcile
      case Some(text) =>
        if setup.hash(text) != plan.markdownHash then NothingToReconcile
        else match Parse(text)
          case Failure(_) => Unreadable
          case Success(m) => if AgreesWithPlan(setup, m, plan) then Matches(id, m) else NothingToReconcile
  }

  /** What reconciliation records, taken from the file and the plan. */
  function PersistedFound(plan: Plan, m: ArchivedMarkdown): Persisted
    requires m.cursor.Some?
  {
    var c := m.cursor.value;
    Persisted(
      m.revision, c.recordCount, c.byteOffset, c.prefixHash, c.sourceHash, c.sourceBytes,
      plan.markdownHash, plan.gitHistory, m.completionReason, m.fallbackReason, m.summary)
  }

  /** What an undisturbed attempt records, taken from its memory. */
  function PersistedDraft(d: Draft, hash: string -> string): Persisted {
    var plan := PlanFor(d.rendered, d.gitHistory, hash);
    Persisted(
      plan.revision, plan.recordCount, plan.byteOffset, plan.prefixHash, plan.sourceHash,
      plan.sourceBytes, plan.markdownHash, plan.gitHistory, plan.completionReason,
      plan.fallbackReason, d.rendered.summary)
  }

  // ----- the claimed attempt

  /** The adversary's revision carries this session and passes what the capture side and the
      summary validation guarantee. */
  predicate Renderable(setup: Setup, r: Revision) {
    && r.session.source == setup.source && r.session.sessionId == setup.session
    && WellFormed(r)
    && ValidateSummary(r.summary) == Success(r.summary)
  }

  /** `decide_placeholder`: never over a real summary. */
  predicate FloorApplies(claimed: Row, prior: Option<ArchivedMarkdown>) {
    claimed.revision == 0 || (prior.Some? && prior.value.summaryPlaceholder)
  }

  /** What the worker goes on with once it has read the prior archive; `None` is a failed attempt. */
  function Decide(setup: Setup, w: World, id: nat, claimed: Row, input: Input): Pc {
    match LoadPrior(setup, w, claimed)
    case None => Failing(id, false)
    case Some(prior) =>
      if claimed.revision + 1 >= U64_BOUND then Failing(id, false)
      else DecideWith(setup, w.file, id, claimed, prior, input)
  }

  /** A summary is real unless it is the placeholder; a cursor-only revision keeps the prior
      summary, which is read from the file and is never a placeholder. */
  function DecideWith(
    setup: Setup, file: Option<string>, id: nat, claimed: Row, prior: Option<ArchivedMarkdown>, input: Input): Pc
    requires claimed.revision + 1 < U64_BOUND
  {
    match input
    case DeferInput => Deferring
    case UnchangedInput(same) =>
      if prior.Some? && !prior.value.summaryPlaceholder then Settling(id, true, same) else Failing(id, false)
    case NotWorthyInput => Settling(id, false, false)
    case FailInput(park) => Failing(id, park)
    case SummarisedInput(r, git, same) =>
      var revision := r.(number := claimed.revision + 1);
      if Renderable(setup, revision) && !r.summary.IsPlaceholder()
      then Planning(id, Draft(revision, git, false, false, same, file)) else Failing(id, false)
    case CursorOnlyInput(r, same) =>
      if claimed.revision == 0 || prior.None? || prior.value.summaryPlaceholder
      then Failing(id, false)
      else
        var revision := r.(number := claimed.revision, summary := prior.value.summary);
        if Renderable(setup, revision)
        then Planning(id, Draft(revision, false, false, true, same, file)) else Failing(id, false)
    case RejectedInput(r, git, same, park) =>
      var revision := r.(number := claimed.revision + 1);
      if FloorApplies(claimed, prior) && Renderable(setup, revision) && r.summary.IsPlaceholder()
      then Planning(id, Draft(revision, git, true, false, same, file)) else Failing(id, park)
  }

  // ----- steps

  /** An effect on the store: done unless refused; the worker sees success only when it works. */
  function Effect(before: World, after: World, fate: Fate, next: Pc, otherwise: Pc): System {
    match fate
    case Works => System(after, next)
    case Refuses => System(before, otherwise)
    case Lost => System(after, otherwise)
  }

  function StepStarting(setup: Setup, s: System, e: Event): System
    requires e.Step?
  {
    if s.world.row.revision != 0 then System(s.world, Reconciling)
    else Effect(s.world, Hydrate(setup, s.world, e.flag), e.fate, Reconciling, Idle)
  }

  function StepReconciling(setup: Setup, s: System): System {
    match Reconcile(setup, s.world)
    case NothingToReconcile => System(s.world, Gate)
    case Unreadable => System(s.world, Idle)
    case Matches(id, m) =>
      if s.world.attempts[id].plan.value.gitHistory
      then System(s.world, ReconcileCommitting(id, m))
      else System(s.world, ReconcileCompleting(id, m))
  }

  function StepReconcileCommitting(setup: Setup, s: System, e: Event): System
    requires e.Step? && s.pc.ReconcileCommitting?
  {
    var (log, ok) := Commit(s.world.log, CommitIdOf(setup, s.pc.found.revision), e.fate);
    System(s.world.(log := log), if ok then ReconcileCompleting(s.pc.id, s.pc.found) else Idle)
  }

  function StepReconcileCompleting(s: System, e: Event): System
    requires e.Step? && s.pc.ReconcileCompleting?
  {
    var id, m := s.pc.id, s.pc.found;
    if id >= |s.world.attempts| || s.world.attempts[id].plan.None? || m.cursor.None? then System(s.world, Idle)
    else
      var p := PersistedFound(s.world.attempts[id].plan.value, m);
      match Complete(s.world, id, p, true, m.summaryPlaceholder, e.flag)
      case None => System(s.world, Idle)
      case Some(after) => Effect(s.world, after, e.fate, Idle, Idle)
  }

  function StepGate(s: System, e: Event): System
    requires e.Step?
  {
    if s.world.row.lifecycle != Processing then System(s.world, Claiming)
    else Effect(s.world, Abandon(s.world), e.fate, Claiming, Idle)
  }

  /** Concurrency, activity and scheduled retries may refuse a claim for reasons of their own. */
  function StepClaiming(s: System, e: Event): System
    requires e.Step?
  {
    if e.flag || !Claimable(s.world.row) then System(s.world, Idle)
    else Effect(s.world, Claim(s.world), e.fate, Working(|s.world.attempts|, s.world.row), Idle)
  }

  function StepPlanning(setup: Setup, s: System, e: Event): System
    requires e.Step? && s.pc.Planning?
  {
    var id, d := s.pc.id, s.pc.draft;
    match StorePlan(s.world, id, PlanFor(d.rendered, d.gitHistory, setup.hash))
    case None => System(s.world, Failing(id, false))
    case Some(after) =>
      Effect(s.world, after, e.fate, if d.placeholder then Verdict(id, d) else Writing(id, d), Failing(id, false))
  }

  function StepVerdict(s: System, e: Event): System
    requires e.Step? && s.pc.Verdict?
  {
    match RecordVerdict(s.world, s.pc.id)
    case None => System(s.world, Failing(s.pc.id, false))
    case Some(after) => Effect(s.world, after, e.fate, Writing(s.pc.id, s.pc.draft), Failing(s.pc.id, false))
  }

  /** The file holds the planned content, as far as its hash tells. */
  predicate Arrived(setup: Setup, file: Option<string>, text: string) {
    file.Some? && setup.hash(file.value) == setup.hash(text)
  }

  /** A write that reports an error is looked at again: the attempt fails only if the planned
      content did not arrive. */
  function StepWriting(setup: Setup, s: System, e: Event): System
    requires e.Step? && s.pc.Writing?
  {
    var id, d := s.pc.id, s.pc.draft;
    var text := Render(d.rendered);
    var w := if e.fate == Refuses then s.world else s.world.(file := Some(text));
    if e.fate == Works then System(w, if d.gitHistory then Committing(id, d) else Completing(id, d))
    else if Arrived(setup, w.file, text) then System(w, Idle)
    else System(w, Failing(id, true))
  }

  function StepCommitting(setup: Setup, s: System, e: Event): System
    requires e.Step? && s.pc.Committing?
  {
    var id, d := s.pc.id, s.pc.draft;
    var (log, ok) := Commit(s.world.log, CommitIdOf(setup, d.rendered.number), e.fate);
    System(s.world.(log := log), if ok then Completing(id, d) else RollingBack(id, d))
  }

  /** The previous bytes come back, or the file goes when there were none. */
  function StepRollingBack(s: System, e: Event): System
    requires e.Step? && s.pc.RollingBack?
  {
    Effect(s.world, s.world.(file := s.pc.draft.previous), e.fate, Failing(s.pc.id, !e.flag), Idle)
  }

  function StepCompleting(setup: Setup, s: System, e: Event): System
    requires e.Step? && s.pc.Completing?
  {
    var id, d := s.pc.id, s.pc.draft;
    match Complete(s.world, id, PersistedDraft(d, setup.hash), false, d.placeholder, d.sameGeneration)
    case None => System(s.world, Idle)
    case Some(after) => Effect(s.world, after, e.fate, Idle, Idle)
  }

  function StepFailing(s: System, e: Event): System
    requires e.Step? && s.pc.Failing?
  {
    if s.pc.id >= |s.world.attempts| then System(s.world, Idle)
    else Effect(s.world, FailAttempt(s.world, s.pc.id, s.pc.park || e.flag), e.fate, Idle, Idle)
  }

  function StepSettling(s: System, e: Event): System
    requires e.Step? && s.pc.Settling?
  {
    if s.pc.id >= |s.world.attempts| then System(s.world, Idle)
    else
      var after :=
        if s.pc.noChange then CompleteNoChange(s.world, s.pc.id, s.pc.sameGeneration)
        else CompleteNotWorthy(s.world, s.pc.id);
      Effect(s.world, after, e.fate, Idle, Idle)
  }

  function StepWorker(setup: Setup, s: System, e: Event): System
    requires e.Step?
  {
    match s.pc
    case Idle => s
    case Starting => StepStarting(setup, s, e)
    case Reconciling => StepReconciling(setup, s)
    case ReconcileCommitting(_, _) => StepReconcileCommitting(setup, s, e)
    case ReconcileCompleting(_, _) => StepReconcileCompleting(s, e)
    case Gate => StepGate(s, e)
    case Claiming => StepClaiming(s, e)
    case Working(id, claimed) => System(s.world, Decide(setup, s.world, id, claimed, e.input))
    case Planning(_, _) => StepPlanning(setup, s, e)
    case Verdict(_, _) => StepVerdict(s, e)
    case Writing(_, _) => StepWriting(setup, s, e)
    case Committing(_, _) => StepCommitting(setup, s, e)
    case RollingBack(_, _) => StepRollingBack(s, e)
    case Completing(_, _) => StepCompleting(setup, s, e)
    case Failing(_, _) => StepFailing(s, e)
    case Deferring => Effect(s.world, Abandon(s.world), e.fate, Idle, Idle)
    case Settling(_, _, _) => StepSettling(s, e)
  }

  lemma CompletingStep(setup: Setup, w: World, id: nat, d: Draft, e: Event)
    requires e.Step?
    ensures var after := Complete(w, id, PersistedDraft(d, setup.hash), false, d.placeholder, d.sameGeneration);
            StepWorker(setup, System(w, Completing(id, d)), e) ==
            System(if after.Some? && e.fate != Refuses then after.value else w, Idle)
  {
    hide Complete, PersistedDraft;
  }

  lemma WritingStep(setup: Setup, w: World, id: nat, d: Draft, e: Event)
    requires e.Step?
    ensures StepWorker(setup, System(w, Writing(id, d)), e).world ==
            World(w.row, w.attempts, if e.fate == Refuses then w.file else Some(Render(d.rendered)), w.log)
    ensures var after := StepWorker(setup, System(w, Writing(id, d)), e);
            after.pc == if e.fate == Works then (if d.gitHistory then Committing(id, d) else Completing(id, d))
                        else if Arrived(setup, after.world.file, Render(d.rendered)) then Idle else Failing(id, true)
  {
    hide Render, Arrived;
  }

  lemma PlanningStep(setup: Setup, w: World, id: nat, d: Draft, e: Event)
    requires e.Step?
    ensures var plan := PlanFor(d.rendered, d.gitHistory, setup.hash);
            StepWorker(setup, System(w, Planning(id, d)), e).world ==
            if e.fate == Refuses || !IsRunning(w, id) then w
            else World(w.row, w.attempts[id := w.attempts[id].(plan := Some(plan))], w.file, w.log)
    ensures StepWorker(setup, System(w, Planning(id, d)), e).pc ==
            if e.fate != Works || !IsRunning(w, id) then Failing(id, false)
            else if d.placeholder then Verdict(id, d) else Writing(id, d)
  {
    hide PlanFor;
  }

  lemma CommittingStep(setup: Setup, w: World, id: nat, d: Draft, e: Event)
    requires e.Step?
    ensures var (log, ok) := Commit(w.log, CommitIdOf(setup, d.rendered.number), e.fate);
            StepWorker(setup, System(w, Committing(id, d)), e) ==
            System(World(w.row, w.attempts, w.file, log), if ok then Completing(id, d) else RollingBack(id, d))
  {
    hide Commit;
  }

  lemma WorkingStep(setup: Setup, w: World, id: nat, claimed: Row, e: Event)
    requires e.Step?
    ensures StepWorker(setup, System(w, Working(id, claimed)), e) ==
            System(w, Decide(setup, w, id, claimed, e.input))
    ensures var next := Decide(setup, w, id, claimed, e.input);
            next.Planning? || next.Settling? || next.Failing? || next.Deferring?
  {
    hide LoadPrior, Renderable;
  }

  /** Hooks and operators move a session that is not being processed to another waiting state; they
      touch neither the token nor the recorded revision, and they never archive. */
  function StepRequeue(w: World, lifecycle: Lifecycle): World {
    if w.row.lifecycle == Processing || lifecycle == Processing || lifecycle == Archived then w
    else w.(row := w.row.(lifecycle := lifecycle, retryState := None, parked := false))
  }

  function Next(setup: Setup, s: System, e: Event): System {
    match e
    case Wake => if s.pc == Idle then s.(pc := Starting) else s
    case Step(_, _, _) => StepWorker(setup, s, e)
    case Crash => s.(pc := Idle)
    case Requeue(lifecycle) => s.(world := StepRequeue(s.world, lifecycle))
  }

  function Run(setup: Setup, s: System, events: seq<Event>): System
    decreases |events|
  {
    if events == [] then s else Run(setup, Next(setup, s, events[0]), events[1..])
  }

  lemma {:induction false} RunAppend(setup: Setup, s: System, a: seq<Event>, b: seq<Event>)
    ensures Run(setup, s, a + b) == Run(setup, Run(setup, s, a), b)
    decreases |a|
  {
    if a == [] {
      assert a + b == b;
    } else {
      RunAppend(setup, Next(setup, s, a[0]), a[1..], b);
      assert (a + b)[0] == a[0] && (a + b)[1..] == a[1..] + b;
    }
  }

  /** Before the first attempt: no attempts, no commits, and whatever file was there. */
  function Initial(setup: Setup, lifecycle: Lifecycle): System {
    System(World(Row(0, None, None, lifecycle, false, None, None), [], setup.base, []), Idle)
  }

  predicate InitialLifecycle(lifecycle: Lifecycle) {
    lifecycle != Processing && lifecycle != Archived
  }
}
