/** Operational state of one session as the archive worker sees it: the session row, its
    processing attempts with their stored plans, the archive file and the Git log of that file.
    Every operation is one atomic transaction of the state store, one atomic file replacement or
    one `git` call. */
module WorkerStore {
  import opened Wrappers
  import opened Identity
  import opened Summary
  import opened ArchiveRecord
  import opened ArchiveReader
  import opened CommitMessage

  datatype Lifecycle =
    | Observed | SummaryPending | RevisionPending | Interrupted | Failed | Processing | Archived

  datatype AttemptOutcome = Running | AttemptFailed | Succeeded | Recovered | Superseded

  /** What the store keeps of a revision about to be written. `rendered` is the revision the hash
      was taken of; the store does not keep it and no operation reads it. */
  datatype Plan = Plan(
    revision: nat,
    recordCount: nat,
    byteOffset: nat,
    prefixHash: string,
    sourceHash: string,
    sourceBytes: nat,
    markdownHash: string,
    gitHistory: bool,
    completionReason: string,
    fallbackReason: Option<string>,
    rendered: Revision)

  /** An attempt's lease token is its index. */
  datatype Attempt = Attempt(outcome: AttemptOutcome, retryState: Lifecycle, plan: Option<Plan>)

  datatype Row = Row(
    revision: nat,
    summary: Option<StructuredSummary>,
    markdownHash: Option<string>,
    lifecycle: Lifecycle,
    parked: bool,
    retryState: Option<Lifecycle>,
    token: Option<nat>)

  datatype World = World(row: Row, attempts: seq<Attempt>, file: Option<string>, log: seq<CommitId>)

  /** The session, the content hash, and what stood at the archive path before the first attempt. */
  datatype Setup = Setup(source: SourceKind, session: string, hash: string -> string, base: Option<string>)

  function PlanFor(r: Revision, gitHistory: bool, hash: string -> string): Plan {
    Plan(
      r.number, r.session.sourceCursor, r.session.sourceByteCursor, r.session.sourcePrefixHash,
      r.session.sourceHash, r.session.sourceBytes, hash(Render(r)), gitHistory,
      r.completionReason, r.fallbackReason, r)
  }

  // ----- claims and plans

  predicate Claimable(row: Row) {
    || row.lifecycle == SummaryPending || row.lifecycle == RevisionPending
    || row.lifecycle == Interrupted || (row.lifecycle == Failed && !row.parked)
  }

  /** The state a failed or abandoned attempt goes back to. */
  function RetryState(row: Row): Lifecycle {
    if row.lifecycle != Failed then row.lifecycle
    else match row.retryState
      case Some(state) => state
      case None => if row.revision > 0 then RevisionPending else SummaryPending
  }

  function Claim(w: World): World
    requires Claimable(w.row)
  {
    var state := RetryState(w.row);
    w.(row := w.row.(lifecycle := Processing, retryState := Some(state), token := Some(|w.attempts|)),
       attempts := w.attempts + [Attempt(Running, state, None)])
  }

  predicate IsRunning(w: World, id: nat) {
    id < |w.attempts| && w.attempts[id].outcome == Running
  }

  /** `store_plan` refuses an attempt that is no longer running. */
  function StorePlan(w: World, id: nat, plan: Plan): Option<World> {
    if IsRunning(w, id)
    then Some(w.(attempts := w.attempts[id := w.attempts[id].(plan := Some(plan))]))
    else None
  }

  /** The newest running attempt that stored a plan. */
  function PendingFrom(attempts: seq<Attempt>): (r: Option<nat>)
    ensures r.Some? ==> r.value < |attempts| && attempts[r.value].outcome == Running
                        && attempts[r.value].plan.Some?
    ensures r.None? ==> forall i :: 0 <= i < |attempts| ==>
                          !(attempts[i].outcome == Running && attempts[i].plan.Some?)
    ensures r.Some? ==> forall i :: r.value < i < |attempts| ==>
                          !(attempts[i].outcome == Running && attempts[i].plan.Some?)
  {
    if attempts == [] then None
    else
      var last := |attempts| - 1;
      if attempts[last].outcome == Running && attempts[last].plan.Some? then Some(last)
      else PendingFrom(attempts[..last])
  }

  function PendingPlan(w: World): Option<nat> {
    PendingFrom(w.attempts)
  }

  /** The newest running attempt, planned or not. */
  function NewestRunning(attempts: seq<Attempt>): (r: Option<nat>)
    ensures r.Some? ==> r.value < |attempts| && attempts[r.value].outcome == Running
    ensures r.Some? ==> forall i :: r.value < i < |attempts| ==> attempts[i].outcome != Running
    ensures r.None? ==> forall i :: 0 <= i < |attempts| ==> attempts[i].outcome != Running
  {
    if attempts == [] then None
    else
      var last := |attempts| - 1;
      if attempts[last].outcome == Running then Some(last) else NewestRunning(attempts[..last])
  }

  function EndAttempt(w: World, id: nat, outcome: AttemptOutcome): World
    requires id < |w.attempts|
  {
    w.(attempts := w.attempts[id := w.attempts[id].(outcome := outcome)])
  }

  /** `abandon_processing` ends the newest running attempt and gives the session back. */
  function Abandon(w: World): World {
    match NewestRunning(w.attempts)
    case None => w
    case Some(id) =>
      EndAttempt(w, id, AttemptFailed).(
        row := w.row.(lifecycle := w.attempts[id].retryState, retryState := None, parked := false,
                      token := None))
  }

  /** `fail_attempt`: the row changes only while it still carries the attempt's token. */
  function FailAttempt(w: World, id: nat, park: bool): World
    requires id < |w.attempts|
  {
    var ended := if IsRunning(w, id) then EndAttempt(w, id, AttemptFailed) else w;
    if w.row.token != Some(id) then ended
    else ended.(row := w.row.(lifecycle := Failed, retryState := Some(w.attempts[id].retryState),
                              parked := park, token := None))
  }

  /** `complete_no_change`. */
  function CompleteNoChange(w: World, id: nat, sameGeneration: bool): World
    requires id < |w.attempts|
  {
    var ended := if IsRunning(w, id) then EndAttempt(w, id, Superseded) else w;
    var state :=
      if sameGeneration then (if w.row.revision > 0 then Archived else Observed)
      else if w.row.revision > 0 then RevisionPending else SummaryPending;
    if w.row.token != Some(id) then ended
    else ended.(row := w.row.(lifecycle := state, retryState := None, parked := false, token := None))
  }

  /** `complete_not_archive_worthy`. */
  function CompleteNotWorthy(w: World, id: nat): World
    requires id < |w.attempts|
  {
    var ended := if IsRunning(w, id) then EndAttempt(w, id, Succeeded) else w;
    if w.row.token != Some(id) then ended
    else ended.(row := w.row.(lifecycle := Observed, retryState := None, parked := false, token := None))
  }

  /** `record_placeholder_verdict`: the park becomes visible while the attempt still runs. */
  function RecordVerdict(w: World, id: nat): Option<World> {
    if w.row.token != Some(id) then None
    else Some(w.(row := w.row.(lifecycle := Failed, retryState := Some(RevisionPending), parked := true)))
  }

  // ----- completion

  /** The values a completion records; they must restate the plan. */
  datatype Persisted = Persisted(
    revision: nat,
    recordCount: nat,
    byteOffset: nat,
    prefixHash: string,
    sourceHash: string,
    sourceBytes: nat,
    markdownHash: string,
    gitHistory: bool,
    completionReason: string,
    fallbackReason: Option<string>,
    summary: StructuredSummary)

  predicate Restates(p: Persisted, plan: Plan) {
    && p.revision == plan.revision && p.recordCount == plan.recordCount
    && p.byteOffset == plan.byteOffset && p.prefixHash == plan.prefixHash
    && p.sourceHash == plan.sourceHash && p.sourceBytes == plan.sourceBytes
    && p.markdownHash == plan.markdownHash && p.gitHistory == plan.gitHistory
    && p.completionReason == plan.completionReason && p.fallbackReason == plan.fallbackReason
  }

  /** `complete_attempt_inner`: refused unless the row carries this attempt's token, the attempt
      still runs, and the values restate its plan. */
  predicate Completable(w: World, id: nat, p: Persisted) {
    && w.row.token == Some(id)
    && IsRunning(w, id)
    && w.attempts[id].plan.Some?
    && Restates(p, w.attempts[id].plan.value)
  }

  function Complete(
    w: World, id: nat, p: Persisted, recovered: bool, placeholder: bool, sameGeneration: bool): Option<World>
  {
    if !Completable(w, id, p) then None
    else
      var outcome := if placeholder then AttemptFailed else if recovered then Recovered else Succeeded;
      var row := w.row.(
        revision := p.revision, summary := Some(p.summary), markdownHash := Some(p.markdownHash),
        lifecycle := if sameGeneration then Archived else RevisionPending,
        retryState := None, parked := false, token := None);
      Some(EndAttempt(w, id, outcome).(
        row := if placeholder
               then row.(lifecycle := Failed, retryState := Some(RevisionPending), parked := true)
               else row))
  }

  // ----- hydration from the archive

  /** What `import_archive_record` would take from the file: its record, when the file parses, is
      this session's, and states a revision the row has not reached. */
  function Importable(setup: Setup, w: World): Option<ArchivedMarkdown> {
    match w.file
    case None => None
    case Some(text) =>
      match Parse(text)
      case Failure(_) => None
      case Success(m) =>
        if m.source == setup.source && m.sessionId == setup.session && m.revision > w.row.revision
        then Some(m) else None
  }

  /** `hydrate_session_from_archives`; `observed` says whether a hook has recorded the session. */
  function Hydrate(setup: Setup, w: World, observed: bool): World {
    match Importable(setup, w)
    case None => w
    case Some(m) =>
      var pending :=
        || w.row.lifecycle == SummaryPending || w.row.lifecycle == RevisionPending
        || w.row.lifecycle == Interrupted || w.row.lifecycle == Failed;
      var state :=
        if w.row.lifecycle == Processing then Processing
        else if observed && pending then RevisionPending
        else Archived;
      var row := w.row.(
        revision := m.revision, summary := Some(m.summary),
        markdownHash := Some(setup.hash(w.file.value)), lifecycle := state);
      w.(row := if m.summaryPlaceholder && state == Archived
                then row.(lifecycle := Failed, retryState := Some(RevisionPending), parked := true)
                else row)
  }

  // ----- the prior archive

  /** `load_prior_archive` for a claimed row: `Some(None)` before the first revision. */
  function LoadPrior(setup: Setup, w: World, row: Row): Option<Option<ArchivedMarkdown>> {
    if row.revision == 0 then Some(None)
    else match w.file
      case None => None
      case Some(text) =>
        if row.markdownHash.Some? && row.markdownHash.value != setup.hash(text) then None
        else match Parse(text)
          case Failure(_) => None
          case Success(m) =>
            if m.sessionId == setup.session && m.revision == row.revision then Some(Some(m)) else None
  }

  // ----- effects that can fail

  /** `Works`: done and reported. `Refuses`: an error and no effect. `Lost`: done, reported as an
      error. */
  datatype Fate = Works | Refuses | Lost

  /** `commit_archive_revision`: the new log and whether success was reported. A revision the log
      already holds is not committed again. */
  function Commit(log: seq<CommitId>, id: CommitId, fate: Fate): (seq<CommitId>, bool) {
    if fate == Refuses || !LogReadable(log) then (log, false)
    else if LogHolds(LogOutput(Messages(log)), id) then (log, fate == Works)
    else ([id] + log, fate == Works)
  }
}
