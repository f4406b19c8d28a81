/** What every run of the archive worker keeps: the file is the recorded one or the pending plan's
    own, revisions never go back, placeholders never pass for summaries, and no revision is
    committed twice. */
module WorkerSafety {
  import opened Wrappers
  import Text
  import opened Identity
  import opened Summary
  import opened ArchiveRecord
  import opened ArchiveReader
  import opened ArchiveRoundTrip
  import opened CommitMessage
  import opened WorkerStore
  import opened WorkerMachine

  // ----- the invariant

  /** A valid session whose pre-existing file, if it reads at all, does not call a summary a
      placeholder without the placeholder tag. */
  predicate ValidSetup(setup: Setup) {
    && ValidSessionId(setup.session)
    && (setup.base.Some? && Parse(setup.base.value).Success? ==>
          var m := Parse(setup.base.value).value; m.summaryPlaceholder == m.summary.IsPlaceholder())
  }

  /** What a file must read as to be the record of a revision and its summary. */
  predicate ReadsAs(setup: Setup, text: string, revision: nat, summary: StructuredSummary) {
    match Parse(text)
    case Failure(_) => summary.workCompleted == ["None."]
    case Success(m) =>
      && m.sessionId == setup.session
      && m.revision == revision
      && (m.summary == summary || m.summary == ReadBackSummary(summary))
      && m.summaryPlaceholder == summary.IsPlaceholder()
  }

  /** The file is exactly what the row records; before the first revision, what was there before. */
  predicate FileIsRecorded(setup: Setup, w: World) {
    if w.row.revision == 0 then w.file == setup.base && w.row.summary.None?
    else
      && w.file.Some?
      && w.row.markdownHash == Some(setup.hash(w.file.value))
      && w.row.summary.Some?
      && ReadsAs(setup, w.file.value, w.row.revision, w.row.summary.value)
  }

  predicate HasCurrent(w: World) {
    w.row.token.Some? && w.attempts != [] && w.row.token.value == |w.attempts| - 1
  }

  /** The row's own attempt has stored a plan. */
  predicate CurrentIsPlanned(w: World) {
    HasCurrent(w) && w.attempts[|w.attempts| - 1].plan.Some?
  }

  function CurrentPlan(w: World): Plan
    requires CurrentIsPlanned(w)
  {
    w.attempts[|w.attempts| - 1].plan.value
  }

  /** The file is the pending plan's content. */
  predicate FileIsPlanned(w: World) {
    CurrentIsPlanned(w) && w.file == Some(Render(CurrentPlan(w).rendered))
  }

  predicate RowIsPlaceholder(row: Row) {
    SummaryIsPlaceholder(row.summary)
  }

  predicate SummaryIsPlaceholder(summary: Option<StructuredSummary>) {
    summary.Some? && summary.value.IsPlaceholder()
  }

  /** A plan goes to the next revision, or keeps the revision together with its summary, and
      never puts a placeholder over a real summary. */
  predicate PlanFits(setup: Setup, revision: nat, summary: Option<StructuredSummary>, r: Revision) {
    && Renderable(setup, r)
    && revision <= r.number <= revision + 1
    && (r.number == revision ==>
          && summary.Some?
          && ReadBackSummary(r.summary) == ReadBackSummary(summary.value)
          && r.summary.IsPlaceholder() == summary.value.IsPlaceholder())
    && (r.summary.IsPlaceholder() ==> revision == 0 || SummaryIsPlaceholder(summary))
  }

  predicate PlanIsOwn(setup: Setup, w: World) {
    CurrentIsPlanned(w) ==>
      var plan := CurrentPlan(w);
      plan == PlanFor(plan.rendered, plan.gitHistory, setup.hash) && PlanFits(setup, w.row.revision, w.row.summary, plan.rendered)
  }

  predicate Settled(a: Attempt) {
    (a.outcome == Succeeded || a.outcome == Recovered) && a.plan.Some?
  }

  predicate NoDuplicates(log: seq<CommitId>) {
    forall i, j :: 0 <= i < j < |log| ==> log[i] != log[j]
  }

  predicate LogOk(setup: Setup, w: World) {
    && NoDuplicates(w.log)
    && (forall c :: c in w.log ==> ValidCommitId(c))
    && (forall i :: 0 <= i < |w.attempts| && Settled(w.attempts[i]) && w.attempts[i].plan.value.gitHistory ==>
          CommitIdOf(setup, w.attempts[i].plan.value.revision) in w.log)
  }

  predicate StatesOk(w: World) {
    && (w.row.retryState.Some? ==> InitialLifecycle(w.row.retryState.value))
    && (forall i :: 0 <= i < |w.attempts| ==> InitialLifecycle(w.attempts[i].retryState))
  }

  predicate Consistent(setup: Setup, w: World) {
    && (w.row.token.Some? ==> HasCurrent(w))
    && (w.attempts != [] ==> (w.attempts[|w.attempts| - 1].outcome == Running <==> w.row.token.Some?))
    && (w.row.lifecycle == Processing ==> w.row.token.Some?)
    && (w.row.revision > 0 <==> w.row.summary.Some?)
    && (w.row.lifecycle == Archived ==> w.row.revision > 0 && !RowIsPlaceholder(w.row))
    && (w.row.revision == 0 && w.attempts != [] ==> Importable(setup, w.(file := setup.base)).None?)
    && (FileIsRecorded(setup, w) || FileIsPlanned(w))
    && PlanIsOwn(setup, w)
    && StatesOk(w)
    && LogOk(setup, w)
  }

  // ----- the invariant with a worker at work

  /** The worker's attempt is the row's own; it has not stored a plan yet. */
  predicate Unplanned(setup: Setup, w: World, id: nat) {
    && HasCurrent(w) && id == |w.attempts| - 1
    && w.attempts[id].plan.None?
    && FileIsRecorded(setup, w)
  }

  predicate DraftFits(setup: Setup, w: World, d: Draft) {
    && PlanFits(setup, w.row.revision, w.row.summary, d.rendered)
    && d.placeholder == d.rendered.summary.IsPlaceholder()
    && d.rendered.number == w.row.revision + (if d.cursorOnly then 0 else 1)
    && (d.cursorOnly ==> !d.gitHistory && !d.placeholder)
  }

  /** The worker's attempt is the row's own and its plan is the draft's. */
  predicate Planned(setup: Setup, w: World, id: nat, d: Draft) {
    && HasCurrent(w) && id == |w.attempts| - 1
    && w.attempts[id].plan == Some(PlanFor(d.rendered, d.gitHistory, setup.hash))
    && DraftFits(setup, w, d)
  }

  predicate Written(setup: Setup, w: World, id: nat, d: Draft) {
    && Planned(setup, w, id, d)
    && w.file == Some(Render(d.rendered))
    && FileIsRecorded(setup, w.(file := d.previous))
  }

  predicate AtPc(setup: Setup, s: System) {
    var w := s.world;
    match s.pc
    case Idle => true
    case Starting => true
    case Reconciling => w.row.revision == 0 ==> Importable(setup, w).None?
    case ReconcileCommitting(id, m) => Reconcile(setup, w) == Matches(id, m)
    case ReconcileCompleting(id, m) =>
      && Reconcile(setup, w) == Matches(id, m)
      && (w.attempts[id].plan.value.gitHistory ==> CommitIdOf(setup, m.revision) in w.log)
    case Gate => FileIsRecorded(setup, w) && (w.row.revision == 0 ==> Importable(setup, w).None?)
    case Claiming =>
      && FileIsRecorded(setup, w) && (w.row.revision == 0 ==> Importable(setup, w).None?)
      && w.row.lifecycle != Processing
    case Working(id, claimed) =>
      && Unplanned(setup, w, id)
      && claimed.revision == w.row.revision && claimed.summary == w.row.summary
      && claimed.markdownHash == w.row.markdownHash
    case Planning(id, d) => Unplanned(setup, w, id) && DraftFits(setup, w, d) && d.previous == w.file
    case Verdict(id, d) => Planned(setup, w, id, d) && FileIsRecorded(setup, w) && d.previous == w.file
    case Writing(id, d) => Planned(setup, w, id, d) && FileIsRecorded(setup, w) && d.previous == w.file
    case Committing(id, d) => Written(setup, w, id, d)
    case RollingBack(id, d) => Written(setup, w, id, d)
    case Completing(id, d) =>
      Written(setup, w, id, d) && (d.gitHistory ==> CommitIdOf(setup, d.rendered.number) in w.log)
    case Failing(id, _) => HasCurrent(w) && id == |w.attempts| - 1 && FileIsRecorded(setup, w)
    case Deferring => HasCurrent(w) && FileIsRecorded(setup, w)
    case Settling(id, noChange, _) =>
      Unplanned(setup, w, id) && (noChange ==> w.row.revision > 0 && !RowIsPlaceholder(w.row))
  }

  predicate Inv(setup: Setup, s: System) {
    ValidSetup(setup) && Consistent(setup, s.world) && AtPc(setup, s)
  }

  // ----- helpers

  lemma ParsedRevisionIsPositive(text: string)
    ensures Parse(text).Success? ==> Parse(text).value.revision > 0
  {
    hide ParseFrontmatter, ParseBody, ValidateSummary, Text.SplitOnce, Text.StripPrefix, OptionalString;
    hide ParseSession, ParseProject, NumberField, StringField, ParseReasons, ParseCursor, ParseIndex;
    hide ParsePlaceholderFlag, ValidProject, ValidHash;
  }

  /** What the file of a renderable revision reads as. */
  lemma RenderReads(setup: Setup, r: Revision)
    requires Renderable(setup, r)
    ensures match Parse(Render(r))
            case Failure(_) => r.summary.workCompleted == ["None."]
            case Success(m) =>
              && r.summary.workCompleted != ["None."]
              && m.source == setup.source && m.sessionId == setup.session && m.revision == r.number
              && m.summary == ReadBackSummary(r.summary)
              && m.summaryPlaceholder == r.summary.IsPlaceholder()
    ensures Parse(Render(r)).Success? ==>
              forall git :: AgreesWithPlan(setup, Parse(Render(r)).value, PlanFor(r, git, setup.hash))
    ensures Parse(Render(r)).Success? ==>
              forall git :: Restates(
                              PersistedFound(PlanFor(r, git, setup.hash), Parse(Render(r)).value),
                              PlanFor(r, git, setup.hash))
  {
    ParseOfRender(r);
    hide WellFormed, Render, Parse, ReadBackSummary, StructuredSummary.IsPlaceholder, ValidateSummary;
  }

  lemma PendingIsCurrent(w: World)
    requires CurrentIsPlanned(w) && w.attempts[|w.attempts| - 1].outcome == Running
    ensures PendingPlan(w) == Some(|w.attempts| - 1)
  {
  }

  lemma NewestIsCurrent(w: World)
    requires HasCurrent(w) && w.attempts[|w.attempts| - 1].outcome == Running
    ensures NewestRunning(w.attempts) == Some(|w.attempts| - 1)
  {
  }

  /** Committing keeps the log free of duplicates and puts the revision in it when it succeeds. */
  lemma CommitKeeps(log: seq<CommitId>, id: CommitId, fate: Fate)
    requires NoDuplicates(log) && ValidCommitId(id) && forall c :: c in log ==> ValidCommitId(c)
    ensures var (after, ok) := Commit(log, id, fate);
            && NoDuplicates(after)
            && (forall c :: c in after ==> ValidCommitId(c))
            && (forall c :: c in log ==> c in after)
            && (ok ==> id in after)
  {
    ExistenceIsMembership(log, id);
    hide LogHolds, LogReadable, LogOutput, Messages, ValidCommitId;
    assert Commit(log, id, fate).0 == log || (Commit(log, id, fate).0 == [id] + log && id !in log);
    assert Commit(log, id, fate).1 ==> Commit(log, id, fate).0 != log || id in log;
    hide Commit;
    if id !in log {
      NewestIsNew(log, id);
    }
    hide NoDuplicates;
  }

  lemma NewestIsNew(log: seq<CommitId>, id: CommitId)
    requires NoDuplicates(log) && id !in log
    ensures NoDuplicates([id] + log)
  {
    forall i, j | 0 <= i < j < |[id] + log|
      ensures ([id] + log)[i] != ([id] + log)[j]
    {
      assert ([id] + log)[j] == log[j - 1] && log[j - 1] in log;
    }
  }
}
