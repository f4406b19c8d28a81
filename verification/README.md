# Munshi: a verified model

Munshi archives coding-agent sessions. A worker turns a session's transcript into a summary, writes it
as a Markdown file with a Git commit behind it, and mirrors it to a remote note vault. This project
models the parts where a crash, a lost answer or a malformed text could do harm, and proves what they
keep. To check it, run `dafny verify dfyconfig.toml` in this directory.

## How it is laid out

- **The archive worker** (`WorkerStore`, `WorkerMachine`, `WorkerSafety`, `WorkerSteps`,
  `WorkerTheorems`, `WorkerRecovery`, `WorkerHistory`, `WorkerClaims`, `ArchiveWorker`). A transition system over the session row, its
  attempts with their plans, the archive file and the Git log. Every effect works, is refused, or takes
  effect and loses its answer; a crash may fall between any two and loses only memory; the summarizer
  and the transcript are an adversary. `ArchiveWorker` is the worker's own control flow as a class,
  proved to follow the transition system step by step.
- **Commits** (`CommitMessage`). The message that preserves a revision and the line-exact recogniser
  over `git log` output.
- **The archive format** (`ArchiveRecord`, `ArchiveReader`, `ArchiveRoundTrip`, `ArchiveRules`,
  `Summary`, `JsonText`, `Identity`, `Text`, `Trimming`). The writer, the reader, the exact condition
  under which they invert each other, and what a reader can rely on in any file it believes.
- **Delivery** (`Vault`, `Delivery`, `DeliveryRuns`, `DeliveryConvergence`, `DeliveryWorker`,
  `DeliveredBody`). The remote is its files, the tree last committed and an append-only log; every call
  has an adversarial fate.
- **Memory mirroring** (`MemoryMirror`, `MemorySync`, `MemorySyncRuns`, `MemorySyncConvergence`,
  `MemorySyncStale`, `MemorySyncWorker`, `ManifestNotes`, `MachineLabel`) over the same vault.
- **Transcripts** (`TranscriptStream`, `SessionSummary`, `ToolEvents`, `Classify`, `RecordTexts`,
  `ClaudeRecords`, `CopilotRecords`, `CodexRecords`, `Signals`, `CommandBlock`, `JsonValue`). The three
  `Records` modules say over a record's own members which events it gives. And **HTTP** (`HttpBody`,
  `HttpResponse`).
- **Bounded algorithms** (`Exhaust`, `ClaudeSettings`, `Histogram`).

## What the proofs turned up

The model keeps the code as it is. Where a promise does not hold for every input, the project proves
the exact condition and gives an input or run that shows the failure.

- A list that is exactly `["None."]` reads back as empty; as a work list it makes the file unreadable.
  Such a summary passes validation, and once it is recorded no later attempt of the session can
  succeed (`RoundTripIff`, `NoneMakesUnread`, `UnreadForever`).
- A placeholder's verdict takes the row out of `processing` while the attempt still runs. A crash
  before the file is written leaves that attempt and its plan behind; when a later attempt writes the
  same placeholder, reconciliation finds the old plan for ever and its completion is always refused
  (`FirstRunGetsStuck`, `StuckForever`). Recovery of a pending plan completes exactly when
  `PendingRecoversIff` says.
- The output of `git log` is read up to 16 KiB and more of it is an error. A session's own commits
  reach that after 174 of them at most (`FirstUnreadable`), after 75 to 82 when it is named by a UUID
  (`HistoryThresholds`). From then on the log never changes and no Git-tracked revision completes again
  (`HistoryFillsUp`, `FullForever`); a crash behind the commit that fills it stops the session for good
  (`PendingForever`). An attempt completes exactly when `AttemptCompletesIff` says.
- A delivered revision whose commit has sunk below the newest 500 log entries is never correlated
  again while its note is unchanged (`BuriedHistoryIsMissed`, `MissedForever`).
- A revision delivered while no history was required is not delivered again when it becomes required
  (`LatestOnlyStaysLatestOnly`).
- Memory sync compares its own prefix without normalising it: with a leading slash in the folder it
  takes its own dirty files for foreign ones (`OwnFilesRecognisedIff`). A dead letter is counted as
  unchanged. Mirroring relies on `PUT` making missing documents while delivery relies on it refusing;
  each is modelled as its own caller relies on it.
- A correlation accepts any listed commit under its message. When an earlier attempt's commit is
  listed and the next one is refused, a memory directory counts as synced although what it wrote is not
  committed (`StaleCommitIsTaken`; exactly when is `SuccessCommitsIff` and `SuccessAlwaysCommitsIff`).
  Two passes get there (`StaleIsReachable`), and from then on its dirty note keeps every other directory
  from being synced (`BlockedForever`).
- A machine label can change when it is sanitized again: a suffix `.LOCAL` survives the first time, in
  small letters, and not the second (`SanitizedTwiceIff`, `CapitalsKeepTheSuffix`).
- Removing hooks drops an empty managed array only when it takes out an entry or nothing else is left
  in the hooks object (`EmptyArrayStaysIff`).

## What is assumed

- Reads of local files are truthful: a read that fails stands for a missing file. The code treats a
  failed read of the previous archive as an absent one.
- A session has one archive path, the file that was there before the first attempt calls a summary a
  placeholder only with the placeholder tag, and the summarizer never emits that tag.
- The content hash is any function; it determines its content only where a lemma says so.
- The remote reports its status truthfully, and other writers do not rewrite its log.
- A text is a sequence of Unicode characters; bytes appear in the HTTP and stream modules.

## Model

| member | source | states |
|---|---|---|
| WorkerTheorems.CrashConsistency | crates/munshi/src/hooks.rs:1312-1423 | over every run of attempts, crashes between any two effects, failed or unanswered commits, rollbacks, reconciliations and abandonments, the archive file is the recorded content or the pending plan's own content with the plan's hash, and with no plan pending it is exactly the recorded content |
| WorkerTheorems.PriorIsRefusedOnlyForNone | crates/munshi/src/hooks.rs:1660-1691 | over every run the prior archive of a claimed session is never refused for its hash, session or revision; the only refusal left is a recorded work list that is the lone `None.` |
| WorkerTheorems.RunsAdvance | crates/munshi/src/hooks.rs:1486-1498 | over every run the recorded revision never decreases, and once a real summary is recorded no later record is a placeholder |
| WorkerTheorems.NextAdvances | crates/munshi/src/hooks.rs:1289-1293 | every single event keeps the revision with the same summary (as it reads back), or raises it by one, or imports one where there was none |
| WorkerTheorems.EveryEventAdvances | crates/munshi/src/hooks.rs:1289-1293 | and so does one more event after any run; from a recorded revision on, never by more than one |
| WorkerTheorems.DraftAdvances | crates/munshi/src/hooks.rs:1166-1173 | a completed attempt raises the revision by exactly one unless its draft was cursor-only, and by exactly zero, with the summary the record already has, when it was; an attempt that does not complete leaves the row |
| WorkerTheorems.FoundAdvances | crates/munshi/src/hooks.rs:1568-1631 | a reconciled attempt moves the revision the same way, whatever file it was reconciled from |
| WorkerTheorems.ArchivedIsReal | crates/munshi/src/hooks.rs:1614-1631 | over every run an archived session records a real summary, and its file, recorded or pending, never calls itself a placeholder |
| WorkerTheorems.OneCommitPerRevision | crates/munshi/src/archive_git.rs:101-109 | over every run, whatever commits landed but reported failure, no two commits preserve the same revision; every Git-tracked plan the run completed, as a summary or as a placeholder, has its commit; and what the row records is the last plan completed |
| WorkerTheorems.CompletionRecords | crates/munshi/src/state.rs:3731-3912 | the recorded revision, summary and hash move by a completion, to exactly its plan's, or by the import of a first revision, and by nothing else |
| WorkerSteps.AtCompleting | crates/munshi/src/hooks.rs:1357-1377 | whenever a Git-tracked revision is about to be completed its commit is in the log |
| WorkerSteps.NextKeeps | crates/munshi/src/hooks.rs:262-359 | the invariant behind all of this survives every event: worker steps with any fate, crashes, wake-ups and requeues |
| WorkerSteps.RunKeeps | crates/munshi/src/hooks.rs:262-359 | so it holds after every run |
| WorkerSteps.KeepsWriting | crates/munshi/src/hooks.rs:1348-1356 | replacing the file, refused, done or done without an answer, leaves recorded or planned content |
| WorkerSteps.KeepsCommitting | crates/munshi/src/hooks.rs:1357-1377 | a commit, refused, done or done without an answer, leaves a log without duplicates and an attempt that is completed only with its commit |
| WorkerSteps.KeepsRollingBack | crates/munshi/src/hooks.rs:1642-1658 | rolling back restores the recorded content, or leaves planned content to the next worker |
| WorkerSteps.KeepsReconcileCompleting | crates/munshi/src/hooks.rs:1568-1631 | completing a reconciled attempt leaves a row that says what the file says |
| WorkerSteps.DecideFits | crates/munshi/src/hooks.rs:1043-1173 | a claimed attempt plans the next revision, or for a cursor-only update the same revision with the same summary, and never a placeholder over a real summary |
| WorkerSteps.PriorIsRecorded | crates/munshi/src/hooks.rs:1660-1691 | the prior archive that is read is the recorded one: same summary as it reads back, same placeholder flag |
| WorkerSteps.HydrateKeeps | crates/munshi/src/state.rs:4139-4257 | importing the archive file into a row without a revision keeps the pending plan fitting that row |
| WorkerSafety.RenderReads | crates/munshi/src/hooks.rs:1537-1560 | the written file of any renderable revision agrees with its plan on session, revision and every cursor field, unless its work list is the lone `None.` |
| WorkerSafety.CommitKeeps | crates/munshi/src/archive_git.rs:101-152 | committing never duplicates a revision, never loses one, and has it in the log when it reports success |
| WorkerRecovery.RecoveryIff | crates/munshi/src/hooks.rs:1522-1640 | a fault-free recovery of the pending plan's own content completes the attempt with the planned revision if and only if the planned work list is not the lone `None.` and, for a Git-tracked plan, the log can still be read |
| WorkerRecovery.PendingRecoversIff | crates/munshi/src/hooks.rs:1522-1640 | for any pending plan, whoever's it is: a fault-free recovery of its own content completes its attempt if and only if the attempt is still the row's own, the planned work list is not the lone `None.` and, for a Git-tracked plan, the log can be read; when the first or the second fails nothing ever completes it |
| WorkerRecovery.EveryPendingRecoversIff | crates/munshi/src/hooks.rs:1522-1640 | and so at every state a run can reach |
| WorkerHistory.AttemptCompletesIff | crates/munshi/src/hooks.rs:1312-1423 | a claimed attempt on which nothing fails completes its plan if and only if, for a Git-tracked one, the log can be read; otherwise file, record and log are what they were and the attempt has failed |
| WorkerHistory.FullForever | crates/munshi/src/archive_git.rs:101-152 | once the log is over the limit it never changes again, and over every run no Git-tracked plan is completed or reconciled |
| WorkerHistory.PendingForever | crates/munshi/src/hooks.rs:1557-1567 | a Git-tracked plan that a crash left pending behind the commit that filled the log is never recovered, and no attempt is ever claimed again |
| WorkerHistory.HistoryFillsUp | crates/munshi/src/archive_git.rs:16-16 | every session gets there: a run on which nothing fails commits revisions 1 to n + 1, n below 175, after which no Git-tracked plan completes; with a crash behind the last commit that revision stays pending for good |
| WorkerHistory.RepeatableExists | crates/munshi/src/archive_git.rs:16-16 | every session has a revision this happens with |
| WorkerRecovery.HashedIsPlanned | crates/munshi/src/hooks.rs:1533-1537 | with a hash that determines its content, every file with the hash of the row's own pending plan is that plan's content |
| WorkerRecovery.StuckForever | crates/munshi/src/hooks.rs:1568-1631 | a file that matches a pending plan which is no longer the row's own stops the session for good: no attempt is ever claimed or completed again and the file stays |
| WorkerRecovery.FirstRunGetsStuck | crates/munshi/src/state.rs:3664-3704 | such a state is reached from a fresh session: a placeholder attempt dies between its verdict and its file, and a second attempt writes the same placeholder |
| WorkerRecovery.PlaceholderExists | crates/munshi/src/hooks.rs:1263-1293 | every session has a placeholder revision this can happen with |
| WorkerRecovery.UnreadForever | crates/munshi/src/hooks.rs:1660-1691 | a recorded file that does not read stops the session's revisions for good |
| WorkerRecovery.NoneMakesUnread | crates/munshi/src/hooks.rs:1390-1423 | completing a revision whose work list is the lone `None.` records such a file |
| ArchiveWorker.Worker.RunArchiveWorker | crates/munshi/src/hooks.rs:262-359 | the worker's own control flow, cut off anywhere, leaves exactly the durable state the state machine reaches and keeps a consistent one consistent |
| ArchiveWorker.Worker.ReconcilePersistedAttempt | crates/munshi/src/hooks.rs:1522-1640 | reconciliation as it runs: every early exit, the commit and the completion |
| ArchiveWorker.Worker.ProcessClaim | crates/munshi/src/hooks.rs:1013-1423 | the claimed attempt as it runs, with the caller's verdict on its error |
| ArchiveWorker.Worker.Persist | crates/munshi/src/hooks.rs:1312-1423 | plan, placeholder verdict, file, commit with rollback, completion, in that order and with every exit |
| ArchiveWorker.Worker.ReplaceFile | crates/munshi/src/render.rs:197-218 | a replacement that reports an error fails the attempt only when the planned content did not arrive |
| ArchiveWorker.Worker.CommitRevision | crates/munshi/src/archive_git.rs:101-152 | a revision the log already holds is not committed again |
| ArchiveWorker.Worker.CompleteAttempt | crates/munshi/src/state.rs:3731-3912 | a completion is one transaction that happens only for the row's own running attempt and values that restate its plan |
| ArchiveWorker.Worker.Fail | crates/munshi/src/state.rs:3991-4054 | a failed attempt ends, and the row changes only while it still carries the attempt's token |
| ArchiveWorker.Worker.AbandonProcessing | crates/munshi/src/state.rs:3401-3453 | the newest running attempt ends and the session goes back to the state it was claimed from |
| ArchiveWorker.Worker.ClaimSession | crates/munshi/src/state.rs:3455-3585 | a claim opens a new attempt under a new token |
| ArchiveWorker.Worker.HydrateFromArchive | crates/munshi/src/hooks.rs:280-293 | the archive is imported only while the session has no revision |
| WorkerClaims.ClaimsIff | crates/munshi/src/state.rs:3493-3504 | a fault-free worker claims a session at rest if and only if it is neither just observed nor archived nor failed and parked, and the attempt it opens remembers the state to give back |
| WorkerClaims.FailedIsTriedAgain | crates/munshi/src/state.rs:3991-4054 | after a failed attempt the next fault-free worker claims the session again if and only if it was not parked, in the state the failed attempt came from |
| WorkerClaims.AbandonedIsClaimedIff | crates/munshi/src/state.rs:3401-3453 | and so after a worker that died at work, exactly when the state given back waits for one |
| WorkerClaims.SettledIsClaimedIff | crates/munshi/src/hooks.rs:1043-1173 | after an attempt that found nothing to record the session is claimed again if and only if its archive is current and its transcript had moved on meanwhile; otherwise it is archived, or back to observed when nothing was worth archiving |
| WorkerClaims.CompletedIsClaimedIff | crates/munshi/src/state.rs:3731-3912 | after a completed attempt if and only if it recorded a real summary and the transcript had moved on; a placeholder parks the session, and otherwise it is archived |
| WorkerClaims.HydrateSays | crates/munshi/src/state.rs:4139-4257 | only a file that reads as a later revision of this very session is imported; the session then waits for a worker if and only if a hook had recorded it and it had work waiting |
| WorkerClaims.DecideIff | crates/munshi/src/hooks.rs:1043-1173 | what a claimed attempt goes on with, outcome by outcome and in terms of the row and the file |
| WorkerClaims.PriorIff | crates/munshi/src/hooks.rs:1660-1691 | the prior archive is taken exactly from a file with the recorded hash that reads and states this session and revision |
| WorkerClaims.ReconcileIff | crates/munshi/src/hooks.rs:1533-1567 | a file is taken for the pending plan's exactly when it has the planned hash, reads, and states this session and the plan's revision and cursor |
| WorkerClaims.FoundSays | crates/munshi/src/hooks.rs:1568-1631 | a reconciled attempt records what the file says |
| WorkerClaims.FailedWriteParks | crates/munshi/src/hooks.rs:1348-1356 | a replacement that reports an error parks the session, unless the file has the planned hash all the same; then the plan stays pending for the next worker |
| WorkerStore.PendingFrom | crates/munshi/src/state.rs:3359-3399 | the newest running attempt that stored a plan |
| WorkerStore.NewestRunning | crates/munshi/src/state.rs:3401-3453 | the newest running attempt |
| CommitMessage.RecognisesExactly | crates/munshi/src/archive_git.rs:117-121 | a written message is recognised for its own source, session and revision and for no other, so revision 1 never matches 11 |
| CommitMessage.ExistenceIsMembership | crates/munshi/src/archive_git.rs:155-206 | over the whole log output the existence check answers exactly whether that revision was committed |
| CommitMessage.LogHoldsIff | crates/munshi/src/archive_git.rs:183-205 | splitting the output at its separators finds exactly the messages |
| CommitMessage.RecogniseMessage | crates/munshi/src/archive_git.rs:183-203 | the four flags of one message's lines decide recognition |
| CommitMessage.ArchiveCommitExists | crates/munshi/src/archive_git.rs:180-205 | the loop over the messages |
| CommitMessage.HistoryReadableIff | crates/munshi/src/archive_git.rs:170-180 | a session's own n commits can be read if and only if their names and numbers fit the output limit, and then so can fewer |
| CommitMessage.FirstUnreadable | crates/munshi/src/archive_git.rs:16-16 | every session has a last history that can be read, of fewer than 175 commits, whose extension by the next commit cannot |
| CommitMessage.HistoryThresholds | crates/munshi/src/archive_git.rs:16-16 | which is 174 commits for the shortest names and 75, 80 or 82 for sessions named by a UUID |
| WorkerHistory.CommitExtendsHistory | crates/munshi/src/archive_git.rs:101-152 | committing the next revision on a history that can be read makes the next history, and on one that cannot does nothing and fails |
| ArchiveRoundTrip.ParseOfRender | crates/munshi-transcript/src/archive.rs:230-409 | for every well-formed revision with a validated summary the reader returns exactly the metadata, cursor, artifact index and summary that were written, with a lone `None.` read as no item, and refuses the file when that was the work list |
| ArchiveRoundTrip.RoundTripIff | crates/munshi-transcript/src/archive.rs:533-535 | the round trip is exact if and only if no list is the single item `None.` |
| ArchiveRoundTrip.BodyRoundTrip | crates/munshi-transcript/src/archive.rs:499-529 | title, goal and the five lists are found at the first occurrence of each of the seven separators |
| ArchiveRoundTrip.ListRoundTrip | crates/munshi-transcript/src/archive.rs:531-544 | a written list is read back unless it is the lone `None.` |
| ArchiveRoundTrip.EntryRoundTrip | crates/munshi-transcript/src/archive.rs:471-497 | a written artifact index entry is read back |
| ArchiveRoundTrip.FrontmatterText | crates/munshi-transcript/src/archive.rs:426-466 | the frontmatter ends where it was written to end and reads back field by field |
| ArchiveReader.ReadFrontmatter | crates/munshi-transcript/src/archive.rs:426-466 | the line loop with its open list computes the frontmatter the recursive reading says |
| ArchiveReader.ReadArtifactIndexEntry | crates/munshi-transcript/src/archive.rs:471-497 | the token loop keeps the last value of each kind and fails on anything else |
| ArchiveReader.ReadScalarOrHeader | crates/munshi-transcript/src/archive.rs:448-463 | one frontmatter line outside a list |
| JsonText.UnquoteOfQuote | crates/munshi-transcript/src/archive.rs:553-555 | every string written as a JSON string (section 7 of RFC 8259) is read back |
| JsonText.QuoteIsPlainLine | crates/munshi/src/render.rs:352-354 | and stays on one line |
| Summary.ValidatedSummaryIsNormal | crates/munshi-transcript/src/summary.rs:71-132 | validation is idempotent, and its results are exactly the summaries it leaves unchanged |
| Identity.ArchiveIdInjective | crates/munshi-transcript/src/archive.rs:64-73 | the durable identity determines harness and session |
| ArchiveRules.BelievedIsValid | crates/munshi-transcript/src/archive.rs:230-409 | whatever a file says, a record read from it keeps every rule: a known schema, a positive revision, a routable project, hashes that are hashes, known reasons, a cursor at the end of the source exactly from the second schema on, a summary as it is written, and the mark of a placeholder on one |
| ArchiveRules.SummaryPassesIff | crates/munshi-transcript/src/summary.rs:71-132 | validation takes over exactly what the fields say, each trimmed and with its line ends folded, if and only if that keeps every rule of a summary, limits in numbers |
| ArchiveRules.TextPassesIff | crates/munshi-transcript/src/summary.rs:111-132 | the same for one text |
| ArchiveRules.FoldIff | crates/munshi-transcript/src/summary.rs:111-132 | replacing line ends in two passes folds them in one |
| ArchiveRules.WellFormedIff | crates/munshi-transcript/src/archive.rs:290-345 | what a revision has to be to be written, member by member |
| ArchiveRules.SessionIdIff | crates/munshi/src/hooks.rs:2193-2205 | a session identifier is one path component of at most 128 characters over its alphabet |
| ArchiveRules.NumberReadsIff | crates/munshi-transcript/src/archive.rs:557-567 | a number is read from its decimal digits by their places, behind one plus sign at most, and refused when it does not fit |
| ArchiveRules.LinesReadAlike | crates/munshi-transcript/src/archive.rs:426-446 | frontmatter lines read alike whether they end in a carriage return and a line feed or in a line feed alone |
| DeliveryRuns.RunsKeepHistory | crates/munshi/src/delivery.rs:723-793 | over any run of attempts, lost answers, retries and other writers, a recorded history commit is in the remote log under exactly the recorded source, session and revision |
| DeliveryRuns.DeliveredHasHistory | crates/munshi/src/delivery.rs:830-865 | a success under an available gate always records such a commit, and only there |
| Delivery.SubjectInjective | crates/munshi/src/delivery.rs:731-734 | the commit message determines source, session and revision |
| Delivery.NotePathInjective | crates/munshi/src/delivery.rs:431-453 | two sessions of one project never share a note |
| Delivery.NotesAreApart | crates/munshi/src/delivery.rs:431-453 | under one folder no two sessions of any two projects share a note, for component names without a slash |
| Delivery.NotePathShape | crates/munshi/src/delivery.rs:431-453 | every note lies in its project's directory under the harness and the session, below the folder stripped of the slashes at its ends |
| Delivery.NoteCarries | crates/munshi/src/delivery.rs:497-526 | a note is created with the body as it is and replaced by it with one line feed for the white space at its end, and carries session, harness, project and revision |
| Delivery.SkippedIff | crates/munshi/src/delivery.rs:553-607 | each reason to skip exactly when it is the first that holds, then a dead letter, then what the row says was delivered; none makes a call or changes anything |
| Delivery.WaitAfter | crates/munshi/src/delivery.rs:528-533 | the n-th failure waits a minute doubled n - 1 times, and never more than an hour |
| Delivery.FailureIsDue | crates/munshi/src/state.rs:1407-1465 | it makes a dead letter when n is the limit and otherwise puts the next attempt off by that wait |
| Delivery.RetryIs | crates/munshi/src/state.rs:1469-1501 | a retry is due at once and forgets nothing delivered; a forced one counts failures from one again |
| DeliveryRuns.AttemptIsIsolated | crates/munshi/src/delivery.rs:655-720 | an attempt changes no file but the session's own note and commits no other path; a closed gate or any unrelated dirty path leads to no create, replace or commit |
| DeliveryRuns.ConvergesIff | crates/munshi/src/delivery.rs:717-793 | a fault-free attempt leaves the current body at the session's route and records it if and only if the gate lets it and, where history is required, nothing unrelated is dirty and the revision can be correlated |
| DeliveryConvergence.RunsAccount | crates/munshi/src/delivery.rs:717-793 | over any run of attempts that fail, lose answers or die, nothing but the session's own note is dirty and the committed note was committed under its own revision, behind no more commits than other writers made |
| DeliveryConvergence.DeliveryConverges | crates/munshi/src/delivery.rs:717-793 | so from a fresh vault, after any such run short of a dead letter and fewer than 500 commits of others, one fault-free attempt leaves exactly one note of the session with the current body and makes every further attempt silent; a row that is already current is right about that note as long as revisions did not go back |
| DeliveryConvergence.AnyWritersConvergeIff | crates/munshi/src/delivery.rs:717-793 | with arbitrary other writers, if and only if the gate lets it and, where history is required, no other path is dirty and the revision can be correlated |
| DeliveryRuns.NextIsSilent | crates/munshi/src/delivery.rs:598-607 | after a success the next attempt at the same revision and summary makes no call |
| DeliveryRuns.RunsKeepOneRoute | crates/munshi/src/delivery.rs:873-907 | over any run under a fixed configuration all notes of the session lie at one route |
| DeliveryRuns.BuriedHistoryIsMissed | crates/munshi/src/delivery.rs:1204-1246 | a delivered and committed note whose commit lies below the newest 500 entries is missed by the next attempt although the log holds it |
| DeliveryRuns.MissedForever | crates/munshi/src/delivery.rs:1204-1246 | and for ever: over any run of attempts with any fates, retries and other writers who leave the note and the message alone, such a revision is never delivered |
| DeliveryRuns.LatestOnlyStaysLatestOnly | crates/munshi/src/delivery.rs:598-607 | a revision delivered while no history was required counts as delivered, without a commit, once history is required |
| DeliveryRuns.DeadLetterNeedsForce | crates/munshi/src/state.rs:1469-1501 | a dead letter stays one without a forced retry |
| DeliveryRuns.DeadLetterIsLeftAlone | crates/munshi/src/delivery.rs:591-595 | and no attempt at it makes a call or changes the vault |
| DeliveryRuns.DeadLetterAfterLimit | crates/munshi/src/state.rs:1407-1465 | of failures in a row exactly the one that reaches the limit makes the dead letter |
| DeliveryRuns.WithheldIsFree | crates/munshi/src/state.rs:1382-1402 | a blocked attempt leaves the attempt count and the vault; only a failure can end in a dead letter |
| Delivery.BackoffGrows | crates/munshi/src/delivery.rs:528-533 | later attempts wait no less, between a minute and an hour |
| DeliveryWorker.Worker.DeliverNow | crates/munshi/src/delivery.rs:544-810 | the attempt as it runs does what the specification says, call by call |
| DeliveryWorker.Worker.Send | crates/munshi/src/delivery.rs:717-793 | note, commit, row, with every failure branch |
| DeliveryWorker.Worker.Correlate | crates/munshi/src/delivery.rs:830-865 | every answer but a found commit is settled by the exact lookup |
| DeliveryWorker.Worker.ReplaceThenCreate | crates/munshi/src/delivery.rs:875-887 | a note that is gone is made again |
| DeliveryWorker.Worker.CreateThenAdopt | crates/munshi/src/delivery.rs:892-907 | a note that is already there is taken over |
| DeliveryWorker.Worker.FindUnrelated | crates/munshi/src/delivery.rs:664-681 | exactly the dirty paths that are not the session's own up to leading slashes |
| Vault.FindCommitByMessage | crates/munshi/src/delivery.rs:1204-1246 | the newest entry whose subject is exactly the message |
| Vault.LookupIff | crates/munshi/src/delivery.rs:1204-1246 | a lookup that is answered finds the newest commit with the subject exactly when it is among the 500 newest |
| Vault.CommitIsExact | crates/munshi/src/delivery.rs:1135-1168 | a commit makes the tree what lies in the vault and names exactly the paths whose committed content it changes; there is none when nothing would change |
| Vault.CleanAfterWrite | crates/munshi/src/delivery.rs:1135-1168 | a write leaves the tree clean exactly when it restates what was committed and nothing else was dirty |
| DeliveredBody.ArchiveBodyOfRender | crates/munshi/src/delivery.rs:458-465 | the delivered body of a written archive is exactly what stands behind its frontmatter |
| DeliveredBody.HistoriesCorrelateIff | crates/munshi/src/delivery.rs:724-734 | behind its prefix the subject of a vault commit is that of an archive commit if and only if both preserve the same revision of the same session |
| MemorySyncRuns.ReportPartitions | crates/munshi/src/memory_sync.rs:536-663 | the counts of every successful pass sum to the number of directories |
| MemorySyncRuns.SyncedPassIsSilent | crates/munshi/src/memory_sync.rs:559-582 | with all directories synced and files fixed no pass, forced or not, contacts the sink or changes a row |
| MemorySyncRuns.CleanPassSyncsAll | crates/munshi/src/memory_sync.rs:593-663 | a pass without failure, block or deferral leaves everything synced |
| MemorySyncConvergence.SyncIff | crates/munshi/src/memory_sync.rs:720-791 | a fault-free sync of a directory succeeds if and only if nothing but its own is dirty and something of its mirror is uncommitted or the revision's commit is still listed; unless refused it leaves the mirror as it is to be and the tree clean |
| MemorySyncConvergence.FaultFreePassIff | crates/munshi/src/memory_sync.rs:536-663 | a fault-free pass syncs exactly the directories that meet that condition at their turn |
| MemorySyncConvergence.RunsKeepNotes | crates/munshi/src/memory_sync.rs:764-791 | over any run, whatever fails or loses its answer, a manifest note committed beyond its row's revision was committed under its own message |
| MemorySyncConvergence.SyncConverges | crates/munshi/src/memory_sync.rs:536-663 | from a clean tree or one that an earlier pass left dirty, one fault-free pass syncs all it finds to do and every later pass is silent, unless another's dirt or a commit sunk below the listed entries is in the way |
| MemorySyncConvergence.RunsConverge | crates/munshi/src/memory_sync.rs:536-663 | so after any run of failed calls, lost answers and passes that died anywhere, also between a commit and its row: one fault-free pass syncs exactly what can be synced, and all of it with nothing in the way |
| MemorySyncStale.SuccessCommitsIff | crates/munshi/src/delivery.rs:836-865 | a success has committed the mirror it wrote if and only if its commit was not refused or the mirror was committed before; a success after a refused commit rests on an older commit under its message |
| MemorySyncStale.SuccessAlwaysCommitsIff | crates/munshi/src/memory_sync.rs:720-791 | before the call: whatever fails, a success will have committed the mirror if and only if no commit under the next revision's message is listed or the mirror is committed already |
| MemorySyncStale.StaleCommitIsTaken | crates/munshi/src/delivery.rs:859-864 | when an earlier attempt's commit is listed and the next commit is refused, the sync counts as a success although nothing it wrote is committed |
| MemorySyncStale.StaleIsReachable | crates/munshi/src/memory_sync.rs:764-791 | two passes get there from a directory that was never synced: the row says the new files are synced, the last commit holds the old ones and the new note stays dirty |
| MemorySyncStale.VersionsExist | crates/munshi/src/memory_sync.rs:764-791 | every directory name has two versions this happens with |
| MemorySyncStale.DirtyNoteBlocks | crates/munshi/src/memory_sync.rs:733-744 | while one directory's manifest note is dirty no other is synced and the vault stays as it is |
| MemorySyncStale.BlockedForever | crates/munshi/src/memory_sync.rs:733-744 | so once such a directory counts as synced, no directory is synced over any run of passes, forced or not, finished or not, as long as its files stay as they are and nobody else cleans its note |
| MemorySyncStale.StaleBlocksForever | crates/munshi/src/memory_sync.rs:733-744 | and a fresh mirror gets there in two passes |
| MemorySyncRuns.DeadLetterIsLeftAlone | crates/munshi/src/memory_sync.rs:705-713 | a dead letter's row and mirror are never written without force |
| MemorySyncRuns.SyncIsIsolated | crates/munshi/src/memory_sync.rs:720-791 | syncing a directory changes no path but its own mirror, commits no path but its own and only under its own message, and does nothing while any other path is dirty |
| MemorySyncRuns.RunsKeepHistory | crates/munshi/src/memory_sync.rs:764-791 | over any run every recorded commit is in the log under exactly the directory and revision of its row |
| MemorySyncRuns.MirrorsAreApart | crates/munshi/src/memory_sync.rs:385-396 | no path belongs to two directories' mirrors, be they of one machine or of two |
| MemoryMirror.MirrorPathsDistinct | crates/munshi/src/memory_sync.rs:385-396 | mirrored and manifest paths are pairwise distinct across all directories of all machines |
| MemoryMirror.MirrorPathShape | crates/munshi/src/memory_sync.rs:385-396 | a mirrored file lies in the folder, the machine's directory and the memory directory's; the manifest note beside that |
| MemoryMirror.ManifestIsFolderIff | crates/munshi/src/memory_sync.rs:392-396 | a manifest note's path is the folder of a mirrored file exactly when another directory is named after the note |
| MemoryMirror.OwnFilesRecognisedIff | crates/munshi/src/memory_sync.rs:733-744 | the preflight recognises the mirror's own dirty files exactly when its folder has no leading slash |
| MemoryMirror.ManifestInjective | crates/munshi/src/memory_sync.rs:367-378 | for paths without newlines the manifest determines every file's path, digest and size |
| MemoryMirror.NewlinePathsCollide | crates/munshi/src/memory_sync.rs:367-378 | with a newline in a path two file lists can have one manifest |
| MemoryMirror.CanonicalManifest | crates/munshi/src/memory_sync.rs:367-378 | the loop builds that manifest |
| MemoryMirror.MemoryMessageInjective | crates/munshi/src/memory_sync.rs:400-402 | the commit message determines machine, directory and revision, for machine labels without a colon |
| MachineLabel.SanitizedIsLabel | crates/munshi/src/memory_sync.rs:255-273 | a machine label is one directory name without slash and colon, so these conditions hold of it |
| MachineLabel.CharactersAre | crates/munshi/src/memory_sync.rs:255-273 | capitals become small letters and what a label does not hold becomes a dash |
| MachineLabel.SanitizedTwiceIff | crates/munshi/src/memory_sync.rs:255-273 | a label sanitized again stays what it is if and only if it does not end in `.local` |
| MachineLabel.CapitalsKeepTheSuffix | crates/munshi/src/memory_sync.rs:255-273 | a suffix in capital letters stays where one in small letters goes, so one machine can get two labels |
| ManifestNotes.NotesAgreeIff | crates/munshi/src/memory_sync.rs:410-439 | two manifest notes of one directory are the same if and only if they state the same revision, hash and files, for paths without newlines |
| MemorySync.FailingIsDue | crates/munshi/src/memory_sync.rs:685-713 | a directory whose n-th sync in a row failed is left alone by an unforced pass exactly until a minute doubled n - 1 times, or an hour, has gone by, and for good once n is the limit |
| MemorySync.OthersAreDue | crates/munshi/src/memory_sync.rs:685-713 | any other is taken up unless it is synced and its files are as they were |
| MemorySync.BlockedIsTakenUp | crates/munshi/src/memory_sync.rs:593-615 | a blocked directory keeps its attempts and is taken up by any pass |
| MemorySync.ForcedFailureIsFirst | crates/munshi/src/memory_sync.rs:593-663 | after a forced pass the next failure counts as the first |
| MemorySyncWorker.Syncer.RunWithConfig | crates/munshi/src/memory_sync.rs:536-663 | the pass as it runs: the work list before any contact, then the work |
| MemorySyncWorker.Syncer.SyncNow | crates/munshi/src/memory_sync.rs:720-791 | one directory as it runs, with every early return |
| MemorySyncWorker.Syncer.Mirror | crates/munshi/src/memory_sync.rs:750-760 | the file loop up to the first file that cannot be read or written |
| MemorySyncWorker.Syncer.SyncCandidate | crates/munshi/src/memory_sync.rs:593-661 | one candidate with its row and counters |
| MemorySyncWorker.Syncer.Decide | crates/munshi/src/memory_sync.rs:559-579 | the work list and the two counts before any contact |
| HttpBody.DechunkOfEncoding | crates/munshi/src/http.rs:320-345 | decoding any encoding of any chunks, with any spelling of sizes, any extensions and anything behind, gives their concatenation (section 7.1 of RFC 9112) |
| HttpBody.PrefixDecodesIff | crates/munshi/src/http.rs:320-345 | a prefix of an encoding decodes if and only if it reaches the end of the last chunk's line; a shorter one is an error, never a shorter body |
| HttpBody.LineSaysSize | crates/munshi/src/http.rs:328-331 | a chunk line says its size whatever its extensions are |
| HttpBody.SaysSizeIff | crates/munshi/src/http.rs:328-331 | a size is said by hexadecimal digits whose place values sum up to it and that 64 bits can hold |
| HttpBody.DechunkLoop | crates/munshi/src/http.rs:320-345 | the decoding loop |
| HttpBody.PercentRoundTrip | crates/munshi/src/http.rs:124-135 | percent-encoding loses nothing |
| HttpBody.EncodedPathIsPlain | crates/munshi/src/http.rs:124-135 | the encoded path holds only unreserved characters, slashes and percent signs |
| HttpBody.PlainPathIsKept | crates/munshi/src/http.rs:124-135 | and a path of unreserved characters (section 2.3 of RFC 3986) and slashes is sent as it is |
| HttpBody.EncodedPathKeepsSlashes | crates/munshi/src/http.rs:124-135 | every slash is kept and no other byte becomes one |
| HttpBody.EncodePathLoop | crates/munshi/src/http.rs:124-135 | the encoding loop |
| HttpResponse.ResponseRoundTrip | crates/munshi/src/http.rs:282-318 | a written response is read back, whatever bytes its head holds: status, fields with lower-case names and trimmed values as the lossy decoding gives them, and the body, decoded exactly when a field named Transfer-Encoding in any letter case says chunked in any letter case |
| HttpResponse.LowerIsExact | crates/munshi/src/http.rs:296-306 | lowering changes the case of the capital letters and nothing else |
| HttpResponse.ChunkedResponseRoundTrip | crates/munshi/src/http.rs:282-318 | a chunked response is read back whole, whatever the chunking |
| HttpResponse.ParseHttpResponse | crates/munshi/src/http.rs:282-318 | the parser with its header loop |
| Classify.PromotionIsInvisible | crates/munshi-transcript/src/classify.rs:39-45 | for every record of every harness the classification has the same kind and events as without promotions; each tool event has its event field, ordered fields, derived keys that are fields and shadow nothing, and the rendering it had before |
| Classify.CopilotPromotes | crates/munshi-transcript/src/classify.rs:200-272 | the same for each Copilot record kind |
| Classify.ClaudePromotes | crates/munshi-transcript/src/classify.rs:659-732 | the same for Claude Code records, block by block |
| Classify.CodexPromotes | crates/munshi-transcript/src/classify.rs:1086-1136 | the same for Codex records |
| Classify.ClaudeToolPromotes | crates/munshi-transcript/src/classify.rs:971-1022 | a shell command, a skill and its arguments are derived without moving the rendering |
| Classify.CodexLocalShellSound | crates/munshi-transcript/src/classify.rs:1248-1270 | the local shell call's own command stays a rendered field |
| Classify.ClassifyClaudeBlocks | crates/munshi-transcript/src/classify.rs:686-729 | the block loop with its recognised flag |
| ClaudeRecords.ClaudeRecordLaw | crates/munshi-transcript/src/classify.rs:659-732 | over the record's own members: a list gives, in order, exactly the events of the blocks that carry something, a text its core as one message, the rest nothing; an assistant record gives no user message and a user record no assistant message |
| ClaudeRecords.OtherClaudeRecords | crates/munshi-transcript/src/classify.rs:659-677 | no record of another kind gives an event |
| ClaudeRecords.BlockLaw | crates/munshi-transcript/src/classify.rs:686-729 | a text block gives the record's side and its trimmed text, a tool_use block of an assistant and a tool_result block of a user a tool event, and nothing else anything |
| ClaudeRecords.UseFields | crates/munshi-transcript/src/classify.rs:971-1022 | which member each field of a tool call is, the command of Bash and the skill of Skill among them, and which are derived |
| ClaudeRecords.ResultFields | crates/munshi-transcript/src/classify.rs:1024-1046 | which member each field of a tool result is; its output is all texts of its content, however nested, in order |
| ClaudeRecords.UnknownIff | crates/munshi-transcript/src/classify.rs:643-677 | a record is unknown exactly when its kind is none of the listed ones |
| CopilotRecords.CopilotRecordLaw | crates/munshi-transcript/src/classify.rs:200-272 | a Copilot record gives at most one event: the trimmed content of a user or assistant message on its own side, or one tool event; and nothing when its members are not as they should be |
| CopilotRecords.CopilotToolLaw | crates/munshi-transcript/src/classify.rs:373-570 | which member each field of each kind of tool event is |
| CopilotRecords.UnknownIff | crates/munshi-transcript/src/classify.rs:155-187 | a record is unknown exactly when its kind is none of the listed ones |
| CodexRecords.CodexRecordLaw | crates/munshi-transcript/src/classify.rs:1086-1136 | a Codex record gives at most one event: the joined texts of a message's text blocks on the side its role names, or one tool event |
| CodexRecords.CodexToolLaw | crates/munshi-transcript/src/classify.rs:1155-1270 | which member each field of a call, of an output and of a local shell call is |
| CodexRecords.UnknownIff | crates/munshi-transcript/src/classify.rs:1086-1136 | a record is unknown exactly when it is neither metadata nor a response item of a listed kind |
| RecordTexts.CoreIff | crates/munshi-transcript/src/classify.rs:1288-1291 | a text is read as what stands between the white space at its ends, and not at all when nothing does |
| RecordTexts.CopilotResult | crates/munshi-transcript/src/classify.rs:586-634 | the text of a nested result is the texts of all its parts in order, one to a line |
| RecordTexts.ClaudeResultText | crates/munshi-transcript/src/classify.rs:1048-1076 | the same for Claude Code |
| RecordTexts.CodexResultText | crates/munshi-transcript/src/classify.rs:1222-1246 | and for Codex, where an object's content goes before its own text |
| RecordTexts.InsertLookup | crates/munshi-transcript/src/classify.rs:1303-1305 | an inserted field is the only one that changes |
| ToolEvents.DerivedIsInvisible | crates/munshi-transcript/src/lib.rs:648-655 | a derived key leaves what is rendered as it was |
| ToolEvents.InsertOrdered | crates/munshi-transcript/src/lib.rs:719-726 | fields stay in key order, each once |
| ToolEvents.LessIff | crates/munshi-transcript/src/lib.rs:719-726 | the order of keys: the one that ends inside the other, or has the smaller character where they first differ, comes first |
| Signals.SignalsStayApart | crates/munshi-transcript/src/classify.rs:91-107 | a record gives at most one of the two signals, and neither disturbs the rendering: a compaction is bookkeeping, and a slash command is one user message or bookkeeping |
| Signals.SlashCommandIff | crates/munshi-transcript/src/classify.rs:834-880 | exactly the records are slash commands whose carrier, a user record's message text or a local command's content, holds a command block with a name that is not blank; the command is the core of its name and of its arguments |
| Signals.CompletionIgnoresBreakdown | crates/munshi-transcript/src/classify.rs:335-371 | the figures a finished compaction left behind are never read as those it started from |
| Signals.CompactionSays | crates/munshi-transcript/src/classify.rs:91-107 | which records mark a compaction and in which phase, and which member each of its figures is, for a start, a completion and a boundary |
| CommandBlock.BlockIff | crates/munshi-transcript/src/classify.rs:895-915 | exactly the texts that are, trimmed, distinct tag segments with whitespace between and a name among them are read, and each yields its bodies by tag |
| CommandBlock.SegmentsAre | crates/munshi-transcript/src/classify.rs:834-838 | the three tags as they are written, and which part of the command each holds |
| CommandBlock.LayoutIsUnique | crates/munshi-transcript/src/classify.rs:895-915 | a text has one decomposition into segments |
| CommandBlock.OrderDoesNotMatter | crates/munshi-transcript/src/classify.rs:890-894 | the result does not depend on the order of the segments |
| CommandBlock.ReadCommandBlock | crates/munshi-transcript/src/classify.rs:895-915 | the loop, which ends on every text |
| TranscriptStream.Stream.Next | crates/munshi-transcript/src/lib.rs:775-865 | the stream yields the first of the items splitting the rest on newlines gives, and keeps the others |
| TranscriptStream.Stream.Collect | crates/munshi-transcript/src/lib.rs:767-769 | collecting yields all remaining items in order |
| TranscriptStream.ItemsAreNumbered | crates/munshi-transcript/src/lib.rs:790-815 | every non-empty segment yields exactly one item in order; the k-th carries record number k and its true line number |
| TranscriptStream.LinesGoUp | crates/munshi-transcript/src/lib.rs:796-805 | line numbers strictly increase |
| TranscriptStream.FailureIsLast | crates/munshi-transcript/src/lib.rs:784-794 | a failing reader loses exactly the line it fails in and yields its failure last |
| TranscriptStream.SplitIsInverse | crates/munshi-transcript/src/lib.rs:796-803 | the split loses nothing and leaves no newline in a segment |
| SessionSummary.SummarizeSplits | crates/munshi-transcript/src/lib.rs:890-901 | the fold over a concatenation is the combination of the folds, for any split |
| SessionSummary.OrderDoesNotMatter | crates/munshi-transcript/src/lib.rs:890-901 | in any order of the parts |
| SessionSummary.CountsAreExact | crates/munshi-transcript/src/lib.rs:904-937 | every event, every ignored or unknown record and every malformed item counts exactly once |
| SessionSummary.WindowIsExact | crates/munshi-transcript/src/lib.rs:911-921 | the window starts at the earliest and ends at the latest recorded time, first not after last |
| SessionSummary.SummarizeAll | crates/munshi-transcript/src/lib.rs:892-901 | the fold as it runs |
| SessionSummary.Accumulator.Observe | crates/munshi-transcript/src/lib.rs:904-937 | one item adds its share and nothing else |
| Exhaust.SweepIsSafe | crates/munshi/src/exhaust.rs:231-284 | a pass prunes at most 200 entries, each older than both cutoffs, pruned plus remaining are all entries seen, the others stay, and the store goes only when none is left |
| Exhaust.DrainsExactly | crates/munshi/src/exhaust.rs:231-284 | k old entries and no others are gone, and the store with them, after exactly max(1, ceil(k / 200)) passes; before that the store is untouched |
| Exhaust.BacklogDrains | crates/munshi/src/exhaust.rs:270-284 | after n passes min(k, 200 n) of them are gone |
| Exhaust.Measure | crates/munshi/src/exhaust.rs:319-343 | the worklist computes the recursive latest time and total size of a readable tree and fails on any other |
| Exhaust.MeasurementIsExact | crates/munshi/src/exhaust.rs:319-343 | it exists exactly for a directory with a time in which every directory can be listed; then no node at or below it is later, some node is as late, and the bytes are those of all files and links below |
| Exhaust.OldIff | crates/munshi/src/exhaust.rs:241-262 | an entry is old exactly when it can be measured and holds nothing modified at or after now less the retention or after now less 600 seconds |
| Exhaust.NothingRecentIsPruned | crates/munshi/src/exhaust.rs:231-284 | no pruned entry holds such a node or a directory that cannot be listed |
| Exhaust.ReportIsExact | crates/munshi/src/exhaust.rs:231-284 | at most 200 pruned, and fewer only when no old entry is left; reclaimed is every byte in them, and in the store when no entry is left |
| Exhaust.FailingSweepIsSafe | crates/munshi/src/exhaust.rs:231-310 | whatever removals fail, a pass removes at most 200 entries and only old ones, leaves the others as they were and touches the store only when no entry is left; a pass that reports is the plain sweep |
| Exhaust.Sweeper.PruneHome | crates/munshi/src/exhaust.rs:231-284 | the pass as it runs, up to the first removal that fails |
| Exhaust.Sweeper.RemoveSessionStore | crates/munshi/src/exhaust.rs:293-310 | the store is removed file by file, whatever part of it is missing, up to the first file that cannot be |
| Exhaust.NoConflictIff | crates/munshi/src/exhaust.rs:202-216 | no conflict means that no path lies both in the exhaust home and in a registered one |
| ClaudeSettings.InstallRespectsOwner | crates/munshi/src/claude_settings.rs:60-79 | installing makes the status installed, changes no other key or event and keeps every foreign entry in order |
| ClaudeSettings.InstallIsIdempotent | crates/munshi/src/claude_settings.rs:60-79 | installing again changes nothing |
| ClaudeSettings.RemoveRespectsOwner | crates/munshi/src/claude_settings.rs:83-112 | removing leaves no entry of Munshi's, every foreign entry in order and every other key |
| ClaudeSettings.RemoveAfterInstall | crates/munshi/src/claude_settings.rs:83-112 | removing after installing drops Munshi's entries and empty managed containers only |
| ClaudeSettings.RoundTripIff | crates/munshi/src/claude_settings.rs:83-112 | it gives exactly the settings back if and only if they held no entry of Munshi's and no empty managed container |
| ClaudeSettings.EmptyArrayStaysIff | crates/munshi/src/claude_settings.rs:92-111 | removing leaves an empty managed array behind if and only if there is no entry to take out and the hooks object holds anything else; then it changes nothing |
| ClaudeSettings.ShellQuoteReads | crates/munshi/src/claude_settings.rs:282-291 | a reader that knows the shell's own special characters takes a quoted value back as one word that is the value (section 2.2 of the POSIX Shell Command Language) |
| ClaudeSettings.OwnEntryIsMunshi | crates/munshi/src/claude_settings.rs:170-192 | every installed entry is recognised |
| ClaudeSettings.OursIff | crates/munshi/src/claude_settings.rs:165-192 | an entry is Munshi's exactly when it is one command hook whose command ends in one of the two invocations |
| ClaudeSettings.InstallIff | crates/munshi/src/claude_settings.rs:60-79 | installing is refused exactly for a container that is there and not what it should be |
| ClaudeSettings.InstallKeepsTheirs | crates/munshi/src/claude_settings.rs:60-79 | by what the commands say: every other entry of every event stays in order, and behind them Stop and SessionEnd end in the hook with the executable and its own invocation |
| ClaudeSettings.RemoveKeepsTheirs | crates/munshi/src/claude_settings.rs:83-112 | at both events exactly the other entries are left, in order, and every other event keeps all of its entries |
| ClaudeSettings.StatusIff | crates/munshi/src/claude_settings.rs:115-163 | missing is reported exactly without an entry of Munshi's, and installed with exactly the one of this executable at each event |
| ClaudeSettings.SettingsFile.InstallHooks | crates/munshi/src/claude_settings.rs:60-79 | the merge as it runs, which leaves the settings alone when a container is not what it should be |
| ClaudeSettings.SettingsFile.RemoveHooks | crates/munshi/src/claude_settings.rs:83-112 | the removal as it runs, with what it writes and what it does not |
| ClaudeSettings.SettingsFile.Retain | crates/munshi/src/claude_settings.rs:91-97 | the foreign entries in order |
| Histogram.HistogramConserves | crates/munshi-dashboard/src/db.rs:201-234 | there are exactly 13 contiguous bins over the window, and for each outcome they hold exactly the rows with that outcome that finished inside it |
| Histogram.HistogramSays | crates/munshi-dashboard/src/db.rs:201-234 | in numbers and names: half-hour bins on the half hour from six hours ago to now, and in each the rows that record succeeded, failed, recovered and superseded and finished in it |
| Histogram.OutcomeBins | crates/munshi-dashboard/src/db.rs:201-234 | the two loops compute those bins |
| Histogram.CountGroups | crates/munshi-dashboard/src/db.rs:85-97 | every group that occurs is counted exactly, and no other |
| Histogram.RankGroups | crates/munshi-dashboard/src/db.rs:85-114 | exactly the counted groups, each once with its count, in key order or by descending count with ties by name, and the counts add up to the rows that have a group |
| Histogram.ByStateSource | crates/munshi-dashboard/src/db.rs:85-97 | the counts by state and source, in that order, add up to the rows in some state |
| Histogram.RemainingByProject | crates/munshi-dashboard/src/db.rs:101-114 | queued rows by project, most first, ties by name; the counts add up to the queued rows |
| Histogram.RankingConserves | crates/munshi-dashboard/src/db.rs:85-114 | no row is lost or counted twice in a list that holds each occurring group once with its count |
| Histogram.GroupIff | crates/munshi-dashboard/src/db.rs:85-114 | a row counts under its lifecycle state, or its state where that says nothing, and its source; under its project exactly when it is interrupted or only observed |

## Left out

- WorkerTheorems.OneCommitPerRevision: commits are recognised by identity, so nothing is said about the content they hold.
- ArchiveWorker.Worker.ProcessClaim: the transcript, the policy gates before the plan and the summarizer are one adversarial input; lease times, the concurrency limit and scheduled retries only appear as a refusal to claim.
- MemorySyncConvergence.RunsConverge: other writers may do anything between passes but rewrite the log and the mirror's committed manifest notes.
- The failure streak: whether a failed attempt parks is an adversarial choice.
- Reconciliation commits under the session's own harness; the code takes the harness from the file it found, which is the same unless two files share a hash.
- Requeues by hooks and operators are one event that moves a session that is not being processed to any waiting state.
- A revision number at the top of 64 bits: the code saturates, the model fails the attempt.
- Reading faults of the previous archive before a rollback, which could restore nothing.
- The wording of placeholder summaries; of the manifest note the heading, the explanation, the machine identifier and the line naming the harness.
- Sidecar staging, archive upload, credentials, TLS, sockets and the status reports around delivery and memory sync.
- Token usage of assistant messages and timestamps as text: a record's time is a number that was parsed or not.
- JSON numbers other than integers, and the order of keys in settings objects, which are compared as maps.
- SQLite, schema migration, the command line, the dashboard server and page.
