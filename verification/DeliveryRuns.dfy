/** What delivery guarantees: attempts that stay within the session's own note, deliveries that
    always have their history, convergence, and dead letters. */
module DeliveryRuns {
  import opened Wrappers
  import opened Text
  import opened Identity
  import opened Vault
  import opened Delivery

  predicate Succeeded(a: Attempt) {
    a.outcome.Created? || a.outcome.Replaced?
  }

  predicate Writes(call: Call) {
    call.CreateCall? || call.ReplaceCall? || call.CommitCall?
  }

  // ----- isolation

  ghost predicate SameOutside(before: map<string, Content>, after: map<string, Content>, own: set<string>) {
    forall p :: p !in own ==> Lookup(after, p) == Lookup(before, p)
  }

  lemma NoteIsOwn(cfg: Config, rec: Record, row: DeliveryRow, v: Vault, f: Fates)
    requires Deliverable(cfg, rec) && rec.markdown.Some?
    ensures var w := WriteNote(cfg, rec, row, v, f);
            && SameOutside(v.files, w.vault.files, Own(cfg, rec, row))
            && w.vault.head == v.head && w.vault.log == v.log
  {
    hide NotePath, ArchiveBody, TrimEnd;
  }

  /** A path is the session's own up to leading slashes. */
  predicate IsOwnPath(cfg: Config, rec: Record, row: DeliveryRow, p: string)
    requires Deliverable(cfg, rec)
  {
    exists o :: o in Own(cfg, rec, row) && NormalizeNotePath(o) == NormalizeNotePath(p)
  }

  lemma DirtyStaysOwn(cfg: Config, rec: Record, row: DeliveryRow, v: Vault, f: Fates)
    requires Deliverable(cfg, rec) && rec.markdown.Some? && Unrelated(cfg, rec, row, v) == {}
    ensures forall p :: p in Dirty(WriteNote(cfg, rec, row, v, f).vault) ==> IsOwnPath(cfg, rec, row, p)
  {
    NoteIsOwn(cfg, rec, row, v, f);
    var after := WriteNote(cfg, rec, row, v, f).vault;
    hide WriteNote, Route, NormalizeNotePath;
    forall p | p in Dirty(after)
      ensures IsOwnPath(cfg, rec, row, p)
    {
      if p !in Own(cfg, rec, row) {
        assert p in Dirty(v);
        assert p !in Unrelated(cfg, rec, row, v);
      }
    }
  }

  /** At most one commit, under the session's own subject and of the session's own paths. */
  predicate CommitsOnly(cfg: Config, rec: Record, row: DeliveryRow, before: seq<Commit>, after: seq<Commit>)
    requires Deliverable(cfg, rec)
  {
    || after == before
    || (&& |after| == |before| + 1 && after[1..] == before
        && after[0].subject == Subject(rec.source, rec.session, rec.revision)
        && forall p :: p in after[0].paths ==> IsOwnPath(cfg, rec, row, p))
  }

  lemma CommitIsOwn(cfg: Config, rec: Record, row: DeliveryRow, v: Vault, f: Fates)
    requires Deliverable(cfg, rec)
    requires forall p :: p in Dirty(v) ==> IsOwnPath(cfg, rec, row, p)
    ensures var after := CommitAndCorrelate(v, Subject(rec.source, rec.session, rec.revision), f).0;
            && CommitsOnly(cfg, rec, row, v.log, after.log)
            && after.files == v.files
  {
    hide IsOwnPath, Subject, Dirty, FirstWithSubject;
  }

  /** Clean-tree isolation: an attempt changes no file but the session's own note and commits no other
      path; a closed gate or any unrelated dirty path leaves the vault as it is, without a create,
      replace or commit. */
  lemma AttemptIsIsolated(
    cfg: Config, rec: Record, gate: Gate, row: DeliveryRow, v: Vault, now: int, f: Fates)
    requires Deliverable(cfg, rec)
    ensures var a := DeliverOne(cfg, rec, gate, row, v, now, f);
            && SameOutside(v.files, a.vault.files, Own(cfg, rec, row))
            && CommitsOnly(cfg, rec, row, v.log, a.vault.log)
            && (gate != Available ==> a.vault.log == v.log && a.vault.head == v.head)
            && (gate.Closed? || (gate == Available && Unrelated(cfg, rec, row, v) != {}) ==>
                  a.vault == v && forall c :: c in a.calls ==> !Writes(c))
  {
    hide Own, Unrelated, CommitsOnly, Dirty, WriteNote, CommitAndCorrelate, Subject, IsCurrent, RecordFailure, RecordSuccess;
    SelfCommits(cfg, rec, row, v.log);
    if rec.markdown.Some? {
      NoteIsOwn(cfg, rec, row, v, f);
      if gate == Available && Unrelated(cfg, rec, row, v) == {} {
        DirtyStaysOwn(cfg, rec, row, v, f);
        CommitIsOwn(cfg, rec, row, WriteNote(cfg, rec, row, v, f).vault, f);
      }
    }
  }

  lemma SelfCommits(cfg: Config, rec: Record, row: DeliveryRow, log: seq<Commit>)
    requires Deliverable(cfg, rec)
    ensures CommitsOnly(cfg, rec, row, log, log)
  {
  }

  // ----- history

  predicate HasCommit(log: seq<Commit>, subject: string, sha: nat) {
    exists c :: c in log && c.subject == subject && c.sha == sha
  }

  /** A row that records a history commit is right about it. */
  predicate Correlated(source: SourceKind, session: string, row: DeliveryRow, log: seq<Commit>) {
    row.historyCommit.Some? ==>
      && row.revision.Some?
      && HasCommit(log, Subject(source, session, row.revision.value), row.historyCommit.value)
  }

  lemma CorrelationIsTrue(v: Vault, subject: string, f: Fates)
    ensures var (after, commit) := CommitAndCorrelate(v, subject, f);
            && (commit.Success? ==> HasCommit(after.log, subject, commit.value))
            && (forall c :: c in v.log ==> c in after.log)
  {
    hide Dirty, FirstWithSubject;
    var (v1, committed) := CommitRevision(v, subject, f.commit);
    var found := FindCommit(v1, subject, f.find);
    if found.Success? && found.value.Some? {
      assert found.value.value in Newest(v1.log);
      assert found.value.value in v1.log;
    } else if committed.Success? && committed.value.Some? {
      assert v1.log[0] in v1.log;
    }
  }

  /** Delivery never succeeds without history: under an available gate a success records a commit that
      the log holds under exactly this source, session and revision. */
  lemma DeliveredHasHistory(
    cfg: Config, rec: Record, gate: Gate, row: DeliveryRow, v: Vault, now: int, f: Fates)
    requires Correlated(rec.source, rec.session, row, v.log)
    ensures var a := DeliverOne(cfg, rec, gate, row, v, now, f);
            && Correlated(rec.source, rec.session, a.row, a.vault.log)
            && (Succeeded(a) ==>
                  && a.row.state == Delivered && a.row.revision == Some(rec.revision)
                  && (a.row.historyCommit.Some? <==> gate == Available))
  {
    hide DeliverOne, WriteNote, CommitAndCorrelate, HasCommit, Subject;
    AttemptRow(cfg, rec, gate, row, v, now, f);
    var a := DeliverOne(cfg, rec, gate, row, v, now, f);
    if Succeeded(a) && gate == Available {
      CorrelationIsTrue(WriteNote(cfg, rec, row, v, f).vault, Subject(rec.source, rec.session, rec.revision), f);
    } else if row.historyCommit.Some? && row.revision.Some? {
      LogsGrow(cfg, rec, gate, row, v, now, f);
      HistoryLasts(v.log, a.vault.log, Subject(rec.source, rec.session, row.revision.value), row.historyCommit.value);
    }
  }

  /** An attempt that does not succeed leaves what the row says was delivered. */
  lemma AttemptRow(cfg: Config, rec: Record, gate: Gate, row: DeliveryRow, v: Vault, now: int, f: Fates)
    ensures var a := DeliverOne(cfg, rec, gate, row, v, now, f);
            if !Succeeded(a) then a.row.historyCommit == row.historyCommit && a.row.revision == row.revision
            else
              && Deliverable(cfg, rec) && rec.markdown.Some?
              && a.row.state == Delivered && a.row.revision == Some(rec.revision)
              && (gate != Available ==> a.row.historyCommit == None)
              && (gate == Available ==>
                    var (after, commit) := CommitAndCorrelate(
                                             WriteNote(cfg, rec, row, v, f).vault,
                                             Subject(rec.source, rec.session, rec.revision), f);
                    commit.Success? && a.row.historyCommit == Some(commit.value) && a.vault == after)
  {
    hide WriteNote, CommitAndCorrelate, Subject, Unrelated, SkipReason, BackoffMs;
  }

  lemma LogsGrow(cfg: Config, rec: Record, gate: Gate, row: DeliveryRow, v: Vault, now: int, f: Fates)
    ensures forall c :: c in v.log ==> c in DeliverOne(cfg, rec, gate, row, v, now, f).vault.log
  {
    hide Dirty, FirstWithSubject, Subject, WriteNote, CommitAndCorrelate, IsCurrent, Unrelated, SkipReason;
    if Deliverable(cfg, rec) && rec.markdown.Some? {
      NoteIsOwn(cfg, rec, row, v, f);
      CorrelationIsTrue(WriteNote(cfg, rec, row, v, f).vault, Subject(rec.source, rec.session, rec.revision), f);
    }
  }

  lemma HistoryLasts(before: seq<Commit>, after: seq<Commit>, subject: string, sha: nat)
    requires HasCommit(before, subject, sha) && forall c :: c in before ==> c in after
    ensures HasCommit(after, subject, sha)
  {
    var c :| c in before && c.subject == subject && c.sha == sha;
    assert c in after;
  }

  // ----- runs

  /** What happens to one session's delivery: attempts under any configuration and gate, attempts that
      die before their row is written, operator retries, and anything other writers do to the vault
      short of rewriting its log. An attempt that dies between two calls is one whose later calls are
      refused. */
  datatype Event =
    | Deliver(cfg: Config, rec: Record, gate: Gate, now: int, fates: Fates)
    | Died(cfg: Config, rec: Record, gate: Gate, now: int, fates: Fates)
    | Retry(force: bool)
    | Others(files: map<string, Content>, head: map<string, Content>, commits: seq<Commit>)

  datatype State = State(row: DeliveryRow, vault: Vault)

  function Next(s: State, e: Event): State {
    match e
    case Deliver(cfg, rec, gate, now, fates) =>
      var a := DeliverOne(cfg, rec, gate, s.row, s.vault, now, fates);
      State(a.row, a.vault)
    case Died(cfg, rec, gate, now, fates) =>
      s.(vault := DeliverOne(cfg, rec, gate, s.row, s.vault, now, fates).vault)
    case Retry(force) => s.(row := ResetForRetry(s.row, force))
    case Others(files, head, commits) => s.(vault := Vault(files, head, commits + s.vault.log))
  }

  function Run(s: State, events: seq<Event>): State
    decreases |events|
  {
    if events == [] then s else Run(Next(s, events[0]), events[1..])
  }

  predicate IsAttempt(e: Event) {
    e.Deliver? || e.Died?
  }

  predicate OfSession(events: seq<Event>, source: SourceKind, session: string) {
    forall e :: e in events && IsAttempt(e) ==> e.rec.source == source && e.rec.session == session
  }

  /** Whatever calls fail or lose their answer, over any run the commit a row records is in the log
      under exactly the recorded revision's message. */
  lemma {:induction false} RunsKeepHistory(source: SourceKind, session: string, s: State, events: seq<Event>)
    requires OfSession(events, source, session) && Correlated(source, session, s.row, s.vault.log)
    ensures Correlated(source, session, Run(s, events).row, Run(s, events).vault.log)
    decreases |events|
  {
    hide DeliverOne, HasCommit;
    if events != [] {
      var e := events[0];
      match e {
        case Deliver(cfg, rec, gate, now, fates) =>
          DeliveredHasHistory(cfg, rec, gate, s.row, s.vault, now, fates);
        case Died(cfg, rec, gate, now, fates) =>
          if s.row.historyCommit.Some? {
            LogsGrow(cfg, rec, gate, s.row, s.vault, now, fates);
            HistoryLasts(s.vault.log, Next(s, e).vault.log,
                         Subject(source, session, s.row.revision.value), s.row.historyCommit.value);
          }
        case Retry(_) =>
        case Others(_, _, commits) =>
          if s.row.historyCommit.Some? {
            HistoryLasts(s.vault.log, commits + s.vault.log,
                         Subject(source, session, s.row.revision.value), s.row.historyCommit.value);
          }
      }
      assert forall e :: e in events[1..] ==> e in events;
      RunsKeepHistory(source, session, Next(s, e), events[1..]);
    }
  }

  /** A delivery made while no history was required is not made again when it is: the session then
      counts as delivered without a commit. */
  lemma LatestOnlyStaysLatestOnly(
    cfg: Config, rec: Record, row: DeliveryRow, v: Vault, now: int, f: Fates, v': Vault, now': int, f': Fates)
    requires Succeeded(DeliverOne(cfg, rec, NotRequired, row, v, now, f)) && rec.summaryHash.Some?
    ensures var first := DeliverOne(cfg, rec, NotRequired, row, v, now, f);
            && first.row.historyCommit == None
            && DeliverOne(cfg, rec, Available, first.row, v', now', f') == Attempt(first.row, v', AlreadyDelivered, [])
  {
    hide WriteNote, CommitAndCorrelate, Unrelated;
  }

  // ----- convergence

  /** The next attempt at a delivered revision makes no call, under any gate. */
  lemma NextIsSilent(
    cfg: Config, rec: Record, gate: Gate, row: DeliveryRow, v: Vault, now: int, f: Fates,
    gate': Gate, v': Vault, now': int, f': Fates)
    requires Succeeded(DeliverOne(cfg, rec, gate, row, v, now, f)) && rec.summaryHash.Some?
    ensures var delivered := DeliverOne(cfg, rec, gate, row, v, now, f).row;
            DeliverOne(cfg, rec, gate', delivered, v', now', f') == Attempt(delivered, v', AlreadyDelivered, [])
  {
    hide WriteNote, CommitAndCorrelate, Unrelated;
  }

  predicate HoldsBody(content: Content, rec: Record)
    requires rec.project.Some? && rec.markdown.Some?
  {
    content.Note? && content.identity == IdentityOf(rec) && TrimEnd(content.body) == TrimEnd(ArchiveBody(rec.markdown.value))
  }

  function DeliveredContent(cfg: Config, rec: Record, v: Vault): Content
    requires Deliverable(cfg, rec) && rec.markdown.Some?
  {
    if Route(cfg, rec) in v.files then ReplacedContent(rec) else CreatedContent(rec)
  }

  lemma ContentHoldsBody(cfg: Config, rec: Record, v: Vault)
    requires Deliverable(cfg, rec) && rec.markdown.Some?
    ensures HoldsBody(DeliveredContent(cfg, rec, v), rec)
  {
    var body := ArchiveBody(rec.markdown.value);
    hide ArchiveBody, NotePath;
    var line := TrimEnd(body) + "\n";
    assert line[..|line| - 1] == TrimEnd(body);
    TrimEndTrims(body);
    TrimEndTwice(body);
  }

  lemma {:induction false} TrimEndTwice(s: string)
    ensures TrimEnd(TrimEnd(s)) == TrimEnd(s)
  {
    if s != [] && IsWhitespace(s[|s| - 1]) {
      TrimEndTwice(s[..|s| - 1]);
    }
  }

  lemma FaultFreeWrite(cfg: Config, rec: Record, row: DeliveryRow, v: Vault)
    requires Deliverable(cfg, rec) && rec.markdown.Some?
    requires row.notePath.Some? ==> row.notePath.value == Route(cfg, rec)
    ensures var w := WriteNote(cfg, rec, row, v, ALL_WORK);
            && w.vault == Write(v, Route(cfg, rec), DeliveredContent(cfg, rec, v))
            && w.result == Success((Route(cfg, rec), Route(cfg, rec) !in v.files))
  {
    hide NotePath, CreatedContent, ReplacedContent;
  }

  /** The subject is among the log entries a lookup sees. */
  predicate Listed(log: seq<Commit>, subject: string) {
    exists c :: c in Newest(log) && c.subject == subject
  }

  lemma FaultFreeCorrelation(v: Vault, subject: string)
    ensures var (after, commit) := CommitAndCorrelate(v, subject, ALL_WORK);
            && (commit.Success? <==> Dirty(v) != {} || Listed(v.log, subject))
            && (commit.Failure? ==> commit.error == "remote-history-missing" && after == v)
            && after.files == v.files
  {
    var after := CommitTree(v, subject);
    if Dirty(v) != {} {
      assert Newest(after.log)[0] == after.log[0];
      assert after.log[0] in Newest(after.log);
    }
    hide Dirty;
  }

  /** Whether a fault-free attempt can correlate what it wrote: the write or something of the
      session's own is uncommitted, or the lookup still lists the revision's commit. */
  predicate CanCorrelate(cfg: Config, rec: Record, v: Vault)
    requires Deliverable(cfg, rec) && rec.markdown.Some?
  {
    || Lookup(v.head, Route(cfg, rec)) != Some(DeliveredContent(cfg, rec, v))
    || !(Dirty(v) <= {Route(cfg, rec)})
    || Listed(v.log, Subject(rec.source, rec.session, rec.revision))
  }

  /** Delivery converges: with nothing in the way, one fault-free attempt leaves the current body at
      the session's route and records it, if and only if the gate lets it and, where history is
      required, the tree is clean of other changes and the revision can be correlated. */
  lemma ConvergesIff(cfg: Config, rec: Record, gate: Gate, row: DeliveryRow, v: Vault, now: int)
    requires Deliverable(cfg, rec) && rec.markdown.Some?
    requires row.state != DeadLetter && !IsCurrent(row, rec)
    requires row.notePath.Some? ==> row.notePath.value == Route(cfg, rec)
    ensures var a := DeliverOne(cfg, rec, gate, row, v, now, ALL_WORK);
            && (Succeeded(a) <==>
                  || gate == NotRequired
                  || (gate == Available && Unrelated(cfg, rec, row, v) == {} && CanCorrelate(cfg, rec, v)))
            && (Succeeded(a) ==>
                  && a.row.state == Delivered && a.row.revision == Some(rec.revision)
                  && a.row.notePath == Some(Route(cfg, rec))
                  && Route(cfg, rec) in a.vault.files && HoldsBody(a.vault.files[Route(cfg, rec)], rec)
                  && (rec.summaryHash.Some? ==> IsCurrent(a.row, rec)))
            && (gate == Available && Unrelated(cfg, rec, row, v) == {} && !CanCorrelate(cfg, rec, v) ==>
                  && a.outcome == Failed("remote-history-missing")
                  && a.vault == Write(v, Route(cfg, rec), DeliveredContent(cfg, rec, v)))
  {
    hide WriteNote, CommitAndCorrelate, Route, Unrelated, HoldsBody, DeliveredContent, Dirty, Listed, Subject;
    FaultFreeWrite(cfg, rec, row, v);
    ContentHoldsBody(cfg, rec, v);
    var content := DeliveredContent(cfg, rec, v);
    CleanAfterWrite(v, Route(cfg, rec), content);
    assert Write(v, Route(cfg, rec), content).files[Route(cfg, rec)] == content;
    var written := Write(v, Route(cfg, rec), content);
    FaultFreeCorrelation(written, Subject(rec.source, rec.session, rec.revision));
    if gate == Available && Unrelated(cfg, rec, row, v) == {} && !CanCorrelate(cfg, rec, v) {
      assert Dirty(written) == {} && !Listed(written.log, Subject(rec.source, rec.session, rec.revision));
      var (after, commit) := CommitAndCorrelate(written, Subject(rec.source, rec.session, rec.revision), ALL_WORK);
      assert WriteAndCorrelate(cfg, rec, gate, row, v, now, ALL_WORK).outcome == Failed(commit.error);
    }
  }

  // ----- one note

  predicate IsNoteOf(content: Content, source: SourceKind, session: string) {
    content.Note? && content.identity.source == source.Selector() && content.identity.session == session
  }

  /** Every note of the session lies at `route`, which is also where the row looks for it. */
  predicate OneRoute(s: State, source: SourceKind, session: string, route: string) {
    && (s.row.notePath.Some? ==> s.row.notePath.value == route)
    && forall p :: p in s.vault.files && IsNoteOf(s.vault.files[p], source, session) ==> p == route
  }

  predicate IsFixed(cfg: Config, rec: Record, source: SourceKind, session: string, route: string) {
    rec.source == source && rec.session == session && (Deliverable(cfg, rec) ==> Route(cfg, rec) == route)
  }

  /** A fixed configuration and identity, and other writers who make no notes of this session. */
  predicate Fixed(e: Event, source: SourceKind, session: string, route: string) {
    match e
    case Deliver(cfg, rec, _, _, _) => IsFixed(cfg, rec, source, session, route)
    case Died(cfg, rec, _, _, _) => IsFixed(cfg, rec, source, session, route)
    case Retry(_) => true
    case Others(files, _, _) => forall p :: p in files && IsNoteOf(files[p], source, session) ==> p == route
  }

  lemma RowKeepsRoute(cfg: Config, rec: Record, gate: Gate, row: DeliveryRow, v: Vault, now: int, f: Fates)
    requires Deliverable(cfg, rec) && (row.notePath.Some? ==> row.notePath.value == Route(cfg, rec))
    ensures var a := DeliverOne(cfg, rec, gate, row, v, now, f);
            a.row.notePath.Some? ==> a.row.notePath.value == Route(cfg, rec)
  {
    hide NotePath, CommitAndCorrelate, Unrelated, IsCurrent, ArchiveBody, BackoffMs;
  }

  lemma DeliverKeepsRoute(s: State, e: Event, source: SourceKind, session: string, route: string)
    requires IsAttempt(e) && OneRoute(s, source, session, route) && Fixed(e, source, session, route)
    ensures OneRoute(Next(s, e), source, session, route)
  {
    var cfg, rec := e.cfg, e.rec;
    if Deliverable(cfg, rec) {
      RowKeepsRoute(cfg, rec, e.gate, s.row, s.vault, e.now, e.fates);
      AttemptIsIsolated(cfg, rec, e.gate, s.row, s.vault, e.now, e.fates);
      var after := Next(s, e).vault.files;
      hide DeliverOne, Route, CommitsOnly;
      assert SameOutside(s.vault.files, after, {route});
      forall p | p in after && IsNoteOf(after[p], source, session)
        ensures p == route
      {
        assert p != route ==> Lookup(after, p) == Lookup(s.vault.files, p);
      }
    }
  }

  lemma {:induction false} RunsKeepOneRoute(
    s: State, events: seq<Event>, source: SourceKind, session: string, route: string)
    requires OneRoute(s, source, session, route)
    requires forall e :: e in events ==> Fixed(e, source, session, route)
    ensures OneRoute(Run(s, events), source, session, route)
    decreases |events|
  {
    hide OneRoute, Fixed, Next;
    if events != [] {
      NextKeepsOneRoute(s, events[0], source, session, route);
      RunsKeepOneRoute(Next(s, events[0]), events[1..], source, session, route);
    }
  }

  lemma NextKeepsOneRoute(s: State, e: Event, source: SourceKind, session: string, route: string)
    requires OneRoute(s, source, session, route) && Fixed(e, source, session, route)
    ensures OneRoute(Next(s, e), source, session, route)
  {
    if IsAttempt(e) {
      DeliverKeepsRoute(s, e, source, session, route);
    }
    hide DeliverOne;
  }

  // ----- history that can no longer be found

  /** A delivered and committed note whose commit lies below the entries a lookup lists. */
  function BuriedVault(cfg: Config, rec: Record): Vault
    requires Deliverable(cfg, rec) && rec.markdown.Some?
  {
    var files := map[Route(cfg, rec) := ReplacedContent(rec)];
    var buried := Commit(Subject(rec.source, rec.session, rec.revision), 0, {Route(cfg, rec)});
    Vault(files, files, seq(LOG_LIMIT, _ => Commit("", 1, {})) + [buried])
  }

  /** An attempt that lost both its commit's answer and the lookup, followed by enough commits of
      others, is not delivered by the next one, although the log holds its commit. */
  lemma BuriedHistoryIsMissed(cfg: Config, rec: Record, row: DeliveryRow, now: int)
    requires Deliverable(cfg, rec) && rec.markdown.Some?
    requires row.state != DeadLetter && !IsCurrent(row, rec) && row.notePath == Some(Route(cfg, rec))
    ensures var v := BuriedVault(cfg, rec);
            var a := DeliverOne(cfg, rec, Available, row, v, now, ALL_WORK);
            && HasCommit(v.log, Subject(rec.source, rec.session, rec.revision), 0)
            && a.outcome == Failed("remote-history-missing")
            && a.vault == v
            && Missed(cfg, rec, State(row, v))
  {
    var v := BuriedVault(cfg, rec);
    var subject := Subject(rec.source, rec.session, rec.revision);
    assert v.log[LOG_LIMIT].subject == subject && v.log[LOG_LIMIT] in v.log;
    assert Dirty(v) == {};
    assert subject != "";
    hide Route, ReplacedContent, Subject, DeliverOne;
    ConvergesIff(cfg, rec, Available, row, v, now);
    assert Write(v, Route(cfg, rec), ReplacedContent(rec)) == v;
  }

  /** A committed note that restates the record, in a clean tree, whose commit is not listed. */
  predicate Missed(cfg: Config, rec: Record, s: State)
    requires Deliverable(cfg, rec) && rec.markdown.Some?
  {
    && !IsCurrent(s.row, rec)
    && (s.row.notePath.Some? ==> s.row.notePath.value == Route(cfg, rec))
    && s.vault.head == s.vault.files
    && Lookup(s.vault.files, Route(cfg, rec)) == Some(ReplacedContent(rec))
    && !Listed(s.vault.log, Subject(rec.source, rec.session, rec.revision))
  }

  /** Attempts that require history, with any fates; retries; other writers who leave the note as it is,
      the tree clean and the message to Munshi. */
  predicate LeavesMissed(cfg: Config, rec: Record, e: Event)
    requires Deliverable(cfg, rec) && rec.markdown.Some?
  {
    match e
    case Deliver(cfg', rec', gate, _, _) => cfg' == cfg && rec' == rec && gate != NotRequired
    case Died(cfg', rec', gate, _, _) => cfg' == cfg && rec' == rec && gate != NotRequired
    case Retry(_) => true
    case Others(files, head, commits) =>
      && files == head && Lookup(files, Route(cfg, rec)) == Some(ReplacedContent(rec))
      && forall c :: c in commits ==> c.subject != Subject(rec.source, rec.session, rec.revision)
  }

  lemma RestatingWrites(cfg: Config, rec: Record, row: DeliveryRow, v: Vault, f: Fates)
    requires Deliverable(cfg, rec) && rec.markdown.Some?
    requires row.notePath.Some? ==> row.notePath.value == Route(cfg, rec)
    requires Lookup(v.files, Route(cfg, rec)) == Some(ReplacedContent(rec))
    ensures WriteNote(cfg, rec, row, v, f).vault == v
    ensures var result := WriteNote(cfg, rec, row, v, f).result; result.Success? ==> result.value.0 == Route(cfg, rec)
  {
    hide NotePath, CreatedContent, ReplacedContent;
    assert v.files[Route(cfg, rec) := ReplacedContent(rec)] == v.files;
  }

  lemma UnlistedIsMissing(v: Vault, subject: string, f: Fates)
    requires v.head == v.files && !Listed(v.log, subject)
    ensures CommitAndCorrelate(v, subject, f).0 == v && CommitAndCorrelate(v, subject, f).1.Failure?
  {
    assert Dirty(v) == {};
    hide Dirty;
  }

  lemma MissedAgain(cfg: Config, rec: Record, gate: Gate, s: State, now: int, f: Fates)
    requires Deliverable(cfg, rec) && rec.markdown.Some? && gate != NotRequired && Missed(cfg, rec, s)
    ensures var a := DeliverOne(cfg, rec, gate, s.row, s.vault, now, f);
            && !Succeeded(a) && a.vault == s.vault && Missed(cfg, rec, State(a.row, a.vault))
            && a.row.revision == s.row.revision && a.row.historyCommit == s.row.historyCommit
  {
    hide Route, ReplacedContent, Subject, WriteNote, CommitAndCorrelate, Listed, Unrelated, BackoffMs, SkipReason;
    RestatingWrites(cfg, rec, s.row, s.vault, f);
    UnlistedIsMissing(s.vault, Subject(rec.source, rec.session, rec.revision), f);
  }

  lemma StaysUnlisted(before: seq<Commit>, commits: seq<Commit>, subject: string)
    requires !Listed(before, subject) && forall c :: c in commits ==> c.subject != subject
    ensures !Listed(commits + before, subject)
  {
    forall c | c in Newest(commits + before)
      ensures c.subject != subject
    {
      var i :| 0 <= i < |Newest(commits + before)| && Newest(commits + before)[i] == c;
      if i >= |commits| {
        assert c == before[i - |commits|] == Newest(before)[i - |commits|];
      } else {
        assert c == commits[i];
      }
    }
  }

  /** For ever: over any run of attempts with any fates, retries and other writers, such a revision is
      never delivered. */
  lemma {:induction false} MissedForever(cfg: Config, rec: Record, s: State, events: seq<Event>)
    requires Deliverable(cfg, rec) && rec.markdown.Some? && Missed(cfg, rec, s)
    requires forall e :: e in events ==> LeavesMissed(cfg, rec, e)
    ensures var after := Run(s, events);
            && Missed(cfg, rec, after) && !IsCurrent(after.row, rec)
            && after.row.revision == s.row.revision && after.row.historyCommit == s.row.historyCommit
    decreases |events|
  {
    hide DeliverOne, Route, ReplacedContent, Subject, Listed;
    if events != [] {
      var e := events[0];
      assert LeavesMissed(cfg, rec, e) && forall e :: e in events[1..] ==> e in events;
      match e {
        case Deliver(_, _, gate, now, fates) => MissedAgain(cfg, rec, gate, s, now, fates);
        case Died(_, _, gate, now, fates) => MissedAgain(cfg, rec, gate, s, now, fates);
        case Retry(_) =>
        case Others(_, _, commits) =>
          StaysUnlisted(s.vault.log, commits, Subject(rec.source, rec.session, rec.revision));
      }
      hide LeavesMissed;
      MissedForever(cfg, rec, Next(s, e), events[1..]);
    }
  }

  // ----- dead letters

  /** A dead letter is never written to, and stays one without a forced retry. */
  lemma {:induction false} DeadLetterNeedsForce(s: State, events: seq<Event>)
    requires s.row.state == DeadLetter && forall e :: e in events ==> e != Retry(true)
    ensures Run(s, events).row == s.row
    decreases |events|
  {
    if events != [] {
      assert events[0] in events && forall e :: e in events[1..] ==> e in events;
      if events[0].Deliver? {
        var e := events[0];
        DeadLetterIsLeftAlone(e.cfg, e.rec, e.gate, s.row, s.vault, e.now, e.fates);
      }
      DeadLetterNeedsForce(Next(s, events[0]), events[1..]);
      hide DeliverOne;
    }
  }

  lemma DeadLetterIsLeftAlone(
    cfg: Config, rec: Record, gate: Gate, row: DeliveryRow, v: Vault, now: int, f: Fates)
    requires row.state == DeadLetter
    ensures var a := DeliverOne(cfg, rec, gate, row, v, now, f);
            a.vault == v && a.row == row && a.calls == []
  {
  }

  /** The n-th attempt in a row to fail is the first dead letter exactly when n reaches the limit. */
  lemma {:induction false} DeadLetterAfterLimit(s: State, failures: seq<Event>, maxAttempts: u32)
    requires s.row.state != DeadLetter && s.row.attempts + |failures| < U32_BOUND
    requires maxAttempts > s.row.attempts
    requires forall i :: 0 <= i < |failures| ==>
               && failures[i].Deliver? && failures[i].cfg.maxAttempts == maxAttempts
               && var t := Run(s, failures[..i]);
                  DeliverOne(failures[i].cfg, failures[i].rec, failures[i].gate, t.row, t.vault,
                             failures[i].now, failures[i].fates).outcome.Failed?
    ensures var after := Run(s, failures);
            && after.row.attempts == s.row.attempts + |failures|
            && (after.row.state == DeadLetter <==> after.row.attempts == maxAttempts)
            && s.row.attempts + |failures| <= maxAttempts
    decreases |failures|
  {
    hide DeliverOne;
    if failures != [] {
      hide Run;
      var n := |failures| - 1;
      var e := failures[n];
      forall i | 0 <= i < n
        ensures failures[..n][..i] == failures[..i]
      {
      }
      DeadLetterAfterLimit(s, failures[..n], maxAttempts);
      var t := Run(s, failures[..n]);
      assert failures == failures[..n] + [e];
      RunSnoc(s, failures[..n], e);
      FailureCounts(e.cfg, e.rec, e.gate, t.row, t.vault, e.now, e.fates);
    }
  }

  lemma {:induction false} RunSnoc(s: State, events: seq<Event>, e: Event)
    ensures Run(s, events + [e]) == Next(Run(s, events), e)
    decreases |events|
  {
    hide Next;
    if events == [] {
      assert [e][1..] == [];
      assert Run(s, [e]) == Run(Next(s, e), []);
    } else {
      RunSnoc(Next(s, events[0]), events[1..], e);
      assert (events + [e])[1..] == events[1..] + [e];
    }
  }

  lemma FailureCounts(cfg: Config, rec: Record, gate: Gate, row: DeliveryRow, v: Vault, now: int, f: Fates)
    requires DeliverOne(cfg, rec, gate, row, v, now, f).outcome.Failed?
    ensures var after := DeliverOne(cfg, rec, gate, row, v, now, f).row;
            && row.state != DeadLetter
            && after.attempts == Increment(row.attempts)
            && (after.state == DeadLetter <==> after.attempts >= cfg.maxAttempts)
  {
    hide WriteNote, CommitAndCorrelate, Unrelated, IsCurrent, BackoffMs, SkipReason;
  }

  /** Being withheld costs nothing: the count stays, and only a real failure can end in a dead letter. */
  lemma WithheldIsFree(cfg: Config, rec: Record, gate: Gate, row: DeliveryRow, v: Vault, now: int, f: Fates)
    ensures var a := DeliverOne(cfg, rec, gate, row, v, now, f);
            && (a.row.attempts > row.attempts ==> a.outcome.Failed?)
            && (a.row.state == DeadLetter && row.state != DeadLetter ==> a.outcome.Failed?)
            && (a.outcome.Withheld? ==> a.row.attempts == row.attempts && a.vault == v)
  {
    hide WriteNote, CommitAndCorrelate, Unrelated, IsCurrent, BackoffMs, SkipReason;
  }
}
