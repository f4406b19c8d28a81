/** Delivery converges: what any run of failed calls, lost answers and attempts that died leaves of a
    session's delivery, and why one fault-free attempt is then enough. */
module DeliveryConvergence {
  import opened Wrappers
  import opened Text
  import opened Identity
  import opened Vault
  import opened Delivery
  import opened DeliveryRuns

  // ----- whose commit the committed note is

  /** The subject stands at most n entries below the top of the log. */
  predicate HasWithin(log: seq<Commit>, subject: string, n: nat) {
    exists j :: 0 <= j < |log| && j <= n && log[j].subject == subject
  }

  /** Nothing but the session's own note is dirty, and when a note is committed at its route, that note's
      own commit has at most n others above it. */
  predicate Accounted(source: SourceKind, session: string, route: string, v: Vault, n: nat) {
    && Dirty(v) <= {route}
    && (route in v.head ==>
          && v.head[route].Note?
          && HasWithin(v.log, Subject(source, session, v.head[route].identity.revision), n))
  }

  /** How many commits other writers make. */
  function OthersCommits(events: seq<Event>): nat {
    if events == [] then 0
    else (if events[0].Others? then |events[0].commits| else 0) + OthersCommits(events[1..])
  }

  /** Other writers leave the note as it is and everything else clean. */
  predicate LeavesRoute(route: string, v: Vault, e: Event) {
    e.Others? ==>
      && Lookup(e.files, route) == Lookup(v.files, route) && Lookup(e.head, route) == Lookup(v.head, route)
      && Dirty(Vault(e.files, e.head, [])) <= {route}
  }

  predicate PoliteRun(route: string, s: State, events: seq<Event>)
    decreases |events|
  {
    events == [] || (LeavesRoute(route, s.vault, events[0]) && PoliteRun(route, Next(s, events[0]), events[1..]))
  }

  lemma WrittenContent(cfg: Config, rec: Record, row: DeliveryRow, v: Vault, f: Fates)
    requires Deliverable(cfg, rec) && rec.markdown.Some?
    requires row.notePath.Some? ==> row.notePath.value == Route(cfg, rec)
    ensures var w, route := WriteNote(cfg, rec, row, v, f), Route(cfg, rec);
            && (w.vault == v || w.vault == Write(v, route, CreatedContent(rec)) || w.vault == Write(v, route, ReplacedContent(rec)))
            && (w.result.Success? ==>
                  route in w.vault.files && w.vault.files[route] in {CreatedContent(rec), ReplacedContent(rec)})
  {
    hide NotePath, ArchiveBody, TrimEnd;
  }

  lemma WriteDirties(v: Vault, route: string, content: Content)
    requires Dirty(v) <= {route}
    ensures Dirty(Write(v, route, content)) <= {route}
  {
    assert forall p :: p != route && p in Dirty(Write(v, route, content)) ==> p in Dirty(v);
  }

  lemma WritingAccounts(
    cfg: Config, rec: Record, row: DeliveryRow, v: Vault, f: Fates, n: nat)
    requires Deliverable(cfg, rec) && rec.markdown.Some?
    requires row.notePath.Some? ==> row.notePath.value == Route(cfg, rec)
    requires Accounted(rec.source, rec.session, Route(cfg, rec), v, n)
    ensures Accounted(rec.source, rec.session, Route(cfg, rec), WriteNote(cfg, rec, row, v, f).vault, n)
  {
    hide WriteNote, Route, CreatedContent, ReplacedContent, Subject, Dirty, HasWithin;
    WrittenContent(cfg, rec, row, v, f);
    WriteDirties(v, Route(cfg, rec), CreatedContent(rec));
    WriteDirties(v, Route(cfg, rec), ReplacedContent(rec));
  }

  /** A commit of the session's own note under its own revision accounts for it. */
  lemma CommittingAccounts(source: SourceKind, session: string, route: string, v: Vault, f: Fates, n: nat)
    requires Accounted(source, session, route, v, n) && route in v.files && v.files[route].Note?
    ensures var subject := Subject(source, session, v.files[route].identity.revision);
            Accounted(source, session, route, CommitAndCorrelate(v, subject, f).0, n)
  {
    hide Subject, FirstWithSubject;
    var subject := Subject(source, session, v.files[route].identity.revision);
    var committed := CommitTree(v, subject);
    if committed != v {
      assert committed.log[0].subject == subject;
      NothingDirty(committed);
    }
    hide Dirty;
  }

  lemma NothingDirty(v: Vault)
    requires v.head == v.files
    ensures Dirty(v) == {}
  {
  }

  /** One attempt, whatever fails, keeps the committed note accounted for. */
  lemma AttemptAccounts(
    cfg: Config, rec: Record, gate: Gate, row: DeliveryRow, v: Vault, now: int, f: Fates, route: string, n: nat)
    requires IsFixed(cfg, rec, rec.source, rec.session, route) && (row.notePath.Some? ==> row.notePath.value == route)
    requires Accounted(rec.source, rec.session, route, v, n)
    ensures Accounted(rec.source, rec.session, route, DeliverOne(cfg, rec, gate, row, v, now, f).vault, n)
  {
    hide Accounted, WriteNote, CommitAndCorrelate, Unrelated, Subject, Route, IsCurrent, SkipReason, BackoffMs;
    if Deliverable(cfg, rec) && rec.markdown.Some? {
      WritingAccounts(cfg, rec, row, v, f, n);
      WrittenContent(cfg, rec, row, v, f);
      var w := WriteNote(cfg, rec, row, v, f);
      if w.result.Success? {
        WrittenSaysRevision(rec, w.vault.files[route]);
        CommittingAccounts(rec.source, rec.session, route, w.vault, f, n);
      }
    }
  }

  lemma WrittenSaysRevision(rec: Record, content: Content)
    requires rec.project.Some? && rec.markdown.Some? && content in {CreatedContent(rec), ReplacedContent(rec)}
    ensures content.Note? && content.identity.revision == rec.revision
  {
    hide ArchiveBody, TrimEnd;
  }

  lemma OthersAccount(source: SourceKind, session: string, route: string, v: Vault, e: Event, n: nat)
    requires Accounted(source, session, route, v, n) && e.Others? && LeavesRoute(route, v, e)
    ensures Accounted(source, session, route, Vault(e.files, e.head, e.commits + v.log), n + |e.commits|)
  {
    hide Subject;
    var after := Vault(e.files, e.head, e.commits + v.log);
    assert Dirty(after) == Dirty(Vault(e.files, e.head, []));
    if route in after.head {
      assert Lookup(v.head, route) == Some(after.head[route]);
      var subject := Subject(source, session, after.head[route].identity.revision);
      var j :| 0 <= j < |v.log| && j <= n && v.log[j].subject == subject;
      assert after.log[|e.commits| + j] == v.log[j];
    }
    hide Dirty;
  }

  lemma MoreRoom(source: SourceKind, session: string, route: string, v: Vault, m: nat, n: nat)
    requires Accounted(source, session, route, v, m) && m <= n
    ensures Accounted(source, session, route, v, n)
  {
  }

  /** Over any run the committed note stays accounted for, behind no more commits than others made. */
  lemma {:induction false} RunsAccount(
    s: State, events: seq<Event>, source: SourceKind, session: string, route: string, n: nat)
    requires OneRoute(s, source, session, route) && Accounted(source, session, route, s.vault, n)
    requires PoliteRun(route, s, events) && forall e :: e in events ==> Fixed(e, source, session, route)
    ensures Accounted(source, session, route, Run(s, events).vault, n + OthersCommits(events))
    decreases |events|
  {
    hide Accounted, OneRoute, DeliverOne, LeavesRoute;
    if events != [] {
      var e := events[0];
      assert forall e :: e in events[1..] ==> e in events;
      NextKeepsOneRoute(s, e, source, session, route);
      if IsAttempt(e) {
        RouteOfRow(s, source, session, route);
        AttemptAccounts(e.cfg, e.rec, e.gate, s.row, s.vault, e.now, e.fates, route, n);
      } else if e.Others? {
        OthersAccount(source, session, route, s.vault, e, n);
      }
      hide Fixed;
      RunsAccount(Next(s, e), events[1..], source, session, route, n + (if e.Others? then |e.commits| else 0));
    }
  }

  lemma RouteOfRow(s: State, source: SourceKind, session: string, route: string)
    requires OneRoute(s, source, session, route)
    ensures s.row.notePath.Some? ==> s.row.notePath.value == route
  {
  }

  /** An accounted note, with fewer commits above it than a lookup lists, can always be correlated. */
  lemma AccountedCorrelates(cfg: Config, rec: Record, row: DeliveryRow, v: Vault, n: nat)
    requires Deliverable(cfg, rec) && rec.markdown.Some? && n < LOG_LIMIT
    requires Accounted(rec.source, rec.session, Route(cfg, rec), v, n)
    ensures Unrelated(cfg, rec, row, v) == {} && CanCorrelate(cfg, rec, v)
  {
    hide Dirty, NotePath, ArchiveBody, TrimEnd, Subject;
    var route := Route(cfg, rec);
    assert route in Own(cfg, rec, row);
    if Lookup(v.head, route) == Some(DeliveredContent(cfg, rec, v)) {
      var subject := Subject(rec.source, rec.session, rec.revision);
      var j :| 0 <= j < |v.log| && j <= n && v.log[j].subject == subject;
      assert Newest(v.log)[j] == v.log[j] && Newest(v.log)[j] in Newest(v.log);
    }
  }

  // ----- a row that is already current

  /** Two records of one revision carry the same note. */
  predicate SameNote(a: Record, b: Record) {
    a.revision == b.revision && a.project.Some? && a.markdown.Some? ==>
      && b.project.Some? && b.markdown.Some?
      && IdentityOf(a) == IdentityOf(b)
      && TrimEnd(ArchiveBody(a.markdown.value)) == TrimEnd(ArchiveBody(b.markdown.value))
  }

  /** The attempts are made at revisions that never go back and end with `rec`'s, and a revision always
      has the same note. */
  predicate Ascending(events: seq<Event>, from: nat, rec: Record) {
    if events == [] then from <= rec.revision
    else
      var e := events[0];
      if IsAttempt(e)
      then from <= e.rec.revision <= rec.revision && SameNote(e.rec, rec) && Ascending(events[1..], e.rec.revision, rec)
      else Ascending(events[1..], from, rec)
  }

  /** A row that says `rec`'s revision is delivered is right about the note at the route. */
  predicate Delivers(s: State, rec: Record, route: string, from: nat)
    requires rec.project.Some? && rec.markdown.Some?
  {
    && (s.row.revision.Some? ==> s.row.revision.value <= from)
    && (s.row.state == Delivered && s.row.revision == Some(rec.revision) ==>
          route in s.vault.files && HoldsBody(s.vault.files[route], rec))
  }

  lemma WrittenHolds(rec: Record, content: Content)
    requires rec.project.Some? && rec.markdown.Some? && content in {CreatedContent(rec), ReplacedContent(rec)}
    ensures HoldsBody(content, rec)
  {
    hide ArchiveBody;
    var body := ArchiveBody(rec.markdown.value);
    var line := TrimEnd(body) + "\n";
    assert line[..|line| - 1] == TrimEnd(body);
    TrimEndTwice(body);
  }

  /** An attempt leaves the note as it is or makes it the record's own; it is the record's own when the
      attempt succeeds, and a row that says delivered afterwards said so before unless it succeeds. */
  lemma AttemptHolds(
    cfg: Config, rec: Record, gate: Gate, row: DeliveryRow, v: Vault, now: int, f: Fates, route: string)
    requires IsFixed(cfg, rec, rec.source, rec.session, route) && (row.notePath.Some? ==> row.notePath.value == route)
    ensures var a := DeliverOne(cfg, rec, gate, row, v, now, f);
            && (Lookup(a.vault.files, route) == Lookup(v.files, route)
                || (rec.project.Some? && rec.markdown.Some? && route in a.vault.files && HoldsBody(a.vault.files[route], rec)))
            && (Succeeded(a) ==>
                  && a.row.revision == Some(rec.revision) && rec.project.Some? && rec.markdown.Some?
                  && route in a.vault.files && HoldsBody(a.vault.files[route], rec))
            && (!Succeeded(a) ==> a.row.revision == row.revision && (a.row.state == Delivered ==> row.state == Delivered))
  {
    hide WriteNote, CommitAndCorrelate, Unrelated, Subject, Route, HoldsBody, SkipReason, BackoffMs, CreatedContent, ReplacedContent;
    if Deliverable(cfg, rec) && rec.markdown.Some? {
      WrittenContent(cfg, rec, row, v, f);
      WrittenHolds(rec, CreatedContent(rec));
      WrittenHolds(rec, ReplacedContent(rec));
      FilesStay(WriteNote(cfg, rec, row, v, f).vault, Subject(rec.source, rec.session, rec.revision), f);
    }
  }

  lemma FilesStay(v: Vault, subject: string, f: Fates)
    ensures CommitAndCorrelate(v, subject, f).0.files == v.files
  {
    hide Dirty, FirstWithSubject;
  }

  lemma SameNoteHolds(content: Content, a: Record, b: Record)
    requires a.project.Some? && a.markdown.Some? && HoldsBody(content, a)
    requires a.revision == b.revision && SameNote(a, b)
    ensures b.project.Some? && b.markdown.Some? && HoldsBody(content, b)
  {
    hide ArchiveBody, TrimEnd;
  }

  lemma NextDelivers(
    s: State, e: Event, rec: Record, source: SourceKind, session: string, route: string, from: nat)
    requires rec.project.Some? && rec.markdown.Some? && Delivers(s, rec, route, from)
    requires OneRoute(s, source, session, route) && Fixed(e, source, session, route) && LeavesRoute(route, s.vault, e)
    requires IsAttempt(e) ==> from <= e.rec.revision <= rec.revision && SameNote(e.rec, rec)
    ensures Delivers(Next(s, e), rec, route, if IsAttempt(e) then e.rec.revision else from)
  {
    hide DeliverOne, HoldsBody, SameNote, Dirty;
    if IsAttempt(e) {
      RouteOfRow(s, source, session, route);
      AttemptHolds(e.cfg, e.rec, e.gate, s.row, s.vault, e.now, e.fates, route);
      var files := DeliverOne(e.cfg, e.rec, e.gate, s.row, s.vault, e.now, e.fates).vault.files;
      if route in files && e.rec.project.Some? && e.rec.markdown.Some? && e.rec.revision == rec.revision
         && HoldsBody(files[route], e.rec) {
        SameNoteHolds(files[route], e.rec, rec);
      }
    }
    hide OneRoute, Fixed;
  }

  lemma {:induction false} RunsDeliver(
    s: State, events: seq<Event>, rec: Record, source: SourceKind, session: string, route: string, from: nat)
    requires rec.project.Some? && rec.markdown.Some? && Delivers(s, rec, route, from)
    requires OneRoute(s, source, session, route) && PoliteRun(route, s, events) && Ascending(events, from, rec)
    requires forall e :: e in events ==> Fixed(e, source, session, route)
    ensures Delivers(Run(s, events), rec, route, rec.revision)
    decreases |events|
  {
    hide OneRoute, DeliverOne, LeavesRoute, HoldsBody, SameNote, Fixed, Next;
    if events != [] {
      var e := events[0];
      assert forall e :: e in events[1..] ==> e in events;
      NextKeepsOneRoute(s, e, source, session, route);
      NextDelivers(s, e, rec, source, session, route, from);
      hide Delivers;
      RunsDeliver(Next(s, e), events[1..], rec, source, session, route, if IsAttempt(e) then e.rec.revision else from);
    }
  }

  // ----- convergence

  /** The vault before the first attempt: clean, and without a note of the session. */
  predicate Fresh(v: Vault, source: SourceKind, session: string, route: string) {
    && v.head == v.files && route !in v.files
    && forall p :: p in v.files ==> !IsNoteOf(v.files[p], source, session)
  }

  /** The one note of the session is the record's, the row says so, and a further attempt is silent. */
  ghost predicate Settled(a: Attempt, rec: Record, route: string) {
    && rec.project.Some? && rec.markdown.Some?
    && (forall p :: p in a.vault.files && IsNoteOf(a.vault.files[p], rec.source, rec.session) <==> p == route)
    && route in a.vault.files && HoldsBody(a.vault.files[route], rec)
    && a.row.state == Delivered && a.row.revision == Some(rec.revision)
    && forall cfg, gate, v, now, f :: IsSilent(cfg, rec, gate, a.row, v, now, f)
  }

  predicate IsSilent(cfg: Config, rec: Record, gate: Gate, row: DeliveryRow, v: Vault, now: int, f: Fates) {
    Deliverable(cfg, rec) ==> DeliverOne(cfg, rec, gate, row, v, now, f) == Attempt(row, v, AlreadyDelivered, [])
  }

  lemma CurrentIsSilent(rec: Record, row: DeliveryRow)
    requires IsCurrent(row, rec)
    ensures forall cfg, gate, v, now, f :: IsSilent(cfg, rec, gate, row, v, now, f)
  {
    hide WriteAndCorrelate, Unrelated;
  }

  lemma NoteIsTheSessions(content: Content, rec: Record)
    requires rec.project.Some? && rec.markdown.Some? && HoldsBody(content, rec)
    ensures IsNoteOf(content, rec.source, rec.session)
  {
    hide ArchiveBody, TrimEnd;
  }

  /** From a fresh vault, under a fixed configuration: after any run of attempts in which calls fail, lose
      their answers or the attempt dies, of retries, and of other writers who leave the note and the tree
      alone and make fewer than 500 commits, one fault-free attempt short of a dead letter leaves exactly
      one note of the session with the current body and makes every further attempt silent. A row that is
      current before that attempt is right about all this already, as long as the revisions did not go
      back. */
  lemma DeliveryConverges(v: Vault, events: seq<Event>, cfg: Config, rec: Record, gate: Gate, now: int)
    requires Deliverable(cfg, rec) && rec.markdown.Some? && rec.summaryHash.Some? && !gate.Closed?
    requires Fresh(v, rec.source, rec.session, Route(cfg, rec))
    requires forall e :: e in events ==> Fixed(e, rec.source, rec.session, Route(cfg, rec))
    requires PoliteRun(Route(cfg, rec), State(NEW_ROW, v), events) && OthersCommits(events) < LOG_LIMIT
    requires var s := Run(State(NEW_ROW, v), events);
             && s.row.state != DeadLetter
             && (IsCurrent(s.row, rec) ==> Ascending(events, 0, rec))
    ensures var s := Run(State(NEW_ROW, v), events);
            var a := DeliverOne(cfg, rec, gate, s.row, s.vault, now, ALL_WORK);
            && Settled(a, rec, Route(cfg, rec))
            && (IsCurrent(s.row, rec) ==> a == Attempt(s.row, s.vault, AlreadyDelivered, []))
  {
    hide Run, DeliverOne, Route, CanCorrelate, Unrelated, PoliteRun, OthersCommits, HoldsBody, IsCurrent, Ascending, IsSilent;
    hide Accounted, Fixed;
    var start, route := State(NEW_ROW, v), Route(cfg, rec);
    var s := Run(start, events);
    var last := Deliver(cfg, rec, gate, now, ALL_WORK);
    FreshIsAccounted(v, rec.source, rec.session, route);
    RunsKeepOneRoute(start, events, rec.source, rec.session, route);
    RunsAccount(start, events, rec.source, rec.session, route, 0);
    AccountedCorrelates(cfg, rec, s.row, s.vault, OthersCommits(events));
    LastIsFixed(cfg, rec, gate, now);
    NextKeepsOneRoute(s, last, rec.source, rec.session, route);
    RouteOfRow(s, rec.source, rec.session, route);
    var a := DeliverOne(cfg, rec, gate, s.row, s.vault, now, ALL_WORK);
    if IsCurrent(s.row, rec) {
      RunsDeliver(start, events, rec, rec.source, rec.session, route, 0);
      CurrentStays(cfg, rec, gate, s.row, s.vault, now);
      CurrentIsSilent(rec, s.row);
    } else {
      ConvergesIff(cfg, rec, gate, s.row, s.vault, now);
      CurrentIsSilent(rec, a.row);
    }
    NoteIsTheSessions(a.vault.files[route], rec);
    hide IsNoteOf;
  }

  lemma FreshIsAccounted(v: Vault, source: SourceKind, session: string, route: string)
    requires Fresh(v, source, session, route)
    ensures Accounted(source, session, route, v, 0) && OneRoute(State(NEW_ROW, v), source, session, route)
  {
    hide Subject;
  }

  lemma LastIsFixed(cfg: Config, rec: Record, gate: Gate, now: int)
    requires Deliverable(cfg, rec)
    ensures Fixed(Deliver(cfg, rec, gate, now, ALL_WORK), rec.source, rec.session, Route(cfg, rec))
  {
  }

  lemma CurrentStays(cfg: Config, rec: Record, gate: Gate, row: DeliveryRow, v: Vault, now: int)
    requires Deliverable(cfg, rec) && IsCurrent(row, rec)
    ensures DeliverOne(cfg, rec, gate, row, v, now, ALL_WORK) == Attempt(row, v, AlreadyDelivered, [])
    ensures row.state == Delivered && row.revision == Some(rec.revision)
  {
    hide WriteAndCorrelate, Unrelated;
  }

  lemma FailureShows(cfg: Config, rec: Record, gate: Gate, row: DeliveryRow, v: Vault, now: int)
    requires Deliverable(cfg, rec) && rec.markdown.Some? && row.state != DeadLetter && !IsCurrent(row, rec)
    ensures var a := DeliverOne(cfg, rec, gate, row, v, now, ALL_WORK);
            !Succeeded(a) ==> a.row.state != Delivered
  {
    hide WriteNote, CommitAndCorrelate, Unrelated, IsCurrent, BackoffMs;
  }

  /** Whatever other writers do, and however many commits they make: after any run a fault-free attempt at
      a revision that is not delivered yet settles it if and only if the gate lets it and, where history is
      required, no other path is dirty and the revision can be correlated. */
  lemma AnyWritersConvergeIff(v: Vault, events: seq<Event>, cfg: Config, rec: Record, gate: Gate, now: int)
    requires Deliverable(cfg, rec) && rec.markdown.Some? && rec.summaryHash.Some?
    requires forall p :: p in v.files ==> !IsNoteOf(v.files[p], rec.source, rec.session)
    requires forall e :: e in events ==> Fixed(e, rec.source, rec.session, Route(cfg, rec))
    requires var s := Run(State(NEW_ROW, v), events); s.row.state != DeadLetter && !IsCurrent(s.row, rec)
    ensures var s := Run(State(NEW_ROW, v), events);
            Settled(DeliverOne(cfg, rec, gate, s.row, s.vault, now, ALL_WORK), rec, Route(cfg, rec)) <==>
              || gate == NotRequired
              || (gate == Available && Unrelated(cfg, rec, s.row, s.vault) == {} && CanCorrelate(cfg, rec, s.vault))
  {
    hide Run, DeliverOne, Route, CanCorrelate, Unrelated, HoldsBody, IsCurrent, IsSilent, Fixed;
    var start, route := State(NEW_ROW, v), Route(cfg, rec);
    var s := Run(start, events);
    RunsKeepOneRoute(start, events, rec.source, rec.session, route);
    LastIsFixed(cfg, rec, gate, now);
    NextKeepsOneRoute(s, Deliver(cfg, rec, gate, now, ALL_WORK), rec.source, rec.session, route);
    RouteOfRow(s, rec.source, rec.session, route);
    ConvergesIff(cfg, rec, gate, s.row, s.vault, now);
    FailureShows(cfg, rec, gate, s.row, s.vault, now);
    var a := DeliverOne(cfg, rec, gate, s.row, s.vault, now, ALL_WORK);
    if Succeeded(a) {
      CurrentIsSilent(rec, a.row);
      NoteIsTheSessions(a.vault.files[route], rec);
    }
    hide IsNoteOf;
  }
}
