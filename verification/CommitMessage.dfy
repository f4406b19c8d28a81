/** The commit that preserves one archived revision: the message that is written, and the
    line-exact recogniser that finds it again in `git log` output. */
module CommitMessage {
  import opened Text
  import opened Identity

  /** What a commit preserves: one revision of one session of one harness. */
  datatype CommitId = CommitId(source: SourceKind, session: string, revision: nat)

  predicate ValidCommitId(id: CommitId) {
    ValidSessionId(id.session)
  }

  function Name(id: CommitId): string {
    ArchiveId(id.source, id.session)
  }

  function Subject(id: CommitId): string {
    "archive: " + Name(id) + " revision " + Decimal(id.revision)
  }

  function IdLine(id: CommitId): string {
    "id: " + Name(id)
  }

  function SourceLine(id: CommitId): string {
    "source: " + id.source.Selector()
  }

  function SessionLine(id: CommitId): string {
    "session_id: " + id.session
  }

  function RevisionLine(id: CommitId): string {
    "summary_revision: " + Decimal(id.revision)
  }

  function MessageLines(id: CommitId): seq<string> {
    [Subject(id), "", IdLine(id), SourceLine(id), SessionLine(id), RevisionLine(id)]
  }

  /** Subject, blank line and body, as `git commit -m -m` stores them. */
  function Message(id: CommitId): string {
    Terminated(MessageLines(id))
  }

  // ----- recognising

  const RECORD_SEPARATOR: char := 0x1E as char

  /** `line.trim_end_matches('\r')`. */
  function TrimCr(line: string): string {
    if line != [] && line[|line| - 1] == '\r' then TrimCr(line[..|line| - 1]) else line
  }

  function TrimCrs(lines: seq<string>): (r: seq<string>)
    ensures |r| == |lines| && forall i :: 0 <= i < |lines| ==> r[i] == TrimCr(lines[i])
  {
    if lines == [] then [] else [TrimCr(lines[0])] + TrimCrs(lines[1..])
  }

  function LinesOf(message: string): seq<string> {
    TrimCrs(Lines(message))
  }

  /** A message preserves `id` when its revision line is exactly that revision's and its identity
      line, or for records that predate identity lines its session line, is exactly the session's. */
  predicate Recognises(message: string, id: CommitId) {
    LinesPreserve(LinesOf(message), id)
  }

  predicate HasIdLine(lines: seq<string>) {
    exists l :: l in lines && "id: " <= l
  }

  predicate LinesPreserve(lines: seq<string>, id: CommitId) {
    && RevisionLine(id) in lines
    && (IdLine(id) in lines || (SessionLine(id) in lines && !HasIdLine(lines)))
  }

  method RecogniseMessage(message: string, id: CommitId) returns (found: bool)
    ensures found == Recognises(message, id)
  {
    hide LinesOf, IdLine, SessionLine, RevisionLine;
    var lines := LinesOf(message);
    var idMatch, sessionMatch, revisionMatch, hasIdLine := false, false, false, false;
    ExpectedLinesDiffer(id);
    for i := 0 to |lines|
      invariant idMatch <==> IdLine(id) in lines[..i]
      invariant sessionMatch <==> SessionLine(id) in lines[..i]
      invariant revisionMatch <==> RevisionLine(id) in lines[..i]
      invariant hasIdLine <==> HasIdLine(lines[..i])
    {
      var line := lines[i];
      assert lines[..i + 1] == lines[..i] + [line];
      assert forall l :: l in lines[..i + 1] <==> l in lines[..i] || l == line;
      assert line in lines[..i + 1];
      if "id: " <= line {
        hasIdLine := true;
      }
      if line == IdLine(id) {
        idMatch := true;
      } else if line == SessionLine(id) {
        sessionMatch := true;
      } else if line == RevisionLine(id) {
        revisionMatch := true;
      }
    }
    assert lines[..|lines|] == lines;
    found := revisionMatch && (idMatch || (sessionMatch && !hasIdLine));
  }

  /** Some record of the log output preserves `id`. */
  predicate LogHolds(output: string, id: CommitId) {
    exists piece :: piece in SplitOn(output, RECORD_SEPARATOR) && Recognises(piece, id)
  }

  method ArchiveCommitExists(output: string, id: CommitId) returns (found: bool)
    ensures found == LogHolds(output, id)
  {
    hide Recognises, SplitOn;
    var pieces := SplitOn(output, RECORD_SEPARATOR);
    for i := 0 to |pieces|
      invariant forall piece :: piece in pieces[..i] ==> !Recognises(piece, id)
    {
      var match_ := RecogniseMessage(pieces[i], id);
      if match_ {
        return true;
      }
      assert pieces[..i + 1] == pieces[..i] + [pieces[i]];
    }
    assert pieces[..|pieces|] == pieces;
    found := false;
  }

  lemma ExpectedLinesDiffer(id: CommitId)
    ensures IdLine(id) != SessionLine(id) && IdLine(id) != RevisionLine(id)
    ensures SessionLine(id) != RevisionLine(id)
    ensures !("id: " <= SessionLine(id)) && !("id: " <= RevisionLine(id))
  {
    assert IdLine(id)[0] == 'i' && SessionLine(id)[0] == 's' && RevisionLine(id)[0] == 's';
    assert SessionLine(id)[1] == 'e' && RevisionLine(id)[1] == 'u';
    assert "id: "[0] == 'i';
  }

  // ----- the log

  /** `git log --format=%B%x1e`: every message, newest first, behind it a separator and a newline. */
  function LogOutput(messages: seq<string>): string {
    if messages == [] then "" else messages[0] + [RECORD_SEPARATOR] + ("\n" + LogOutput(messages[1..]))
  }

  lemma BlankFirstLine(message: string)
    ensures LinesOf("\n" + message) == [""] + LinesOf(message)
  {
    LinesAfterBlank(message);
    hide Lines;
    var lines := Lines(message);
    assert ([""] + lines)[1..] == lines;
    assert TrimCr("") == "";
  }

  lemma BlankRecordRecognisesTheSame(message: string, id: CommitId)
    ensures Recognises("\n" + message, id) == Recognises(message, id)
  {
    BlankFirstLine(message);
    BlankLinePreservesNothing(LinesOf(message), id);
  }

  lemma BlankLinePreservesNothing(lines: seq<string>, id: CommitId)
    ensures LinesPreserve([""] + lines, id) == LinesPreserve(lines, id)
  {
    FirstCharacters(id);
    assert !("id: " <= "");
    var more := [""] + lines;
    hide IdLine, SessionLine, RevisionLine;
    assert forall l :: l in more <==> l == "" || l in lines;
    assert HasIdLine(more) == HasIdLine(lines);
  }

  lemma EmptyRecognisesNothing(id: CommitId)
    ensures !Recognises("", id) && !Recognises("\n", id)
  {
    BlankRecordRecognisesTheSame("", id);
    assert "\n" + "" == "\n";
    assert LinesOf("") == [];
  }

  /** Reading the log output finds `id` exactly when some message in the log preserves it. */
  lemma LogHoldsIff(messages: seq<string>, id: CommitId)
    requires forall m :: m in messages ==> RECORD_SEPARATOR !in m
    ensures LogHolds(LogOutput(messages), id) <==> exists m :: m in messages && Recognises(m, id)
  {
    EmptyRecognisesNothing(id);
    LogHoldsFrom(messages, "", id);
    assert "" + LogOutput(messages) == LogOutput(messages);
  }

  lemma {:induction false} LogHoldsFrom(messages: seq<string>, before: string, id: CommitId)
    requires forall m :: m in messages ==> RECORD_SEPARATOR !in m
    requires before == "" || before == "\n"
    ensures LogHolds(before + LogOutput(messages), id)
            <==> exists m :: m in messages && Recognises(m, id)
  {
    hide Recognises, SplitOn;
    var output := before + LogOutput(messages);
    if messages == [] {
      assert output == before;
      SplitOnFresh(before, RECORD_SEPARATOR);
      EmptyRecognisesNothing(id);
    } else {
      var head, tail := before + messages[0], messages[1..];
      var rest := "\n" + LogOutput(tail);
      assert output == head + [RECORD_SEPARATOR] + rest;
      assert RECORD_SEPARATOR !in messages[0];
      SplitOnSeparator(head, RECORD_SEPARATOR, rest);
      LogHoldsFrom(tail, "\n", id);
      BlankRecordRecognisesTheSame(messages[0], id);
      assert "" + messages[0] == messages[0];
      var pieces := SplitOn(rest, RECORD_SEPARATOR);
      assert forall p :: p in [head] + pieces <==> p == head || p in pieces;
      assert forall m :: m in messages <==> m == messages[0] || m in tail;
    }
  }

  // ----- the writer and the recogniser agree

  predicate NoControls(s: string) {
    forall c :: c in s ==> c as int >= 0x20
  }

  lemma IdTextHasNoControls(id: CommitId)
    requires ValidCommitId(id)
    ensures NoControls(Name(id)) && NoControls(id.session) && NoControls(Decimal(id.revision))
  {
    hide Decimal;
    assert forall c :: c in id.session ==> IsIdCharacter(c);
    assert forall c :: c in Decimal(id.revision) ==> IsDigit(c);
    SelectorHasNoControls(id.source);
    assert NoControls(":");
    hide SourceKind.IdPrefix;
  }

  lemma NoControlsConcat(a: string, b: string)
    requires NoControls(a) && NoControls(b)
    ensures NoControls(a + b)
  {
  }

  lemma SubjectHasNoControls(id: CommitId)
    requires ValidCommitId(id)
    ensures NoControls(Subject(id))
  {
    IdTextHasNoControls(id);
    hide Name, Decimal;
    assert NoControls("archive: ") && NoControls(" revision ");
    NoControlsConcat("archive: ", Name(id));
    NoControlsConcat("archive: " + Name(id), " revision ");
    NoControlsConcat("archive: " + Name(id) + " revision ", Decimal(id.revision));
  }

  lemma BodyHasNoControls(id: CommitId)
    requires ValidCommitId(id)
    ensures NoControls(IdLine(id)) && NoControls(SourceLine(id))
    ensures NoControls(SessionLine(id)) && NoControls(RevisionLine(id))
  {
    IdTextHasNoControls(id);
    LabelsHaveNoControls(id);
    hide Name, Decimal, NoControls;
    NoControlsConcat("id: ", Name(id));
    NoControlsConcat("source: ", id.source.Selector());
    NoControlsConcat("session_id: ", id.session);
    NoControlsConcat("summary_revision: ", Decimal(id.revision));
  }

  lemma LabelsHaveNoControls(id: CommitId)
    ensures NoControls("id: ") && NoControls("source: ") && NoControls("session_id: ")
    ensures NoControls("summary_revision: ") && NoControls(id.source.Selector())
  {
    LongLabelHasNoControls();
    SelectorHasNoControls(id.source);
  }

  lemma LongLabelHasNoControls()
    ensures NoControls("summary_revision: ")
  {
  }

  lemma SelectorHasNoControls(source: SourceKind)
    ensures NoControls(source.Selector())
  {
  }

  lemma LinesHaveNoControls(id: CommitId)
    requires ValidCommitId(id)
    ensures forall l :: l in MessageLines(id) ==> '\n' !in l && '\r' !in l && RECORD_SEPARATOR !in l
  {
    SubjectHasNoControls(id);
    BodyHasNoControls(id);
    hide Subject, IdLine, SourceLine, SessionLine, RevisionLine;
    forall l | l in MessageLines(id)
      ensures NoControls(l)
    {
    }
    assert forall l :: l in MessageLines(id) ==> NoControls(l);
  }

  lemma MessageLinesArePlain(id: CommitId)
    requires ValidCommitId(id)
    ensures LinesOf(Message(id)) == MessageLines(id)
    ensures RECORD_SEPARATOR !in Message(id)
  {
    var lines := MessageLines(id);
    LinesHaveNoControls(id);
    hide MessageLines, TrimCrs, Lines, Terminated;
    LinesOfTerminated(lines);
    TrimCrsFixed(lines);
    TerminatedHasNo(lines, RECORD_SEPARATOR);
  }

  lemma {:induction false} TrimCrsFixed(lines: seq<string>)
    requires forall l :: l in lines ==> '\r' !in l
    ensures TrimCrs(lines) == lines
  {
    if lines != [] {
      assert '\r' !in lines[0];
      TrimCrsFixed(lines[1..]);
    }
  }

  lemma {:induction false} TerminatedHasNo(lines: seq<string>, c: char)
    requires c != '\n' && forall l :: l in lines ==> c !in l
    ensures c !in Terminated(lines)
  {
    if lines != [] {
      assert c !in lines[0];
      TerminatedHasNo(lines[1..], c);
    }
  }

  lemma LineBodiesAgree(prefix: string, a: string, b: string)
    requires prefix + a == prefix + b
    ensures a == b
  {
    assert a == (prefix + a)[|prefix|..] && b == (prefix + b)[|prefix|..];
  }

  /** A written message is recognised for its own triple and for no other, so revision 1 is never
      taken for revision 11 and one session's identifier never for a longer one. */
  lemma RecognisesExactly(written: CommitId, wanted: CommitId)
    requires ValidCommitId(written) && ValidCommitId(wanted)
    ensures Recognises(Message(written), wanted) <==> written == wanted
  {
    MessageLinesArePlain(written);
    var lines := MessageLines(written);
    assert lines[2] == IdLine(written) && lines[5] == RevisionLine(written);
    assert "id: " <= lines[2] && lines[2] in lines && lines[5] in lines;
    if Recognises(Message(written), wanted) {
      assert IdLine(wanted) in lines && RevisionLine(wanted) in lines;
      OnlyRevisionLine(written, wanted);
      LineBodiesAgree("summary_revision: ", Decimal(wanted.revision), Decimal(written.revision));
      DecimalInjective(wanted.revision, written.revision);
      OnlyIdLine(written, wanted);
      LineBodiesAgree("id: ", Name(wanted), Name(written));
      ArchiveIdInjective(wanted.source, wanted.session, written.source, written.session);
    }
  }

  lemma FirstCharacters(id: CommitId)
    ensures Subject(id)[0] == 'a' && IdLine(id)[0] == 'i' && SessionLine(id)[0] == 's'
    ensures |RevisionLine(id)| >= 2 && |IdLine(id)| >= 2 && |SessionLine(id)| >= 2
    ensures RevisionLine(id)[0] == 's' && RevisionLine(id)[1] == 'u' && SessionLine(id)[1] == 'e'
  {
  }

  lemma SourceLineStarts(id: CommitId)
    ensures |SourceLine(id)| >= 2 && SourceLine(id)[0] == 's' && SourceLine(id)[1] == 'o'
  {
    assert SourceLine(id) == "source: " + id.source.Selector();
  }

  lemma OnlyRevisionLine(written: CommitId, wanted: CommitId)
    requires RevisionLine(wanted) in MessageLines(written)
    ensures RevisionLine(wanted) == RevisionLine(written)
  {
    var i :| 0 <= i < 6 && MessageLines(written)[i] == RevisionLine(wanted);
    FirstCharacters(written);
    FirstCharacters(wanted);
    SourceLineStarts(written);
    var lines := MessageLines(written);
    hide Subject, IdLine, SessionLine, RevisionLine, SourceLine;
    assert lines[2] == IdLine(written) && lines[5] == RevisionLine(written);
  }

  lemma OnlyIdLine(written: CommitId, wanted: CommitId)
    requires IdLine(wanted) in MessageLines(written)
    ensures IdLine(wanted) == IdLine(written)
  {
    var i :| 0 <= i < 6 && MessageLines(written)[i] == IdLine(wanted);
    FirstCharacters(written);
    FirstCharacters(wanted);
    SourceLineStarts(written);
    var lines := MessageLines(written);
    hide Subject, IdLine, SessionLine, RevisionLine, SourceLine;
    assert lines[2] == IdLine(written) && lines[5] == RevisionLine(written);
  }

  function Messages(ids: seq<CommitId>): (r: seq<string>)
    ensures |r| == |ids| && forall i :: 0 <= i < |ids| ==> r[i] == Message(ids[i])
  {
    if ids == [] then [] else [Message(ids[0])] + Messages(ids[1..])
  }

  /** In a repository of archive commits the existence check answers membership exactly. */
  lemma ExistenceIsMembership(ids: seq<CommitId>, wanted: CommitId)
    requires ValidCommitId(wanted) && forall id :: id in ids ==> ValidCommitId(id)
    ensures LogHolds(LogOutput(Messages(ids)), wanted) <==> wanted in ids
  {
    var messages := Messages(ids);
    forall m | m in messages
      ensures RECORD_SEPARATOR !in m
    {
      var i :| 0 <= i < |messages| && messages[i] == m;
      assert ids[i] in ids;
      MessageLinesArePlain(ids[i]);
    }
    LogHoldsIff(messages, wanted);
    forall i | 0 <= i < |ids|
      ensures Recognises(messages[i], wanted) <==> ids[i] == wanted
    {
      assert ids[i] in ids;
      RecognisesExactly(ids[i], wanted);
    }
    if wanted in ids {
      var i :| 0 <= i < |ids| && ids[i] == wanted;
      assert messages[i] in messages;
    }
  }

  // ----- the bounded reader of the log

  /** Output of one `git` call is bounded; more output is an error, not a truncation. */
  const GIT_STDOUT_LIMIT: nat := 16 * 1024

  /** Whether the existence check answers at all. */
  predicate LogReadable(ids: seq<CommitId>) {
    |LogOutput(Messages(ids))| <= GIT_STDOUT_LIMIT
  }

  /** The log of a session whose revisions 1 to n were committed one after the other. */
  function History(source: SourceKind, session: string, n: nat): (ids: seq<CommitId>)
    ensures |ids| == n && forall i :: 0 <= i < n ==> ids[i] == CommitId(source, session, n - i)
  {
    if n == 0 then [] else [CommitId(source, session, n)] + History(source, session, n - 1)
  }

  lemma TerminatedLength(lines: seq<string>)
    requires |lines| == 6
    ensures |Terminated(lines)|
            == |lines[0]| + |lines[1]| + |lines[2]| + |lines[3]| + |lines[4]| + |lines[5]| + 6
  {
    assert lines[1..][1..] == lines[2..] && lines[2..][1..] == lines[3..];
    assert lines[3..][1..] == lines[4..] && lines[4..][1..] == lines[5..] && lines[5..][1..] == [];
    assert |Terminated(lines[5..])| == |lines[5]| + 1;
    assert |Terminated(lines[4..])| == |lines[4]| + 1 + |Terminated(lines[5..])|;
    assert |Terminated(lines[3..])| == |lines[3]| + 1 + |Terminated(lines[4..])|;
    assert |Terminated(lines[2..])| == |lines[2]| + 1 + |Terminated(lines[3..])|;
    assert |Terminated(lines[1..])| == |lines[1]| + 1 + |Terminated(lines[2..])|;
  }

  lemma MessageLength(id: CommitId)
    ensures |Message(id)| == 69 + 3 * (|id.source.IdPrefix()| + |id.session|) + 2 * |Decimal(id.revision)|
  {
    hide Decimal, SourceKind.IdPrefix;
    var lines := MessageLines(id);
    TerminatedLength(lines);
    assert |lines[0]| == 20 + |id.source.IdPrefix()| + |id.session| + |Decimal(id.revision)|;
    assert |lines[2]| == 5 + |id.source.IdPrefix()| + |id.session|;
    assert |lines[5]| == 18 + |Decimal(id.revision)|;
  }

  /** How many digits the numbers from 1 to n take. */
  function Digits(n: nat): nat {
    if n == 0 then 0 else Digits(n - 1) + |Decimal(n)|
  }

  function HistorySize(source: SourceKind, session: string, n: nat): nat {
    n * (71 + 3 * (|source.IdPrefix()| + |session|)) + 2 * Digits(n)
  }

  /** The output for a history is as long as its names and numbers make it. */
  lemma {:induction false} HistoryLength(source: SourceKind, session: string, n: nat)
    ensures |LogOutput(Messages(History(source, session, n)))| == HistorySize(source, session, n)
  {
    hide Message, Decimal, SourceKind.IdPrefix, HistorySize;
    if n == 0 {
      HistorySizeStep(source, session, 0);
    } else {
      var ids := History(source, session, n);
      assert ids[0] == CommitId(source, session, n) && ids[1..] == History(source, session, n - 1);
      hide History;
      MessagesCons(ids);
      MessageLength(ids[0]);
      HistoryLength(source, session, n - 1);
      HistorySizeStep(source, session, n);
      hide LogOutput, Messages;
    }
  }

  lemma MessagesCons(ids: seq<CommitId>)
    requires ids != []
    ensures |LogOutput(Messages(ids))| == |Message(ids[0])| + 2 + |LogOutput(Messages(ids[1..]))|
  {
    hide Message;
    assert Messages(ids)[1..] == Messages(ids[1..]);
  }

  lemma HistorySizeStep(source: SourceKind, session: string, n: nat)
    ensures n == 0 ==> HistorySize(source, session, n) == 0
    ensures n > 0 ==>
              HistorySize(source, session, n) ==
              HistorySize(source, session, n - 1)
              + 71 + 3 * (|source.IdPrefix()| + |session|) + 2 * |Decimal(n)|
  {
    hide Decimal, SourceKind.IdPrefix;
    var entry := 71 + 3 * (|source.IdPrefix()| + |session|);
    if n > 0 {
      assert n * entry == (n - 1) * entry + entry;
    }
  }

  lemma DecimalLength(n: nat)
    ensures |Decimal(n)| >= 1 && (n < 10 ==> |Decimal(n)| == 1)
    ensures 10 <= n ==> |Decimal(n)| >= 2 && (n < 100 ==> |Decimal(n)| == 2)
    ensures 100 <= n ==> |Decimal(n)| >= 3 && (n < 1000 ==> |Decimal(n)| == 3)
  {
    if n >= 10 {
      assert n >= 100 ==> n / 10 >= 10;
      if n >= 100 {
        assert n < 1000 ==> n / 10 / 10 < 10;
      }
    }
  }

  lemma {:induction false} DigitsUpTo(n: nat)
    ensures n <= 9 ==> Digits(n) == n
    ensures 9 <= n <= 99 ==> Digits(n) == 2 * n - 9
    ensures 99 <= n <= 999 ==> Digits(n) == 3 * n - 108
  {
    hide Decimal;
    if n > 0 {
      DecimalLength(n);
      DigitsUpTo(n - 1);
    }
  }

  lemma {:induction false} HistoryGrows(source: SourceKind, session: string, m: nat, n: nat)
    requires m <= n
    ensures HistorySize(source, session, m) <= HistorySize(source, session, n)
    decreases n - m
  {
    if m < n {
      HistoryGrows(source, session, m, n - 1);
      HistorySizeStep(source, session, n);
      hide HistorySize;
    }
  }

  /** A session's own commits stay readable up to a point that its name alone decides, and not beyond:
      n revisions can be read if and only if their names and numbers fit the limit. */
  lemma HistoryReadableIff(source: SourceKind, session: string, n: nat)
    ensures LogReadable(History(source, session, n)) <==> HistorySize(source, session, n) <= GIT_STDOUT_LIMIT
    ensures LogReadable(History(source, session, n)) ==>
              forall m :: 0 <= m <= n ==> LogReadable(History(source, session, m))
  {
    HistoryLength(source, session, n);
    forall m | 0 <= m <= n && HistorySize(source, session, n) <= GIT_STDOUT_LIMIT
      ensures LogReadable(History(source, session, m))
    {
      HistoryLength(source, session, m);
      HistoryGrows(source, session, m, n);
    }
    hide LogOutput, Messages, HistorySize;
  }

  lemma HistorySizeAt(source: SourceKind, session: string, n: nat)
    requires 99 <= n <= 999
    ensures HistorySize(source, session, n) == n * (71 + 3 * (|source.IdPrefix()| + |session|)) + 6 * n - 216
  {
    DigitsUpTo(n);
  }

  /** Every session's history stops being readable by its 175th commit. */
  lemma EveryHistoryFills(source: SourceKind, session: string)
    requires session != ""
    ensures !LogReadable(History(source, session, 175))
  {
    IdPrefixHasNoColon(source);
    HistoryReadableIff(source, session, 175);
    HistorySizeAt(source, session, 175);
    assert 175 * (71 + 3 * (|source.IdPrefix()| + |session|)) >= 175 * 89;
    hide LogReadable, SourceKind.IdPrefix;
  }

  /** The first history that cannot be read, and the readable one it grew out of. */
  lemma {:induction false} FirstUnreadable(source: SourceKind, session: string, from: nat) returns (n: nat)
    requires LogReadable(History(source, session, from)) && session != ""
    ensures from <= n < 175
    ensures LogReadable(History(source, session, n)) && !LogReadable(History(source, session, n + 1))
    decreases 175 - from
  {
    EveryHistoryFills(source, session);
    hide LogReadable;
    if from >= 175 {
      HistoryReadableIff(source, session, from);
    }
    if LogReadable(History(source, session, from + 1)) {
      n := FirstUnreadable(source, session, from + 1);
    } else {
      n := from;
    }
  }

  /** Where that is for the shortest names and for sessions named by a UUID. */
  lemma HistoryThresholds(session: string, n: nat)
    ensures |session| == 1 ==> (LogReadable(History(Codex, session, n)) <==> n <= 174)
    ensures |session| == 36 ==> (LogReadable(History(Codex, session, n)) <==> n <= 82)
    ensures |session| == 36 ==> (LogReadable(History(Copilot, session, n)) <==> n <= 80)
    ensures |session| == 36 ==> (LogReadable(History(ClaudeCode, session, n)) <==> n <= 75)
  {
    hide LogReadable;
    if |session| == 1 {
      ThresholdIs(Codex, session, 174, n);
    } else if |session| == 36 {
      ThresholdIs(Codex, session, 82, n);
      ThresholdIs(Copilot, session, 80, n);
      ThresholdIs(ClaudeCode, session, 75, n);
    }
  }

  lemma ThresholdIs(source: SourceKind, session: string, last: nat, n: nat)
    requires 9 <= last < 999
    requires var entry := 71 + 3 * (|source.IdPrefix()| + |session|);
             var digits := (k: nat) => if k <= 99 then 2 * k - 9 else 3 * k - 108;
             last * entry + 2 * digits(last) <= GIT_STDOUT_LIMIT < (last + 1) * entry + 2 * digits(last + 1)
    ensures LogReadable(History(source, session, n)) <==> n <= last
  {
    HistoryReadableIff(source, session, last);
    HistoryReadableIff(source, session, last + 1);
    HistoryReadableIff(source, session, n);
    DigitsUpTo(last);
    DigitsUpTo(last + 1);
    hide LogReadable;
  }
}
