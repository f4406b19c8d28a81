/** What the vault carries of an archive: of the file its body, and nothing of its frontmatter; of its
    history the commit subjects behind their prefix. */
module DeliveredBody {
  import opened Wrappers
  import opened Text
  import opened Identity
  import opened ArchiveRecord
  import opened ArchiveRoundTrip
  import CommitMessage
  import Delivery

  lemma FrontmatterEnds(r: Revision, rest: string)
    ensures var front := Join(FrontmatterLines(r), "\n");
            SplitOnce(front + "\n---\n" + rest, "\n---\n") == Some((front, rest))
  {
    hide FrontmatterLines, SplitOnce;
    var lines := FrontmatterLines(r);
    var front := Join(lines, "\n");
    var rule := "\n---\n";
    FrontmatterLinesShape(r);
    forall k | 0 <= k < |lines|
      ensures lines[k] != "" && lines[k][0] != '-'
    {
      assert FrontmatterLine(lines[k]);
    }
    forall line | line in lines
      ensures '\n' !in line
    {
      assert FrontmatterLine(line) && IsPlainLine(line);
    }
    forall j | 0 <= j < |front|
      ensures !OccursAt(front + rule + rest, j, rule)
    {
      JoinAfterNewline(lines, j, '-');
      var s := front + rule + rest;
      assert s[j] == front[j];
      if front[j] == '\n' {
        assert s[j + 1] == front[j + 1];
        MismatchAt(s, j, rule, 1);
      } else {
        MismatchAt(s, j, rule, 0);
      }
    }
    SplitOnceAt(front, rule, rest);
  }

  lemma BodyStarts(r: Revision)
    ensures DropLast(RenderBody(r.summary)) != "" && DropLast(RenderBody(r.summary))[0] == '#'
  {
    assert RenderBody(r.summary)[0] == '#' && |RenderBody(r.summary)| > 1;
  }

  lemma BehindRule(front: string, body: string)
    requires body != "" && body[0] == '#' && SplitOnce(front + "\n---\n" + ("\n" + body), "\n---\n") == Some((front, "\n" + body))
    ensures Delivery.ArchiveBody("---\n" + (front + "\n---\n" + ("\n" + body))) == body
  {
    hide SplitOnce;
    StripPrefixOfAppend("---\n", front + "\n---\n" + ("\n" + body));
    assert ("\n" + body)[1..] == body;
    assert Delivery.TrimNewlinesStart("\n" + body) == Delivery.TrimNewlinesStart(body) == body;
  }

  /** The delivered body of an archive is exactly what stands behind its frontmatter. */
  lemma ArchiveBodyOfRender(r: Revision)
    ensures Delivery.ArchiveBody(Render(r)) == DropLast(RenderBody(r.summary))
  {
    hide *;
    var front := Join(FrontmatterLines(r), "\n");
    var body := DropLast(RenderBody(r.summary));
    BodyStarts(r);
    RenderIsText(r);
    FrontmatterEnds(r, "\n" + body);
    BehindRule(front, body);
    assert front + "\n---\n\n" + body == front + "\n---\n" + ("\n" + body);
  }

  /** What both histories say of a revision. */
  function Mark(source: SourceKind, session: string, revision: nat): string {
    var harness := match source case Copilot => "copilot:" case ClaudeCode => "claude-code:" case Codex => "codex:";
    harness + session + " revision " + Decimal(revision)
  }

  lemma SubjectsAre(source: SourceKind, session: string, revision: nat)
    ensures Delivery.Subject(source, session, revision) == "munshi: " + Mark(source, session, revision)
    ensures CommitMessage.Subject(CommitMessage.CommitId(source, session, revision)) ==
            "archive: " + Mark(source, session, revision)
  {
    hide Decimal;
    IdIs(source, session);
    var id, number := ArchiveId(source, session), Decimal(revision);
    hide ArchiveId;
    assert Mark(source, session, revision) == id + " revision " + number;
    assert "archive: " + id + " revision " + number == "archive: " + (id + " revision " + number);
  }

  lemma IdIs(source: SourceKind, session: string)
    ensures ArchiveId(source, session) ==
            (match source case Copilot => "copilot:" case ClaudeCode => "claude-code:" case Codex => "codex:") + session
  {
    var harness := match source case Copilot => "copilot:" case ClaudeCode => "claude-code:" case Codex => "codex:";
    assert source.IdPrefix() + ":" == harness;
    hide SourceKind.IdPrefix;
  }

  /** The two histories correlate: behind its prefix the subject of a commit in the vault is that of a
      commit of the archive if and only if both preserve the same revision of the same session. */
  lemma HistoriesCorrelateIff(source: SourceKind, session: string, revision: nat, id: CommitMessage.CommitId)
    requires ValidSessionId(session) && ValidSessionId(id.session)
    ensures var ours, theirs := Delivery.Subject(source, session, revision), CommitMessage.Subject(id);
            && "munshi: " <= ours && "archive: " <= theirs
            && (ours[8..] == theirs[9..] <==> id == CommitMessage.CommitId(source, session, revision))
  {
    SubjectsAre(source, session, revision);
    SubjectsAre(id.source, id.session, id.revision);
    var a, b := Mark(source, session, revision), Mark(id.source, id.session, id.revision);
    hide Mark, Delivery.Subject, CommitMessage.Subject, ValidSessionId;
    assert ("munshi: " + a)[8..] == a && ("archive: " + b)[9..] == b;
    SubjectsAre(id.source, id.session, id.revision);
    if a == b {
      Delivery.SubjectInjective(source, session, revision, id.source, id.session, id.revision);
    }
  }
}
