/** The reader inverts the writer, with one exception: a list whose only item is `None.` is read
    as the empty list. Recovery rests on this, because it re-parses the file it finds. */
module ArchiveRoundTrip {
  import opened Wrappers
  import opened Text
  import opened JsonText
  import opened Identity
  import opened Summary
  import opened ArchiveRecord
  import opened ArchiveReader

  predicate WellFormedEntry(entry: ArtifactIndexEntry) {
    |entry.sha256| == 64 && IsLowerHex(entry.sha256) && entry.eventKind != "" && ' ' !in entry.eventKind
  }

  /** What the capture side guarantees about a revision before it is rendered. */
  predicate WellFormed(r: Revision) {
    && ValidProject(r.project)
    && ValidHash(r.session.sourceHash)
    && r.session.sourcePrefixHash == r.session.sourceHash
    && r.session.sourceByteCursor == r.session.sourceBytes
    && r.number > 0
    && ValidCompletion(r.completionReason)
    && ValidFallback(r.fallbackReason)
    && (forall e :: e in r.session.extractedOutputs ==> WellFormedEntry(e))
  }

  /** The record a reader should get back from the file of a revision. */
  function Recorded(r: Revision): ArchivedMarkdown {
    var s := r.session;
    ArchivedMarkdown(
      2, s.source, s.sessionId, r.project, r.number, r.completionReason, r.fallbackReason,
      Some(ArchivedCursor(
        NORMALIZER_VERSION, s.sourceCursor, s.sourceByteCursor, s.sourcePrefixHash, s.sourceHash,
        s.sourceBytes)),
      s.sourceCursor, s.sourceHash, s.startedAt, s.updatedAt, r.summary.IsPlaceholder(),
      Some(CURRENT_ARTIFACT_SET_VERSION), Some(s.sourceHash), s.extractedOutputs, r.summary)
  }

  // ----- artifact index entries

  lemma DecimalHasNo(n: nat, c: char)
    requires !IsDigit(c)
    ensures c !in Decimal(n)
  {
  }

  lemma EntryRoundTrip(entry: ArtifactIndexEntry)
    requires WellFormedEntry(entry)
    ensures ParseEntry(Quote(EntryText(entry))) == Success(entry)
  {
    UnquoteOfQuote(EntryText(entry));
    var hash := "sha256:" + entry.sha256;
    var size := "bytes:" + Decimal(entry.bytes);
    var kind := "label:" + entry.eventKind;
    var tokens := [hash, size, kind];
    DecimalHasNo(entry.bytes, ' ');
    assert ' ' !in hash && ' ' !in size && ' ' !in kind;
    SplitOnJoin(tokens, ' ');
    StripPrefixOfAppend("sha256:", entry.sha256);
    StripPrefixOfAppend("bytes:", Decimal(entry.bytes));
    StripPrefixOfAppend("label:", entry.eventKind);
    ParseDecimal(entry.bytes, U64_BOUND);
    NoPrefix(size, "sha256:");
    NoPrefix(kind, "sha256:");
    NoPrefix(kind, "bytes:");
    var start := EntryTokens(None, None, None);
    var one := start.(sha256 := Some(entry.sha256));
    var two := one.(bytes := Some(entry.bytes));
    var three := two.(eventKind := Some(entry.eventKind));
    assert ReadToken(start, tokens[0]) == Success(one);
    assert ReadToken(one, tokens[1]) == Success(two);
    assert ReadToken(two, tokens[2]) == Success(three);
    assert ReadTokens(two, [kind]) == ReadTokens(three, [kind][1..]) == Success(three);
    assert [size, kind][1..] == [kind] && tokens[1..] == [size, kind];
    assert ReadTokens(one, [size, kind]) == ReadTokens(two, [kind]);
    assert ReadTokens(start, tokens) == ReadTokens(one, [size, kind]);
  }

  // ----- frontmatter lines

  lemma {:induction false} ReadLinesAppend(state: ReadState, a: seq<string>, b: seq<string>)
    ensures ReadLines(state, a + b) ==
            match ReadLines(state, a)
            case Failure(e) => Failure(e)
            case Success(next) => ReadLines(next, b)
    decreases |a|
  {
    if a == [] {
      assert a + b == b;
    } else {
      assert (a + b)[0] == a[0] && (a + b)[1..] == a[1..] + b;
      match ReadLine(state, a[0]) {
        case Failure(_) =>
        case Success(next) => ReadLinesAppend(next, a[1..], b);
      }
    }
  }

  lemma OpensNoItem(line: string)
    requires line != "" && line[0] != ' '
    ensures StripPrefix(line, "  - ") == None
  {
    NoPrefix(line, "  - ");
  }

  lemma ReadScalarLine(state: ReadState, k: Key, value: string)
    ensures ReadLine(state, Name(k) + ": " + value)
            == Success(ReadState(
                 state.parsed.(fields := state.parsed.fields[Name(k) := value]), None))
  {
    hide Name;
    var name := Name(k);
    var line := name + ": " + value;
    NameIsKeyName(k);
    OpensNoItem(line);
    assert line[|name| + 1] == ' ' && line[|name| + 1] in line;
    assert ' ' !in "tags:" && ' ' !in "extracted_outputs:";
    SplitOnceAtFresh(name, ": ", value);
  }

  /** The fields after the scalars of `keys` have been read. */
  function AddScalars(fields: map<string, string>, r: Revision, keys: seq<Key>): map<string, string>
    decreases |keys|
  {
    if keys == [] then fields
    else match ScalarValue(r, keys[0])
      case None => AddScalars(fields, r, keys[1..])
      case Some(value) => AddScalars(fields[Name(keys[0]) := value], r, keys[1..])
  }

  lemma {:induction false} ReadScalarLines(state: ReadState, r: Revision, keys: seq<Key>)
    ensures ReadLines(state, ScalarLines(r, keys)).Success?
    ensures var next := ReadLines(state, ScalarLines(r, keys)).value;
            next.parsed == state.parsed.(fields := AddScalars(state.parsed.fields, r, keys))
    decreases |keys|
  {
    if keys != [] {
      match ScalarValue(r, keys[0]) {
        case None => ReadScalarLines(state, r, keys[1..]);
        case Some(value) =>
          ReadScalarLine(state, keys[0], value);
          var next := ReadLine(state, Name(keys[0]) + ": " + value).value;
          ReadScalarLines(next, r, keys[1..]);
          var lines := ScalarLines(r, keys);
          assert lines[0] == Name(keys[0]) + ": " + value && lines[1..] == ScalarLines(r, keys[1..]);
      }
    }
  }

  lemma {:induction false} AddScalarsLookup(fields: map<string, string>, r: Revision, keys: seq<Key>, k: Key)
    ensures Lookup(AddScalars(fields, r, keys), k)
            == if k in keys && ScalarValue(r, k).Some? then ScalarValue(r, k) else Lookup(fields, k)
    decreases |keys|
  {
    hide ScalarValue, Name;
    if keys != [] {
      var tail := keys[1..];
      assert k in keys <==> k == keys[0] || k in tail;
      if ScalarValue(r, keys[0]).None? {
        AddScalarsLookup(fields, r, tail, k);
      } else {
        AddScalarsLookup(fields[Name(keys[0]) := ScalarValue(r, keys[0]).value], r, tail, k);
        if k != keys[0] && Name(k) == Name(keys[0]) {
          NameInjective(k, keys[0]);
        }
      }
    }
  }

  lemma ReadTagLine(state: ReadState, tag: string)
    requires state.list == Some(Tags)
    ensures ReadLine(state, "  - " + Quote(tag))
            == Success(state.(parsed := state.parsed.(tags := state.parsed.tags + [tag])))
  {
    StripPrefixOfAppend("  - ", Quote(tag));
    UnquoteOfQuote(tag);
  }

  lemma {:induction false} ReadTagLines(state: ReadState, tags: seq<string>)
    requires state.list == Some(Tags)
    ensures ReadLines(state, ItemLines(tags))
            == Success(state.(parsed := state.parsed.(tags := state.parsed.tags + tags)))
    decreases |tags|
  {
    hide Quote, ReadLine;
    if tags == [] {
      assert state.parsed.tags + tags == state.parsed.tags;
    } else {
      ReadTagLine(state, tags[0]);
      var next := state.(parsed := state.parsed.(tags := state.parsed.tags + [tags[0]]));
      ReadTagLines(next, tags[1..]);
      assert state.parsed.tags + tags == state.parsed.tags + [tags[0]] + tags[1..];
    }
  }

  lemma ReadEntryLine(state: ReadState, text: string, entry: ArtifactIndexEntry)
    requires state.list == Some(ExtractedOutputs) && ParseEntry(Quote(text)) == Success(entry)
    ensures ReadLine(state, "  - " + Quote(text))
            == Success(state.(parsed :=
                 state.parsed.(extractedOutputs := state.parsed.extractedOutputs + [entry])))
  {
    StripPrefixOfAppend("  - ", Quote(text));
  }

  lemma {:induction false} ReadEntryLines(
    state: ReadState, texts: seq<string>, entries: seq<ArtifactIndexEntry>)
    requires state.list == Some(ExtractedOutputs) && |texts| == |entries|
    requires forall i :: 0 <= i < |texts| ==> ParseEntry(Quote(texts[i])) == Success(entries[i])
    ensures ReadLines(state, ItemLines(texts))
            == Success(state.(parsed :=
                 state.parsed.(extractedOutputs := state.parsed.extractedOutputs + entries)))
    decreases |texts|
  {
    hide ParseEntry, Quote, ReadLine;
    var have := state.parsed.extractedOutputs;
    if texts == [] {
      assert have + entries == have;
    } else {
      ReadEntryLine(state, texts[0], entries[0]);
      ReadEntryLines(
        state.(parsed := state.parsed.(extractedOutputs := have + [entries[0]])), texts[1..], entries[1..]);
      assert have + entries == have + [entries[0]] + entries[1..];
    }
  }

  lemma ReadListHeader(state: ReadState)
    ensures ReadLine(state, "tags:") == Success(ReadState(state.parsed, Some(Tags)))
    ensures ReadLine(state, "extracted_outputs:")
            == Success(ReadState(state.parsed, Some(ExtractedOutputs)))
  {
    OpensNoItem("tags:");
    OpensNoItem("extracted_outputs:");
    assert |"tags:"| != |"extracted_outputs:"|;
  }

  lemma ReadEmptyList(state: ReadState, key: string)
    requires key == "tags" || key == "extracted_outputs"
    ensures ReadLine(state, key + ": []") == Success(ReadState(state.parsed, None))
  {
    hide SplitOnce;
    var line := key + ": []";
    assert line == key + ": " + "[]";
    assert key[0] == 't' || key[0] == 'e';
    assert ':' !in key;
    OpensNoItem(line);
    SplitOnceAtFresh(key, ": ", "[]");
    assert line[|line| - 1] == ']' && "tags:"[4] == ':' && "extracted_outputs:"[17] == ':';
  }

  lemma ReadTagBlock(state: ReadState, tags: seq<string>)
    ensures ReadLines(state, ListLines("tags", tags)).Success?
    ensures ReadLines(state, ListLines("tags", tags)).value.parsed
            == state.parsed.(tags := state.parsed.tags + tags)
  {
    ReadListHeader(state);
    var lines := ListLines("tags", tags);
    if tags == [] {
      ReadEmptyList(state, "tags");
      assert lines[0] == "tags" + ": []" && lines[1..] == [];
      assert state.parsed.tags + tags == state.parsed.tags;
    } else {
      assert "tags" + ":" == "tags:";
      assert lines[0] == "tags:" && lines[1..] == ItemLines(tags);
      ReadTagLines(ReadState(state.parsed, Some(Tags)), tags);
    }
  }

  lemma ReadEntryBlock(state: ReadState, entries: seq<ArtifactIndexEntry>)
    requires forall e :: e in entries ==> WellFormedEntry(e)
    ensures ReadLines(state, ListLines("extracted_outputs", EntryTexts(entries))).Success?
    ensures ReadLines(state, ListLines("extracted_outputs", EntryTexts(entries))).value.parsed
            == state.parsed.(extractedOutputs := state.parsed.extractedOutputs + entries)
  {
    ReadListHeader(state);
    var lines := ListLines("extracted_outputs", EntryTexts(entries));
    if entries == [] {
      ReadEmptyList(state, "extracted_outputs");
      assert lines[0] == "extracted_outputs" + ": []" && lines[1..] == [];
      assert state.parsed.extractedOutputs + entries == state.parsed.extractedOutputs;
    } else {
      assert "extracted_outputs" + ":" == "extracted_outputs:";
      assert lines[0] == "extracted_outputs:" && lines[1..] == ItemLines(EntryTexts(entries));
      forall i | 0 <= i < |entries|
        ensures ParseEntry(Quote(EntryTexts(entries)[i])) == Success(entries[i])
      {
        assert WellFormedEntry(entries[i]);
        EntryRoundTrip(entries[i]);
      }
      ReadEntryLines(ReadState(state.parsed, Some(ExtractedOutputs)), EntryTexts(entries), entries);
    }
  }

  function RecordedFields(r: Revision): map<string, string> {
    AddScalars(AddScalars(map[], r, HEAD_KEYS), r, [SummaryPlaceholder])
  }

  lemma ReadLinesFor(r: Revision, head: seq<Key>, tail: seq<Key>)
    requires WellFormed(r)
    ensures ReadLines(START, LinesFor(r, head, tail)).Success?
    ensures ReadLines(START, LinesFor(r, head, tail)).value.parsed
            == Frontmatter(
                 AddScalars(AddScalars(map[], r, head), r, tail), r.summary.tags,
                 r.session.extractedOutputs)
  {
    var first := ScalarLines(r, head);
    var outputs := ListLines("extracted_outputs", EntryTexts(r.session.extractedOutputs));
    var second := ScalarLines(r, tail);
    var tags := ListLines("tags", r.summary.tags);
    ReadScalarLines(START, r, head);
    var one := ReadLines(START, first).value;
    ReadEntryBlock(one, r.session.extractedOutputs);
    var two := ReadLines(one, outputs).value;
    ReadScalarLines(two, r, tail);
    var three := ReadLines(two, second).value;
    ReadTagBlock(three, r.summary.tags);
    ReadLinesAppend(START, first, outputs);
    ReadLinesAppend(START, first + outputs, second);
    ReadLinesAppend(START, first + outputs + second, tags);
    assert [] + r.session.extractedOutputs == r.session.extractedOutputs;
    assert [] + r.summary.tags == r.summary.tags;
  }

  /** The map answers every key the way the writer wrote it. */
  ghost predicate Records(fields: map<string, string>, r: Revision) {
    forall k: Key :: Lookup(fields, k) == ScalarValue(r, k)
  }

  lemma RecordedFieldsRecord(r: Revision)
    ensures Records(RecordedFields(r), r)
  {
    forall k: Key
      ensures Lookup(RecordedFields(r), k) == ScalarValue(r, k)
    {
      EveryKeyIsWritten(k);
      AddScalarsLookup(map[], r, HEAD_KEYS, k);
      AddScalarsLookup(AddScalars(map[], r, HEAD_KEYS), r, [SummaryPlaceholder], k);
    }
  }

  // ----- the shape of the frontmatter text

  /** One line that cannot be taken for the closing rule of the frontmatter. */
  predicate FrontmatterLine(line: string) {
    IsPlainLine(line) && line != "" && line[0] != '-'
  }

  predicate FrontmatterShape(lines: seq<string>) {
    forall line :: line in lines ==> FrontmatterLine(line)
  }

  lemma DecimalIsPlainLine(n: nat)
    ensures IsPlainLine(Decimal(n)) && Decimal(n) != ""
  {
    DecimalHasNo(n, '\n');
    DecimalHasNo(n, '\r');
    assert Decimal(n)[|Decimal(n)| - 1] in Decimal(n);
  }

  lemma TrueIsPlainLine()
    ensures IsPlainLine("true")
  {
  }

  lemma ScalarValueIsPlain(r: Revision, k: Key)
    ensures ScalarValue(r, k).Some? ==> IsPlainLine(ScalarValue(r, k).value) && ScalarValue(r, k).value != ""
  {
    hide Quote, IsPlainLine, Decimal, ArchiveId, SourceKind.AgentLabel, StructuredSummary.IsPlaceholder;
    TrueIsPlainLine();
    PlainTexts();
  }

  lemma PlainTexts()
    ensures forall n: nat :: IsPlainLine(Decimal(n)) && Decimal(n) != ""
    ensures forall t :: IsPlainLine(Quote(t)) && Quote(t) != ""
  {
    hide Quote, IsPlainLine, Decimal;
    forall n: nat
      ensures IsPlainLine(Decimal(n)) && Decimal(n) != ""
    {
      DecimalIsPlainLine(n);
    }
    forall t
      ensures IsPlainLine(Quote(t)) && Quote(t) != ""
    {
      QuoteIsPlainLine(t);
    }
  }

  lemma AppendIsPlain(a: string, b: string)
    requires '\n' !in a && IsPlainLine(b) && b != ""
    ensures IsPlainLine(a + b)
  {
  }

  lemma {:induction false} ScalarLinesShape(r: Revision, keys: seq<Key>)
    ensures FrontmatterShape(ScalarLines(r, keys))
  {
    if keys != [] {
      ScalarLinesShape(r, keys[1..]);
      NameIsKeyName(keys[0]);
      ScalarValueIsPlain(r, keys[0]);
      if ScalarValue(r, keys[0]).Some? {
        var head := Name(keys[0]) + ": ";
        AppendIsPlain(head, ScalarValue(r, keys[0]).value);
        assert FrontmatterLine(head + ScalarValue(r, keys[0]).value);
      }
    }
  }

  lemma {:induction false} ItemLinesShape(items: seq<string>)
    ensures FrontmatterShape(ItemLines(items))
  {
    if items != [] {
      ItemLinesShape(items[1..]);
      QuoteIsPlainLine(items[0]);
      AppendIsPlain("  - ", Quote(items[0]));
      assert FrontmatterLine("  - " + Quote(items[0]));
    }
  }

  lemma ListLinesShape(items: seq<string>)
    ensures FrontmatterShape(ListLines("tags", items))
    ensures FrontmatterShape(ListLines("extracted_outputs", items))
  {
    ItemLinesShape(items);
    assert FrontmatterLine("tags" + ": []") && FrontmatterLine("tags" + ":");
    assert FrontmatterLine("extracted_outputs" + ": []") && FrontmatterLine("extracted_outputs" + ":");
  }

  lemma FrontmatterLinesShape(r: Revision)
    ensures FrontmatterShape(FrontmatterLines(r)) && FrontmatterLines(r) != []
  {
    ScalarLinesShape(r, HEAD_KEYS);
    ScalarLinesShape(r, [SummaryPlaceholder]);
    ListLinesShape(EntryTexts(r.session.extractedOutputs));
    ListLinesShape(r.summary.tags);
  }

  lemma ReadAllLines(r: Revision)
    requires WellFormed(r)
    ensures ReadLines(START, FrontmatterLines(r)).Success?
    ensures ReadLines(START, FrontmatterLines(r)).value.parsed
            == Frontmatter(RecordedFields(r), r.summary.tags, r.session.extractedOutputs)
  {
    ReadLinesFor(r, HEAD_KEYS, [SummaryPlaceholder]);
  }

  lemma FrontmatterText(r: Revision, rest: string)
    requires WellFormed(r)
    ensures var front := Join(FrontmatterLines(r), "\n");
            && SplitOnce(front + "\n---\n\n" + rest, "\n---\n\n") == Some((front, rest))
            && ParseFrontmatter(front)
               == Success(Frontmatter(RecordedFields(r), r.summary.tags, r.session.extractedOutputs))
  {
    hide FrontmatterLines, ReadLines, SplitOnce, RecordedFields, Lines;
    var lines := FrontmatterLines(r);
    var front := Join(lines, "\n");
    var rule := "\n---\n\n";
    FrontmatterLinesShape(r);
    forall line | line in lines
      ensures FrontmatterLine(line) && IsPlainLine(line) && '\n' !in line
    {
    }
    forall k | 0 <= k < |lines|
      ensures lines[k] != "" && lines[k][0] != '-'
    {
      assert FrontmatterLine(lines[k]);
    }
    forall j | 0 <= j < |front|
      ensures !OccursAt(front + rule + rest, j, rule)
    {
      JoinAfterNewline(lines, j, '-');
      var s := front + rule + rest;
      assert s[j] == front[j];
      if front[j] == '\n' {
        assert s[j + 1] == front[j + 1];
        MismatchAt(s, j, rule, 1);
      } else {
        MismatchAt(s, j, rule, 0);
      }
    }
    SplitOnceAt(front, rule, rest);
    LinesOfJoin(lines);
    ReadAllLines(r);
  }

  // ----- the header

  lemma WrittenScalars(r: Revision)
    ensures ScalarValue(r, SchemaVersion) == Some(Decimal(2))
    ensures ScalarValue(r, SummaryRevision) == Some(Decimal(r.number))
    ensures ScalarValue(r, SourceCursor) == Some(Decimal(r.session.sourceCursor))
    ensures ScalarValue(r, SourceHash) == Some(Quote(r.session.sourceHash))
    ensures ScalarValue(r, StartedAt) == QuoteOptional(r.session.startedAt)
    ensures ScalarValue(r, UpdatedAt) == QuoteOptional(r.session.updatedAt)
    ensures ScalarValue(r, CompletionReason) == Some(Quote(r.completionReason))
    ensures ScalarValue(r, CursorFallbackReason) == QuoteOptional(r.fallbackReason)
  {
    hide Quote, Decimal;
  }

  lemma WrittenProject(r: Revision)
    ensures ScalarValue(r, Project) == Some(Quote(r.project.project))
    ensures ScalarValue(r, ProjectIdentityKey) == Some(Quote(r.project.identity))
    ensures ScalarValue(r, ProjectComponent) == Some(Quote(r.project.component))
    ensures ScalarValue(r, Repository) == QuoteOptional(r.project.repository)
    ensures ScalarValue(r, Branch) == QuoteOptional(r.project.branch)
  {
    hide Quote, Decimal;
  }

  lemma NumberIsRecorded(fields: map<string, string>, r: Revision, k: Key, n: nat, bound: nat)
    requires Records(fields, r) && n < bound && ScalarValue(r, k) == Some(Decimal(n))
    ensures NumberField(fields, k, bound) == Success(n)
    ensures OptionalNumber(fields, k, bound) == Success(Some(n))
  {
    assert Lookup(fields, k) == ScalarValue(r, k);
    ParseDecimal(n, bound);
  }

  lemma StringIsRecorded(fields: map<string, string>, r: Revision, k: Key, text: string)
    requires Records(fields, r) && ScalarValue(r, k) == Some(Quote(text))
    ensures StringField(fields, k) == Success(text)
    ensures OptionalString(fields, k) == Success(Some(text))
  {
    assert Lookup(fields, k) == ScalarValue(r, k);
    UnquoteOfQuote(text);
  }

  lemma OptionalIsRecorded(fields: map<string, string>, r: Revision, k: Key, value: Option<string>)
    requires Records(fields, r) && ScalarValue(r, k) == QuoteOptional(value)
    ensures OptionalString(fields, k) == Success(value)
  {
    assert Lookup(fields, k) == ScalarValue(r, k);
    if value.Some? {
      UnquoteOfQuote(value.value);
    }
  }

  lemma AgentLabelIsRead(source: SourceKind)
    ensures FromAgentLabel(source.AgentLabel()) == Success(source)
  {
    assert |Copilot.AgentLabel()| == 11 && Copilot.AgentLabel()[1] == 'o';
    assert |ClaudeCode.AgentLabel()| == 11 && ClaudeCode.AgentLabel()[1] == 'l';
    assert |Codex.AgentLabel()| == 9;
  }

  lemma OriginIsRecorded(fields: map<string, string>, r: Revision)
    requires Records(fields, r)
    ensures ParseOrigin(fields) == Success(r.project.origin)
  {
    var marker := if r.project.origin.Recorded? then Some("recorded") else None;
    assert ScalarValue(r, ProjectOriginKey) == QuoteOptional(marker);
    OptionalIsRecorded(fields, r, ProjectOriginKey, marker);
    assert |"recorded"| != |"live"|;
  }

  lemma ProjectIsRecorded(fields: map<string, string>, r: Revision)
    requires Records(fields, r)
    ensures ParseProject(fields) == Success(r.project)
  {
    hide ScalarValue, OptionalString, StringField, ParseOrigin, Quote, Records;
    WrittenProject(r);
    OriginIsRecorded(fields, r);
    StringIsRecorded(fields, r, Project, r.project.project);
    StringIsRecorded(fields, r, ProjectIdentityKey, r.project.identity);
    StringIsRecorded(fields, r, ProjectComponent, r.project.component);
    OptionalIsRecorded(fields, r, Repository, r.project.repository);
    OptionalIsRecorded(fields, r, Branch, r.project.branch);
  }

  lemma CursorIsRecorded(fields: map<string, string>, r: Revision)
    requires Records(fields, r) && WellFormed(r)
    ensures ParseCursor(fields, 2, r.session.sourceCursor, r.session.sourceHash)
            == Success(Recorded(r).cursor)
  {
    hide Quote, Decimal, ParseUnsigned, Unquote;
    NumberIsRecorded(fields, r, NormalizerVersion, NORMALIZER_VERSION, U32_BOUND);
    NumberIsRecorded(fields, r, SourceCursorRecords, r.session.sourceCursor, U64_BOUND);
    NumberIsRecorded(fields, r, SourceCursorBytes, r.session.sourceByteCursor, U64_BOUND);
    StringIsRecorded(fields, r, SourcePrefixHash, r.session.sourcePrefixHash);
    NumberIsRecorded(fields, r, SourceBytes, r.session.sourceBytes, U64_BOUND);
  }

  lemma SessionIsRecorded(fields: map<string, string>, r: Revision)
    requires Records(fields, r)
    ensures ParseSession(fields) == Success((r.session.source, r.session.sessionId))
  {
    StringIsRecorded(fields, r, SessionId, r.session.sessionId);
    StringIsRecorded(fields, r, Agent, r.session.source.AgentLabel());
    AgentLabelIsRead(r.session.source);
    StringIsRecorded(fields, r, Id, ArchiveId(r.session.source, r.session.sessionId));
  }

  lemma IndexIsRecorded(fields: map<string, string>, r: Revision)
    requires Records(fields, r) && WellFormed(r)
    ensures ParseIndex(fields) == Success((Some(CURRENT_ARTIFACT_SET_VERSION), Some(r.session.sourceHash)))
  {
    NumberIsRecorded(fields, r, ArtifactSetVersion, CURRENT_ARTIFACT_SET_VERSION, U16_BOUND);
    StringIsRecorded(fields, r, TranscriptSha256, r.session.sourceHash);
  }

  lemma ReasonsAreRecorded(fields: map<string, string>, r: Revision)
    requires Records(fields, r) && WellFormed(r)
    ensures ParseReasons(fields) == Success((r.completionReason, r.fallbackReason))
  {
    hide ScalarValue, OptionalString, Quote, Records;
    WrittenScalars(r);
    StringIsRecorded(fields, r, CompletionReason, r.completionReason);
    OptionalIsRecorded(fields, r, CursorFallbackReason, r.fallbackReason);
  }

  /** The header is assembled from the parts that the lemmas above read. */
  lemma HeaderFromParts(fields: map<string, string>, r: Revision, summary: StructuredSummary)
    requires WellFormed(r)
    requires NumberField(fields, SchemaVersion, U32_BOUND) == Success(2)
    requires ParseSession(fields) == Success((r.session.source, r.session.sessionId))
    requires ParseProject(fields) == Success(r.project)
    requires NumberField(fields, SummaryRevision, U64_BOUND) == Success(r.number)
    requires NumberField(fields, SourceCursor, U64_BOUND) == Success(r.session.sourceCursor)
    requires StringField(fields, SourceHash) == Success(r.session.sourceHash)
    requires ParseReasons(fields) == Success((r.completionReason, r.fallbackReason))
    requires ParseCursor(fields, 2, r.session.sourceCursor, r.session.sourceHash) == Success(Recorded(r).cursor)
    requires ParseIndex(fields) == Success((Some(CURRENT_ARTIFACT_SET_VERSION), Some(r.session.sourceHash)))
    requires ParsePlaceholderFlag(fields) == Success(r.summary.IsPlaceholder())
    ensures ParseHeader(fields, r.session.extractedOutputs, summary)
            == Success(Recorded(r).(startedAt := None, updatedAt := None, summary := summary))
  {
  }

  lemma FlagIsRecorded(fields: map<string, string>, r: Revision)
    requires Records(fields, r)
    ensures ParsePlaceholderFlag(fields) == Success(r.summary.IsPlaceholder())
  {
    assert Lookup(fields, SummaryPlaceholder) == ScalarValue(r, SummaryPlaceholder);
  }

  lemma SchemaIsRecorded(fields: map<string, string>, r: Revision)
    requires Records(fields, r)
    ensures NumberField(fields, SchemaVersion, U32_BOUND) == Success(2)
  {
    NumberIsRecorded(fields, r, SchemaVersion, 2, U32_BOUND);
  }

  lemma HeaderIsRecorded(fields: map<string, string>, r: Revision, summary: StructuredSummary)
    requires Records(fields, r) && WellFormed(r)
    ensures ParseHeader(fields, r.session.extractedOutputs, summary)
            == Success(Recorded(r).(startedAt := None, updatedAt := None, summary := summary))
  {
    hide *;
    WrittenScalars(r);
    SchemaIsRecorded(fields, r);
    SessionIsRecorded(fields, r);
    ProjectIsRecorded(fields, r);
    NumberIsRecorded(fields, r, SummaryRevision, r.number, U64_BOUND);
    NumberIsRecorded(fields, r, SourceCursor, r.session.sourceCursor, U64_BOUND);
    StringIsRecorded(fields, r, SourceHash, r.session.sourceHash);
    ReasonsAreRecorded(fields, r);
    CursorIsRecorded(fields, r);
    IndexIsRecorded(fields, r);
    FlagIsRecorded(fields, r);
    HeaderFromParts(fields, r, summary);
  }

  // ----- the summary body

  /** What a list reads back as. */
  function ReadBack(items: seq<string>): seq<string> {
    if items == ["None."] then [] else items
  }

  /** The list text between two headings. */
  function ListText(items: seq<string>): string {
    if items == [] then "- None." else Join(BulletLines(items), "\n")
  }

  lemma RenderListIsText(heading: string, items: seq<string>)
    ensures RenderList(heading, items) == "## " + heading + "\n\n" + ListText(items) + "\n\n"
  {
    if items == [] {
      assert "- None.\n\n" == "- None." + "\n\n";
    } else {
      TerminatedIsJoin(BulletLines(items));
      assert Terminated(BulletLines(items)) + "\n" == ListText(items) + "\n\n";
    }
  }

  predicate BulletItem(item: string) {
    '\n' !in item && '\r' !in item && item != ""
  }

  lemma {:induction false} BulletLinesArePlain(items: seq<string>)
    requires forall item :: item in items ==> BulletItem(item)
    ensures forall line :: line in BulletLines(items) ==> IsPlainLine(line) && |line| > 2
    ensures forall k :: 0 <= k < |items| ==> BulletLines(items)[k] == "- " + items[k]
  {
    if items != [] {
      assert BulletItem(items[0]);
      BulletLinesArePlain(items[1..]);
    }
  }

  lemma {:induction false} JoinLast(parts: seq<string>)
    requires parts != [] && parts[|parts| - 1] != ""
    ensures Join(parts, "\n") != ""
    ensures var joined := Join(parts, "\n"); var last := parts[|parts| - 1];
            joined[|joined| - 1] == last[|last| - 1]
  {
    if |parts| > 1 {
      JoinLast(parts[1..]);
    }
  }

  lemma NoneText(text: string, i: nat)
    requires text == "- None."
    ensures text[|text| - 1] == '.' && (i < |text| ==> text[i] != '\n')
  {
    assert '\n' !in text;
    assert i < |text| ==> text[i] in text;
  }

  /** The list text has no blank line and does not end in a line ending. */
  lemma ListTextShape(items: seq<string>, i: nat)
    requires forall item :: item in items ==> BulletItem(item)
    ensures ListText(items) != "" && ListText(items)[|ListText(items)| - 1] != '\n'
    ensures i < |ListText(items)| && ListText(items)[i] == '\n' ==>
              i + 1 < |ListText(items)| && ListText(items)[i + 1] != '\n'
  {
    hide BulletLines;
    if items == [] {
      NoneText(ListText(items), i);
    } else {
      var lines := BulletLines(items);
      BulletLinesArePlain(items);
      JoinLast(lines);
      assert lines[|lines| - 1] == "- " + items[|items| - 1] && items[|items| - 1] in items;
      var last := items[|items| - 1];
      assert BulletItem(last) && last[|last| - 1] in last;
      if i < |ListText(items)| {
        JoinAfterNewline(lines, i, '\n');
      }
    }
  }

  lemma {:induction false} ParseBulletLines(items: seq<string>)
    ensures ParseBullets(BulletLines(items)) == Success(items)
  {
    if items != [] {
      ParseBulletLines(items[1..]);
      StripPrefixOfAppend("- ", items[0]);
      assert [items[0]] + items[1..] == items;
    }
  }

  lemma ListTextIsNone(items: seq<string>)
    requires forall item :: item in items ==> BulletItem(item)
    ensures ListText(items) == "- None." <==> items == [] || items == ["None."]
  {
    if items != [] {
      var lines := BulletLines(items);
      assert lines[0] == "- " + items[0];
      if |items| == 1 {
        assert ListText(items) == "- " + items[0];
        assert "- None."[2..] == "None.";
        assert ("- " + items[0])[2..] == items[0];
      } else {
        assert ListText(items)[|lines[0]|] == '\n';
        assert '\n' !in "- None.";
        assert ListText(items)[|lines[0]|] in ListText(items);
      }
    }
  }

  lemma {:induction false} TrimNewlinesOf(s: string, n: nat)
    requires s != "" && s[|s| - 1] != '\n'
    ensures TrimNewlines(s + seq(n, _ => '\n')) == s
  {
    var text := s + seq(n, _ => '\n');
    if n == 0 {
      assert text == s;
    } else {
      assert text[..|text| - 1] == s + seq(n - 1, _ => '\n');
      TrimNewlinesOf(s, n - 1);
    }
  }

  /** A list text with any number of line endings behind it reads back as its items. */
  lemma ListRoundTrip(items: seq<string>, n: nat)
    requires forall item :: item in items ==> BulletItem(item)
    ensures ParseList(ListText(items) + seq(n, _ => '\n')) == Success(ReadBack(items))
  {
    ListTextShape(items, 0);
    TrimNewlinesOf(ListText(items), n);
    ListTextIsNone(items);
    if items != [] && items != ["None."] {
      BulletLinesArePlain(items);
      var lines := BulletLines(items);
      assert lines[|lines| - 1] in lines;
      LinesOfJoin(lines);
      ParseBulletLines(items);
    }
  }

  function Heading(name: string): string {
    "\n\n## " + name + "\n\n"
  }

  lemma HeadingStarts(name: string)
    ensures |Heading(name)| >= 7 && Heading(name)[1..5] == "\n## "
    ensures Heading(name)[0] == '\n' && Heading(name)[1] == '\n' && Heading(name)[2] == '#'
    ensures Heading(name)[3] == '#' && Heading(name)[4] == ' '
  {
  }

  lemma CutIsSplit(s: string, name: string)
    ensures Cut(s, name) == match SplitOnce(s, Heading(name))
                            case None => Failure(InvalidArchive)
                            case Some(parts) => Success(parts)
  {
  }

  lemma CutAfterTitle(title: string, name: string, after: string)
    requires '\n' !in title
    ensures Cut(title + Heading(name) + after, name) == Success((title, after))
  {
    hide Cut;
    CutIsSplit(title + Heading(name) + after, name);
    HeadingStarts(name);
    SplitOnceAtFresh(title, Heading(name), after);
  }

  lemma InnerMismatch(s: string, j: nat, mark: string, goal: string)
    requires |mark| >= 5 && mark[1..5] == "\n## " && goal <= s && j + 5 <= |goal|
    requires !OccursAt(goal, j + 1, "\n## ")
    ensures !OccursAt(s, j, mark)
  {
    assert j + 1 + |"\n## "| == j + 5;
    assert goal[j + 1..j + 5] != "\n## ";
    var inner := goal[j + 1..j + 5];
    assert |inner| == |mark[1..5]| && inner != mark[1..5];
    var k :| 0 <= k < 4 && inner[k] != mark[1..5][k];
    MismatchAt(s, j, mark, k + 1);
  }

  lemma CutAfterGoal(goal: string, name: string, after: string)
    requires !Contains(goal, "\n## ") && goal != "" && goal[|goal| - 1] != '\n'
    ensures Cut(goal + (Heading(name) + after), name) == Success((goal, after))
  {
    var mark := Heading(name);
    var s := goal + mark + after;
    hide Cut, Heading;
    CutIsSplit(s, name);
    HeadingStarts(name);
    forall j | 0 <= j < |goal|
      ensures !OccursAt(s, j, mark)
    {
      var overlap := |goal| - j;
      assert s[j] == goal[j];
      if overlap == 1 {
        MismatchAt(s, j, mark, 0);
      } else if overlap < 5 {
        assert s[j + overlap] == mark[0];
        MismatchAt(s, j, mark, overlap);
      } else {
        assert !OccursAt(goal, j + 1, "\n## ");
        InnerMismatch(s, j, mark, goal);
      }
    }
    SplitOnceAt(goal, mark, after);
    assert s == goal + (mark + after);
  }

  lemma CutAfterList(items: seq<string>, name: string, after: string)
    requires forall item :: item in items ==> BulletItem(item)
    ensures Cut(ListText(items) + (Heading(name) + after), name) == Success((ListText(items), after))
  {
    var text := ListText(items);
    var mark := Heading(name);
    var s := text + mark + after;
    hide Cut, Heading, ListText;
    CutIsSplit(s, name);
    HeadingStarts(name);
    forall j | 0 <= j < |text|
      ensures !OccursAt(s, j, mark)
    {
      ListTextShape(items, j);
      assert s[j] == text[j];
      if text[j] == '\n' {
        assert s[j + 1] == text[j + 1];
        MismatchAt(s, j, mark, 1);
      } else {
        MismatchAt(s, j, mark, 0);
      }
    }
    SplitOnceAt(text, mark, after);
    assert s == text + (mark + after);
  }

  /** Moves the blank line behind a section into the heading of the next one. */
  lemma Nest(section: string, mark: string, text: string, rest: string, restText: string)
    requires "\n\n" + section == mark + text + "\n\n"
    requires "\n\n" + rest == restText + "\n"
    ensures "\n\n" + (section + rest) == mark + (text + restText) + "\n"
  {
    assert "\n\n" + (section + rest) == ("\n\n" + section) + rest;
    assert mark + text + "\n\n" + rest == mark + text + ("\n\n" + rest);
  }

  lemma NestTitle(title: string, goalMark: string, goal: string, work: string, text: string)
    requires "\n\n" + work == text + "\n"
    ensures DropLast("# " + title + goalMark + goal + "\n\n" + work)
            == "# " + (title + goalMark + (goal + text))
  {
    var whole := "# " + title + goalMark + goal;
    assert whole + "\n\n" + work == whole + ("\n\n" + work);
    assert whole + (text + "\n") == whole + text + "\n";
  }

  lemma SectionIsNested(name: string, items: seq<string>)
    ensures "\n\n" + RenderList(name, items) == Heading(name) + ListText(items) + "\n\n"
  {
    RenderListIsText(name, items);
  }

  /** The body without its last line ending, as the reader cuts it. */
  function BodyText(s: StructuredSummary): string {
    "# " + (s.title + Heading("Goal") + (s.goal + (Heading("Work completed")
            + (ListText(s.workCompleted) + (Heading("Decisions")
            + (ListText(s.decisions) + (Heading("Files changed")
            + (ListText(s.filesChanged) + (Heading("Commands and validation")
            + (ListText(s.commandsAndValidation) + (Heading("Open items")
            + (ListText(s.openItems) + "\n"))))))))))))
  }

  lemma RenderBodyIsText(s: StructuredSummary)
    ensures DropLast(RenderBody(s)) == BodyText(s)
  {
    hide Heading, ListText, RenderList;
    GoalHeading();
    var open := RenderList("Open items", s.openItems);
    var commands := RenderList("Commands and validation", s.commandsAndValidation) + open;
    var files := RenderList("Files changed", s.filesChanged) + commands;
    var decisions := RenderList("Decisions", s.decisions) + files;
    var work := RenderList("Work completed", s.workCompleted) + decisions;
    var h1, h2, h3 := Heading("Work completed"), Heading("Decisions"), Heading("Files changed");
    var h4, h5 := Heading("Commands and validation"), Heading("Open items");
    var t5 := h5 + (ListText(s.openItems) + "\n");
    var t4 := h4 + (ListText(s.commandsAndValidation) + t5);
    var t3 := h3 + (ListText(s.filesChanged) + t4);
    var t2 := h2 + (ListText(s.decisions) + t3);
    var t1 := h1 + (ListText(s.workCompleted) + t2);
    SectionIsNested("Open items", s.openItems);
    LastSection(h5, ListText(s.openItems));
    SectionIsNested("Commands and validation", s.commandsAndValidation);
    Nest(RenderList("Commands and validation", s.commandsAndValidation), h4,
         ListText(s.commandsAndValidation), open, t5);
    SectionIsNested("Files changed", s.filesChanged);
    Nest(RenderList("Files changed", s.filesChanged), h3, ListText(s.filesChanged), commands, t4);
    SectionIsNested("Decisions", s.decisions);
    Nest(RenderList("Decisions", s.decisions), h2, ListText(s.decisions), files, t3);
    SectionIsNested("Work completed", s.workCompleted);
    Nest(RenderList("Work completed", s.workCompleted), h1, ListText(s.workCompleted), decisions, t2);
    NestTitle(s.title, Heading("Goal"), s.goal, work, t1);
  }

  lemma GoalHeading()
    ensures Heading("Goal") == "\n\n## Goal\n\n"
  {
  }

  lemma LastSection(mark: string, text: string)
    ensures mark + text + "\n\n" == mark + (text + "\n") + "\n"
  {
  }

  function ReadBackSummary(s: StructuredSummary): StructuredSummary {
    StructuredSummary(
      s.title, s.goal, ReadBack(s.workCompleted), ReadBack(s.decisions), ReadBack(s.filesChanged),
      ReadBack(s.commandsAndValidation), ReadBack(s.openItems), s.tags)
  }

  lemma NormalListHasBullets(values: seq<string>, max: nat)
    requires NormalList(values, max)
    ensures forall item :: item in values ==> BulletItem(item)
  {
  }

  lemma BodyRoundTrip(s: StructuredSummary)
    requires NormalSummary(s)
    ensures ParseBody(DropLast(RenderBody(s)), s.tags) == Success(ReadBackSummary(s))
  {
    hide ListText, Heading, ParseList, Cut, NormalList, ReadBack, RenderBody;
    RenderBodyIsText(s);
    NormalListHasBullets(s.workCompleted, ITEM_LIMIT);
    NormalListHasBullets(s.decisions, ITEM_LIMIT);
    NormalListHasBullets(s.filesChanged, ITEM_LIMIT);
    NormalListHasBullets(s.commandsAndValidation, ITEM_LIMIT);
    NormalListHasBullets(s.openItems, ITEM_LIMIT);
    var open := ListText(s.openItems) + "\n";
    var commands := ListText(s.commandsAndValidation) + (Heading("Open items") + open);
    var files := ListText(s.filesChanged) + (Heading("Commands and validation") + commands);
    var decisions := ListText(s.decisions) + (Heading("Files changed") + files);
    var work := ListText(s.workCompleted) + (Heading("Decisions") + decisions);
    var goal := s.goal + (Heading("Work completed") + work);
    var text := s.title + Heading("Goal") + goal;
    StripPrefixOfAppend("# ", text);
    CutAfterTitle(s.title, "Goal", goal);
    CutAfterGoal(s.goal, "Work completed", work);
    CutAfterList(s.workCompleted, "Decisions", decisions);
    CutAfterList(s.decisions, "Files changed", files);
    CutAfterList(s.filesChanged, "Commands and validation", commands);
    CutAfterList(s.commandsAndValidation, "Open items", open);
    ListsRoundTrip(s);
  }

  lemma NoPadding(s: string)
    ensures s + seq(0, _ => '\n') == s
  {
  }

  lemma ListsRoundTrip(s: StructuredSummary)
    requires NormalSummary(s)
    ensures ParseList(ListText(s.workCompleted)) == Success(ReadBack(s.workCompleted))
    ensures ParseList(ListText(s.decisions)) == Success(ReadBack(s.decisions))
    ensures ParseList(ListText(s.filesChanged)) == Success(ReadBack(s.filesChanged))
    ensures ParseList(ListText(s.commandsAndValidation)) == Success(ReadBack(s.commandsAndValidation))
    ensures ParseList(ListText(s.openItems) + "\n") == Success(ReadBack(s.openItems))
  {
    NormalListHasBullets(s.workCompleted, ITEM_LIMIT);
    NormalListHasBullets(s.decisions, ITEM_LIMIT);
    NormalListHasBullets(s.filesChanged, ITEM_LIMIT);
    NormalListHasBullets(s.commandsAndValidation, ITEM_LIMIT);
    NormalListHasBullets(s.openItems, ITEM_LIMIT);
    ListRoundTrip(s.workCompleted, 0);
    ListRoundTrip(s.decisions, 0);
    ListRoundTrip(s.filesChanged, 0);
    ListRoundTrip(s.commandsAndValidation, 0);
    ListRoundTrip(s.openItems, 1);
    NoPadding(ListText(s.workCompleted));
    NoPadding(ListText(s.decisions));
    NoPadding(ListText(s.filesChanged));
    NoPadding(ListText(s.commandsAndValidation));
    assert seq(1, _ => '\n') == "\n";
  }

  // ----- the theorem

  lemma RenderIsText(r: Revision)
    ensures Render(r) == "---\n" + (Join(FrontmatterLines(r), "\n") + "\n---\n\n"
                                    + DropLast(RenderBody(r.summary)))
  {
    FrontmatterLinesShape(r);
    TerminatedIsJoin(FrontmatterLines(r));
    var body := RenderBody(r.summary);
    assert body != "";
    var front := Join(FrontmatterLines(r), "\n");
    assert Render(r) == DropLast("---\n" + (front + "\n") + "---\n\n" + body);
    assert "---\n" + (front + "\n") + "---\n\n" + body == "---\n" + (front + "\n---\n\n" + body);
  }

  lemma FieldsOfRender(r: Revision, summary: StructuredSummary)
    requires WellFormed(r)
    ensures ParseHeader(RecordedFields(r), r.session.extractedOutputs, summary)
            == Success(Recorded(r).(startedAt := None, updatedAt := None, summary := summary))
    ensures OptionalString(RecordedFields(r), StartedAt) == Success(r.session.startedAt)
    ensures OptionalString(RecordedFields(r), UpdatedAt) == Success(r.session.updatedAt)
  {
    hide *;
    WrittenScalars(r);
    RecordedFieldsRecord(r);
    HeaderIsRecorded(RecordedFields(r), r, summary);
    OptionalIsRecorded(RecordedFields(r), r, StartedAt, r.session.startedAt);
    OptionalIsRecorded(RecordedFields(r), r, UpdatedAt, r.session.updatedAt);
  }

  /** Exactly what the reader makes of a written file, for every validated summary. */
  lemma ParseOfRender(r: Revision)
    requires WellFormed(r) && ValidateSummary(r.summary) == Success(r.summary)
    ensures Parse(Render(r)) ==
            if r.summary.workCompleted == ["None."] then Failure(InvalidSummary)
            else Success(Recorded(r.(summary := ReadBackSummary(r.summary))))
  {
    var s := r.summary;
    var front := Join(FrontmatterLines(r), "\n");
    var body := DropLast(RenderBody(s));
    ValidatedSummaryIsNormal(s);
    RenderIsText(r);
    StripPrefixOfAppend("---\n", front + "\n---\n\n" + body);
    FrontmatterText(r, body);
    FieldsOfRender(r, StructuredSummary("", "", [], [], [], [], [], s.tags));
    BodyRoundTrip(s);
    ReadBackValidates(s);
    ParseFromParts(Render(r), front, body, RecordedFields(r), r);
  }

  lemma ParseFromParts(
    markdown: string, front: string, body: string, fields: map<string, string>, r: Revision)
    requires NormalSummary(r.summary)
    requires StripPrefix(markdown, "---\n") == Some(front + "\n---\n\n" + body)
    requires SplitOnce(front + "\n---\n\n" + body, "\n---\n\n") == Some((front, body))
    requires ParseFrontmatter(front)
             == Success(Frontmatter(fields, r.summary.tags, r.session.extractedOutputs))
    requires var blank := StructuredSummary("", "", [], [], [], [], [], r.summary.tags);
             ParseHeader(fields, r.session.extractedOutputs, blank)
             == Success(Recorded(r).(startedAt := None, updatedAt := None, summary := blank))
    requires ParseBody(body, r.summary.tags) == Success(ReadBackSummary(r.summary))
    requires ValidateSummary(ReadBackSummary(r.summary)) ==
             if r.summary.workCompleted == ["None."] then Failure(MissingListItems)
             else Success(ReadBackSummary(r.summary))
    requires OptionalString(fields, StartedAt) == Success(r.session.startedAt)
    requires OptionalString(fields, UpdatedAt) == Success(r.session.updatedAt)
    ensures Parse(markdown) ==
            if r.summary.workCompleted == ["None."] then Failure(InvalidSummary)
            else Success(Recorded(r.(summary := ReadBackSummary(r.summary))))
  {
  }

  lemma ReadBackValidates(s: StructuredSummary)
    requires NormalSummary(s)
    ensures ValidateSummary(ReadBackSummary(s)) ==
            if s.workCompleted == ["None."] then Failure(MissingListItems) else Success(ReadBackSummary(s))
  {
    var back := ReadBackSummary(s);
    if s.workCompleted == ["None."] {
      ValidatedTextIsNormal(s.title, TITLE_LIMIT, true);
      ValidatedTextIsNormal(s.goal, GOAL_LIMIT, false);
    } else {
      assert NormalSummary(back);
      ValidatedSummaryIsNormal(back);
    }
  }

  predicate HasLoneNone(s: StructuredSummary) {
    || s.workCompleted == ["None."] || s.decisions == ["None."] || s.filesChanged == ["None."]
    || s.commandsAndValidation == ["None."] || s.openItems == ["None."]
  }

  /** The round trip holds exactly when no list is the single item `None.`. */
  lemma RoundTripIff(r: Revision)
    requires WellFormed(r) && ValidateSummary(r.summary) == Success(r.summary)
    ensures Parse(Render(r)) == Success(Recorded(r)) <==> !HasLoneNone(r.summary)
  {
    ParseOfRender(r);
    assert ReadBackSummary(r.summary) == r.summary <==> !HasLoneNone(r.summary);
  }
}
