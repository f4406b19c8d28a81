/** The events of a Claude Code record, said over the record's own members. */
module ClaudeRecords {
  import opened Wrappers
  import opened Trimming
  import opened Identity
  import opened JsonValue
  import opened ToolEvents
  import opened Classify
  import opened RecordTexts

  // ----- Claude Code tools

  /** The member of `input`, where that is an object. */
  ghost predicate InputSays(block: JsonObject, key: string, t: string) {
    HasObject(block, "input") && Says(block["input"].fields, key, t)
  }

  ghost predicate PlainUseField(lib: Library, block: JsonObject, k: string, v: string) {
    || (k == "event" && v == "tool_use")
    || (k == "tool_use_id" && Says(block, "id", v))
    || (k == "name" && Says(block, "name", v))
    || (k == "input" && SaysValue(lib, block, "input", v))
  }

  ghost predicate UseField(lib: Library, block: JsonObject, promote: bool, k: string, v: string) {
    || PlainUseField(lib, block, k, v)
    || (promote && Says(block, "name", "Bash") && k == "command"
        && HasObject(block, "input") && SaysValue(lib, block["input"].fields, "command", v))
    || (promote && Says(block, "name", "Skill") && k == "skill" && InputSays(block, "skill", v))
    || (promote && Says(block, "name", "Skill") && k == "skill_args"
        && InputSays(block, "args", v) && exists skill :: InputSays(block, "skill", skill))
  }

  ghost predicate IsToolUse(lib: Library, block: JsonObject, promote: bool, tool: ToolEvent) {
    && (exists name :: Says(block, "name", name))
    && (forall k, v :: Lookup(tool.fields, k) == Some(v) <==> UseField(lib, block, promote, k, v))
    && DerivesPromoted(tool)
  }

  lemma PlainUseFields(lib: Library, block: JsonObject, name: string)
    requires Says(block, "name", name)
    ensures forall k, v :: Lookup(ClaudeToolFields(lib, block, name).fields, k) == Some(v) <==> PlainUseField(lib, block, k, v)
    ensures forall other :: Says(block, "name", other) <==> other == name
  {
    hide Insert, InsertSome, Lookup, GetText, GetCompact, Says, SaysValue, EventFields;
    SaysIff(block);
    SaysValueIff(lib, block);
    var called := InsertSome(EventFields("tool_use"), "tool_use_id", GetText(block, "id"));
    EventLookup("tool_use");
    InsertSomeLookup(EventFields("tool_use"), "tool_use_id", GetText(block, "id"));
    InsertLookup(called, "name", name);
    InsertSomeLookup(Insert(called, "name", name), "input", GetCompact(lib, block, "input"));
  }

  lemma SkillFieldsPromoted(tool: ToolEvent, block: JsonObject)
    requires tool.derived == {} && !HasKey(tool.fields, "skill") && !HasKey(tool.fields, "skill_args")
    requires !HasKey(tool.fields, "command")
    ensures var after := PromoteSkill(tool, block);
            && (forall k, v :: Lookup(after.fields, k) == Some(v) <==>
                  || Lookup(tool.fields, k) == Some(v)
                  || (k == "skill" && InputSays(block, "skill", v))
                  || (k == "skill_args" && InputSays(block, "args", v) && exists skill :: InputSays(block, "skill", skill)))
            && DerivesPromoted(after)
  {
    hide Lookup, HasKey, Insert, GetText, Says, InsertDerived;
    if HasObject(block, "input") {
      SaysIff(block["input"].fields);
      var skill, args := GetText(block["input"].fields, "skill"), GetText(block["input"].fields, "args");
      if skill.Some? {
        InsertKeysDerived(tool, "skill", skill.value);
        DerivedLookup(tool, "skill", skill.value);
        assert InputSays(block, "skill", skill.value);
        if args.Some? {
          DerivedLookup(InsertDerived(tool, "skill", skill.value), "skill_args", args.value);
        }
      }
    }
  }

  lemma InsertKeysDerived(tool: ToolEvent, key: string, value: string)
    requires !HasKey(tool.fields, key)
    ensures forall k :: HasKey(InsertDerived(tool, key, value).fields, k) <==> k == key || HasKey(tool.fields, k)
  {
    hide HasKey, Insert;
    InsertKeys(tool.fields, key, value);
  }

  /** A block is a tool call exactly when it names a tool, and then its fields are those of its members. */
  lemma UseFields(lib: Library, block: JsonObject, promote: bool)
    ensures var tool := ClaudeToolUse(lib, block, promote);
            && (tool.Some? <==> exists name :: Says(block, "name", name))
            && (tool.Some? ==> IsToolUse(lib, block, promote, tool.value))
  {
    hide Lookup, HasKey, GetText, GetCompact, Says, SaysValue, ClaudeToolFields, PromoteSkill, InsertDerived;
    hide PlainUseField;
    SaysIff(block);
    var name := GetText(block, "name");
    if name.Some? {
      var plain := ClaudeToolFields(lib, block, name.value);
      assert Says(block, "name", name.value);
      PlainUseFields(lib, block, name.value);
      ClaudeFieldsAreSound(lib, block, name.value);
      if promote && name.value == "Bash" {
        if HasObject(block, "input") {
          SaysValueIff(lib, block["input"].fields);
          var command := GetCompact(lib, block["input"].fields, "command");
          if command.Some? {
            DerivedLookup(plain, "command", command.value);
          }
        }
      } else if promote && name.value == "Skill" {
        SkillFieldsPromoted(plain, block);
      }
    }
  }

  ghost predicate ResultField(block: JsonObject, k: string, v: string) {
    || (k == "event" && v == "tool_result")
    || (k == "tool_use_id" && Says(block, "tool_use_id", v))
    || (k == "is_error" && v == "true" && "is_error" in block && block["is_error"] == Bool(true))
    || (k == "output" && SaysResult(ClaudeCode, block, "content", v))
  }

  ghost predicate IsToolResult(block: JsonObject, tool: ToolEvent) {
    && (exists k, v :: ResultField(block, k, v) && k != "event")
    && (forall k, v :: Lookup(tool.fields, k) == Some(v) <==> ResultField(block, k, v))
    && tool.derived == {}
  }

  /** A block is a tool result exactly when it says anything but that it is one. */
  lemma ResultFields(block: JsonObject)
    ensures var tool := ClaudeToolResult(block);
            && (tool.Some? <==> exists k, v :: ResultField(block, k, v) && k != "event")
            && (tool.Some? ==> IsToolResult(block, tool.value))
  {
    hide Insert, InsertSome, Lookup, HasKey, GetText, Says, SaysResult, EventFields, ClaudeText, Leaves, Joined;
    SaysIff(block);
    SaysResultIff(ClaudeCode, block, "content");
    var id := GetText(block, "tool_use_id");
    var isError := "is_error" in block && block["is_error"] == Bool(true);
    var output := if "content" in block then ClaudeText(block["content"]) else None;
    if "content" in block {
      ClaudeResultText(block["content"]);
    }
    var start := EventFields("tool_result");
    EventLookup("tool_result");
    EventAlone("tool_result");
    var called := InsertSome(start, "tool_use_id", id);
    InsertSomeLookup(start, "tool_use_id", id);
    assert Lookup(start, "tool_use_id").None? && Lookup(called, "is_error").None?;
    InsertSomeGrows(start, "tool_use_id", id);
    var failed := if isError then Insert(called, "is_error", "true") else called;
    InsertLookup(called, "is_error", "true");
    InsertGrows(called, "is_error", "true");
    InsertSomeLookup(failed, "output", output);
    assert Lookup(failed, "output").None?;
    InsertSomeGrows(failed, "output", output);
    ResultIsSaid(block, id, isError, output);
  }

  lemma ResultIsSaid(block: JsonObject, id: Option<string>, isError: bool, output: Option<string>)
    requires forall v :: Says(block, "tool_use_id", v) <==> id == Some(v)
    requires isError <==> "is_error" in block && block["is_error"] == Bool(true)
    requires forall v :: SaysResult(ClaudeCode, block, "content", v) <==> output == Some(v)
    ensures (exists k, v :: ResultField(block, k, v) && k != "event") <==> id.Some? || isError || output.Some?
  {
    hide Says, SaysResult;
    if id.Some? { assert ResultField(block, "tool_use_id", id.value); }
    if isError { assert ResultField(block, "is_error", "true"); }
    if output.Some? { assert ResultField(block, "output", output.value); }
  }

  // ----- Claude Code records

  function EventsOf(class_: Class): seq<Event> {
    if class_.Content? then class_.events else []
  }

  /** The block gives this event. */
  ghost predicate BlockGives(lib: Library, block: Json, assistant: bool, promote: bool, event: Event) {
    block.Object? &&
    match event
    case User(t) => !assistant && Is(block.fields, "type", "text") && Says(block.fields, "text", t)
    case Assistant(t) => assistant && Is(block.fields, "type", "text") && Says(block.fields, "text", t)
    case Tool(tool) =>
      || (assistant && Is(block.fields, "type", "tool_use") && IsToolUse(lib, block.fields, promote, tool))
      || (!assistant && Is(block.fields, "type", "tool_result") && IsToolResult(block.fields, tool))
  }

  /** The block gives some event, in terms of its members alone. */
  ghost predicate BlockCarries(block: Json, assistant: bool) {
    && block.Object?
    && (|| (Is(block.fields, "type", "text") && exists t :: Says(block.fields, "text", t))
        || (assistant && Is(block.fields, "type", "tool_use") && exists t :: Says(block.fields, "name", t))
        || (!assistant && Is(block.fields, "type", "tool_result")
            && exists k, v :: ResultField(block.fields, k, v) && k != "event"))
  }

  lemma BlockLaw(lib: Library, block: Json, assistant: bool, promote: bool)
    ensures var kind := BlockType(block);
            var event := if kind.Some? then ClaudeBlock(lib, block.fields, kind.value, assistant, promote) else None;
            && (event.Some? <==> BlockCarries(block, assistant))
            && (event.Some? ==> BlockGives(lib, block, assistant, promote, event.value))
            && (kind.Some? <==> block.Object? && "type" in block.fields && block.fields["type"].String?)
  {
    hide Says, GetText, IsToolUse, IsToolResult, ResultField, ClaudeToolUse, ClaudeToolResult;
    if block.Object? {
      SaysIff(block.fields);
      UseFields(lib, block.fields, promote);
      ResultFields(block.fields);
      var text := GetText(block.fields, "text");
      assert text.Some? ==> Says(block.fields, "text", text.value);
    }
  }

  predicate Rises(at: seq<nat>) {
    forall i, j :: 0 <= i < j < |at| ==> at[i] < at[j]
  }

  ghost predicate GivenAt(lib: Library, blocks: seq<Json>, assistant: bool, promote: bool, events: seq<Event>, at: seq<nat>) {
    && |at| == |events|
    && forall i :: 0 <= i < |at| ==> at[i] < |blocks| && BlockGives(lib, blocks[at[i]], assistant, promote, events[i])
  }

  ghost predicate CarriedAt(blocks: seq<Json>, assistant: bool, at: seq<nat>) {
    forall k :: 0 <= k < |blocks| ==> (BlockCarries(blocks[k], assistant) <==> k in at)
  }

  /** The events are those of the blocks at these places, in order, and no other block gives any. */
  ghost predicate EventsStandAt(lib: Library, blocks: seq<Json>, assistant: bool, promote: bool, events: seq<Event>, at: seq<nat>) {
    && Rises(at)
    && GivenAt(lib, blocks, assistant, promote, events, at)
    && CarriedAt(blocks, assistant, at)
  }

  lemma RisesOn(at: seq<nat>, n: nat)
    requires Rises(at) && forall k :: k in at ==> k < n
    ensures Rises(at + [n])
  {
    assert forall i :: 0 <= i < |at| ==> at[i] in at;
  }

  lemma CarriedOn(blocks: seq<Json>, block: Json, assistant: bool, at: seq<nat>)
    requires CarriedAt(blocks, assistant, at) && forall k :: k in at ==> k < |blocks|
    ensures CarriedAt(blocks + [block], assistant, if BlockCarries(block, assistant) then at + [|blocks|] else at)
  {
    hide BlockCarries;
    var n := |blocks|;
    var later := if BlockCarries(block, assistant) then at + [n] else at;
    forall k | 0 <= k < n + 1
      ensures BlockCarries((blocks + [block])[k], assistant) <==> k in later
    {
      assert k in later <==> k in at || (BlockCarries(block, assistant) && k == n);
    }
  }

  lemma AnotherBlock(lib: Library, blocks: seq<Json>, block: Json, assistant: bool, promote: bool,
                     events: seq<Event>, at: seq<nat>, event: Option<Event>)
    requires EventsStandAt(lib, blocks, assistant, promote, events, at)
    requires event.Some? <==> BlockCarries(block, assistant)
    requires event.Some? ==> BlockGives(lib, block, assistant, promote, event.value)
    ensures EventsStandAt(lib, blocks + [block], assistant, promote,
                          if event.Some? then events + [event.value] else events,
                          if event.Some? then at + [|blocks|] else at)
  {
    hide BlockGives, BlockCarries, Rises, CarriedAt;
    assert forall k :: k in at ==> k < |blocks|;
    RisesOn(at, |blocks|);
    CarriedOn(blocks, block, assistant, at);
  }

  lemma {:induction false} EventsStand(lib: Library, blocks: seq<Json>, assistant: bool, promote: bool) returns (at: seq<nat>)
    ensures EventsStandAt(lib, blocks, assistant, promote, ClaudeEvents(lib, blocks, assistant, promote), at)
    decreases |blocks|
  {
    hide BlockGives, BlockCarries, ClaudeBlock, BlockType, EventsStandAt;
    if blocks == [] {
      at := [];
      NoEventsStand(lib, assistant, promote);
    } else {
      var n := |blocks| - 1;
      var before := EventsStand(lib, blocks[..n], assistant, promote);
      BlockLaw(lib, blocks[n], assistant, promote);
      var kind := BlockType(blocks[n]);
      var event := if kind.Some? then ClaudeBlock(lib, blocks[n].fields, kind.value, assistant, promote) else None;
      AnotherBlock(lib, blocks[..n], blocks[n], assistant, promote,
                   ClaudeEvents(lib, blocks[..n], assistant, promote), before, event);
      assert blocks[..n] + [blocks[n]] == blocks;
      at := if event.Some? then before + [n] else before;
    }
  }

  lemma NoEventsStand(lib: Library, assistant: bool, promote: bool)
    ensures EventsStandAt(lib, [], assistant, promote, [], [])
  {
  }

  predicate IsTyped(block: Json) {
    block.Object? && "type" in block.fields && block.fields["type"].String?
  }

  /** What a Claude Code record of either side gives. A list gives the events of its blocks in order; a
      text gives its core as one message; the rest gives nothing. No message of one side comes from a
      record of the other. */
  lemma ClaudeRecordLaw(lib: Library, record: JsonObject, promote: bool, assistant: bool)
    requires Is(record, "type", if assistant then "assistant" else "user")
    ensures var class_ := ClassifyRecord(lib, ClaudeCode, record, promote);
            var has := HasObject(record, "message") && "content" in record["message"].fields;
            && (forall e :: e in EventsOf(class_) ==> if assistant then !e.User? else !e.Assistant?)
            && (has && record["message"].fields["content"].Array? ==>
                  var blocks := record["message"].fields["content"].items;
                  && (exists at :: EventsStandAt(lib, blocks, assistant, promote, EventsOf(class_), at))
                  && (class_.Content? <==> exists b :: b in blocks && BlockCarries(b, assistant))
                  && (!class_.Content? ==> class_ == if exists b :: b in blocks && IsTyped(b) then Blank else Ignored(record["type"].text)))
            && (has && record["message"].fields["content"].String? ==>
                  var text := record["message"].fields["content"].text;
                  && (forall t :: IsCore(text, t) ==> class_ == Content([if assistant then Assistant(t) else User(t)]))
                  && ((forall t :: !IsCore(text, t)) ==> class_ == Blank))
            && (!has || !(record["message"].fields["content"].Array? || record["message"].fields["content"].String?) ==>
                  class_ == Ignored(record["type"].text))
  {
    hide ClaudeEvents, HasTypedBlock, EventsStandAt, BlockCarries, BlockType, IsCore, NonEmpty, IsClaudeBookkeeping;
    if HasObject(record, "message") && "content" in record["message"].fields {
      var content := record["message"].fields["content"];
      if content.String? {
        CoresIff(content.text);
      } else if content.Array? {
        var at := EventsStand(lib, content.items, assistant, promote);
        BlocksGiveIff(lib, content.items, assistant, promote, ClaudeEvents(lib, content.items, assistant, promote), at);
        TypedIff(content.items);
      }
    }
  }

  lemma BlocksGiveIff(lib: Library, blocks: seq<Json>, assistant: bool, promote: bool, events: seq<Event>, at: seq<nat>)
    requires EventsStandAt(lib, blocks, assistant, promote, events, at)
    ensures events != [] <==> exists b :: b in blocks && BlockCarries(b, assistant)
    ensures forall e :: e in events ==> if assistant then !e.User? else !e.Assistant?
  {
    hide Says, IsToolUse, IsToolResult, BlockCarries, Rises;
    if events != [] {
      assert at[0] in at && BlockCarries(blocks[at[0]], assistant);
    }
    if b :| b in blocks && BlockCarries(b, assistant) {
      var k :| 0 <= k < |blocks| && blocks[k] == b;
      assert k in at;
    }
  }

  lemma TypedIff(blocks: seq<Json>)
    ensures HasTypedBlock(blocks) <==> exists b :: b in blocks && IsTyped(b)
  {
    if b :| b in blocks && BlockType(b).Some? {
      assert IsTyped(b);
    }
    if b :| b in blocks && IsTyped(b) {
      assert BlockType(b).Some?;
    }
  }

  /** No other Claude Code record gives an event. */
  lemma OtherClaudeRecords(lib: Library, record: JsonObject, promote: bool)
    requires !Is(record, "type", "user") && !Is(record, "type", "assistant")
    ensures !ClassifyRecord(lib, ClaudeCode, record, promote).Content?
  {
    hide IsClaudeBookkeeping;
  }

  predicate IsKnown(kind: string) {
    || kind == "user" || kind == "assistant"
    || kind in [
         "agent-name", "ai-title", "attachment", "file-history-delta", "file-history-snapshot", "frame-link",
         "last-prompt", "mode", "permission-mode", "pr-link", "queue-operation", "summary", "system"]
  }

  /** A record is unknown exactly when its kind is none of these, and one that is passed over says which. */
  lemma UnknownIff(lib: Library, record: JsonObject, promote: bool)
    ensures var class_ := ClassifyRecord(lib, ClaudeCode, record, promote);
            && (class_ == Unknown <==> !(HasText(record, "type") && IsKnown(record["type"].text)))
            && (class_.Ignored? ==> Is(record, "type", class_.kind))
  {
    hide ClaudeEvents, HasTypedBlock, NonEmpty;
    KnownKinds();
    hide IsClaudeBookkeeping, IsKnown;
  }

  lemma KnownKinds()
    ensures forall kind :: IsKnown(kind) <==> kind == "user" || kind == "assistant" || IsClaudeBookkeeping(kind)
  {
  }
}
