/** The event of a Codex record, said over the record's own members. */
module CodexRecords {
  import opened Wrappers
  import opened Text
  import opened Trimming
  import opened Identity
  import opened JsonValue
  import opened ToolEvents
  import opened Classify
  import opened RecordTexts

  /** A text block of a Codex message. */
  ghost predicate TextBlockSays(block: Json, t: string) {
    && block.Object?
    && (Is(block.fields, "type", "input_text") || Is(block.fields, "type", "output_text") || Is(block.fields, "type", "text"))
    && Says(block.fields, "text", t)
  }

  /** The texts of the text blocks that have one, in order. */
  ghost function MessageTexts(blocks: seq<Json>): seq<string> {
    if blocks == [] then []
    else (if t :| TextBlockSays(blocks[0], t) then [t] else []) + MessageTexts(blocks[1..])
  }

  lemma {:induction false} TextsOfBlocks(blocks: seq<Json>)
    ensures CodexMessageTexts(blocks) == MessageTexts(blocks)
    ensures forall p :: p in MessageTexts(blocks) ==> p != "" && Trimmed(p)
  {
    hide IsCore, GetText;
    if blocks != [] {
      TextsOfBlocks(blocks[1..]);
      if blocks[0].Object? {
        SaysIff(blocks[0].fields);
        var text := GetText(blocks[0].fields, "text");
        if text.Some? {
          var t := text.value;
          assert Says(blocks[0].fields, "text", t);
          assert forall u :: TextBlockSays(blocks[0], u) ==> u == t;
          assert TextBlockSays(blocks[0], t) <==> BlockType(blocks[0]) in [Some("input_text"), Some("output_text"), Some("text")];
          CoreIsTrimmed(blocks[0].fields["text"].text, text.value);
        }
      }
    }
  }

  lemma CoreIsTrimmed(s: string, t: string)
    requires IsCore(s, t)
    ensures t != "" && Trimmed(t)
  {
  }

  lemma {:induction false} JoinIsTrimmed(parts: seq<string>)
    requires parts != [] && forall p :: p in parts ==> p != "" && Trimmed(p)
    ensures var whole := Join(parts, "\n");
            && parts[0] in parts && whole != "" && whole[0] == parts[0][0]
            && Trimmed(whole) && NonEmpty(whole) == Some(whole)
  {
    hide IsWhitespace, Trim;
    assert parts[0] in parts;
    if |parts| > 1 {
      assert forall p :: p in parts[1..] ==> p in parts;
      JoinIsTrimmed(parts[1..]);
      var rest := Join(parts[1..], "\n");
      var whole := Join(parts, "\n");
      assert whole == parts[0] + ("\n" + rest);
      assert whole[|whole| - 1] == rest[|rest| - 1];
    }
    TrimmedIsFixed(Join(parts, "\n"));
  }

  ghost predicate PlainCallField(payload: JsonObject, kind: string, k: string, v: string) {
    || (k == "event" && v == kind)
    || (k == "call_id" && Says(payload, "call_id", v))
    || (k == "name" && Says(payload, "name", v))
    || (k == "arguments" && Says(payload, "arguments", v))
    || (k == "input" && Says(payload, "input", v) && forall t :: !Says(payload, "arguments", t))
  }

  /** The command in the JSON text of a shell call's arguments. */
  ghost predicate ArgumentsSay(lib: Library, arguments: string, v: string) {
    && lib.parse(arguments).Some? && lib.parse(arguments).value.Object?
    && SaysValue(lib, lib.parse(arguments).value.fields, "command", v)
  }

  ghost predicate IsCodexCall(lib: Library, payload: JsonObject, kind: string, promote: bool, tool: ToolEvent) {
    && (exists id :: Says(payload, "call_id", id))
    && (forall k, v :: Lookup(tool.fields, k) == Some(v) <==>
          || PlainCallField(payload, kind, k, v)
          || (promote && kind == "function_call" && Says(payload, "name", "shell") && k == "command"
              && exists a :: Says(payload, "arguments", a) && ArgumentsSay(lib, a, v)))
    && DerivesPromoted(tool)
  }

  ghost predicate IsCodexOutput(payload: JsonObject, tool: ToolEvent) {
    && (exists id :: Says(payload, "call_id", id))
    && (forall k, v :: Lookup(tool.fields, k) == Some(v) <==>
          || (k == "event" && v == "function_call_output")
          || (k == "call_id" && Says(payload, "call_id", v))
          || (k == "output" && SaysResult(Codex, payload, "output", v)))
    && tool.derived == {}
  }

  ghost predicate ActionField(lib: Library, payload: JsonObject, k: string, v: string) {
    || (k == "call_id" && Says(payload, "call_id", v))
    || (k == "command" && HasObject(payload, "action") && SaysValue(lib, payload["action"].fields, "command", v))
  }

  ghost predicate IsLocalShell(lib: Library, payload: JsonObject, tool: ToolEvent) {
    && (exists k, v :: ActionField(lib, payload, k, v))
    && (forall k, v :: Lookup(tool.fields, k) == Some(v) <==>
          (k == "event" && v == "local_shell_call") || ActionField(lib, payload, k, v))
    && tool.derived == {}
  }

  lemma PlainCallFields(payload: JsonObject, kind: string, id: string)
    requires Says(payload, "call_id", id)
    ensures forall k, v :: Lookup(CodexToolFields(payload, kind, id).fields, k) == Some(v) <==> PlainCallField(payload, kind, k, v)
  {
    hide Insert, InsertSome, Lookup, GetText, Says, EventFields;
    SaysIff(payload);
    var called := Insert(EventFields(kind), "call_id", id);
    var named := InsertSome(called, "name", GetText(payload, "name"));
    var arguments := GetText(payload, "arguments");
    EventLookup(kind);
    InsertLookup(EventFields(kind), "call_id", id);
    InsertSomeLookup(called, "name", GetText(payload, "name"));
    if arguments.Some? {
      assert Says(payload, "arguments", arguments.value);
      InsertLookup(named, "arguments", arguments.value);
    } else {
      InsertSomeLookup(named, "input", GetText(payload, "input"));
    }
  }

  lemma ShellCommandIs(lib: Library, arguments: string)
    ensures forall v :: ArgumentsSay(lib, arguments, v) <==> CodexShellCommand(lib, arguments) == Some(v)
  {
    hide SaysValue, GetCompact;
    if lib.parse(arguments).Some? && lib.parse(arguments).value.Object? {
      SaysValueIff(lib, lib.parse(arguments).value.fields);
    }
  }

  lemma CodexCallFields(lib: Library, payload: JsonObject, kind: string, promote: bool)
    ensures var tool := CodexToolCall(lib, payload, kind, promote);
            && (tool.Some? <==> exists id :: Says(payload, "call_id", id))
            && (tool.Some? ==> IsCodexCall(lib, payload, kind, promote, tool.value))
  {
    hide Lookup, HasKey, GetText, Says, CodexToolFields, InsertDerived, CodexShellCommand, ArgumentsSay;
    SaysIff(payload);
    var id := GetText(payload, "call_id");
    if id.Some? {
      assert Says(payload, "call_id", id.value);
      var plain := CodexToolFields(payload, kind, id.value);
      PlainCallFields(payload, kind, id.value);
      CodexFieldsAreSound(payload, kind, id.value);
      var arguments := GetText(payload, "arguments");
      if arguments.Some? {
        assert Says(payload, "arguments", arguments.value);
        ShellCommandIs(lib, arguments.value);
        var command := CodexShellCommand(lib, arguments.value);
        if command.Some? {
          DerivedLookup(plain, "command", command.value);
        }
      }
    }
  }

  lemma CodexOutputFields(payload: JsonObject)
    ensures var tool := CodexToolOutput(payload);
            && (tool.Some? <==> exists id :: Says(payload, "call_id", id))
            && (tool.Some? ==> IsCodexOutput(payload, tool.value))
  {
    hide Insert, InsertSome, Lookup, GetText, Says, SaysResult, EventFields, CodexText, Leaves, Joined;
    SaysIff(payload);
    SaysResultIff(Codex, payload, "output");
    if "output" in payload {
      CodexResultText(payload["output"]);
    }
    var id := GetText(payload, "call_id");
    if id.Some? {
      assert Says(payload, "call_id", id.value);
      var start := EventFields("function_call_output");
      EventLookup("function_call_output");
      InsertLookup(start, "call_id", id.value);
      InsertSomeLookup(Insert(start, "call_id", id.value), "output",
                       if "output" in payload then CodexText(payload["output"]) else None);
    }
  }

  lemma LocalShellFields(lib: Library, payload: JsonObject)
    ensures var tool := CodexLocalShell(lib, payload);
            && (tool.Some? <==> exists k, v :: ActionField(lib, payload, k, v))
            && (tool.Some? ==> IsLocalShell(lib, payload, tool.value))
  {
    hide Insert, InsertSome, Lookup, HasKey, GetText, GetCompact, Says, SaysValue, EventFields;
    SaysIff(payload);
    if HasObject(payload, "action") {
      SaysValueIff(lib, payload["action"].fields);
    }
    var id, command := GetText(payload, "call_id"), NestedCompact(lib, payload, "action", "command");
    var start := EventFields("local_shell_call");
    var called := InsertSome(start, "call_id", id);
    EventLookup("local_shell_call");
    EventAlone("local_shell_call");
    InsertSomeLookup(start, "call_id", id);
    InsertSomeLookup(called, "command", command);
    assert Lookup(start, "call_id").None? && Lookup(called, "command").None?;
    InsertSomeGrows(start, "call_id", id);
    InsertSomeGrows(called, "command", command);
    if id.Some? { assert ActionField(lib, payload, "call_id", id.value); }
    if command.Some? { assert ActionField(lib, payload, "command", command.value); }
  }

  ghost predicate CodexToolGives(lib: Library, payload: JsonObject, promote: bool, tool: ToolEvent) {
    || (Is(payload, "type", "function_call") && IsCodexCall(lib, payload, "function_call", promote, tool))
    || (Is(payload, "type", "custom_tool_call") && IsCodexCall(lib, payload, "custom_tool_call", promote, tool))
    || ((Is(payload, "type", "function_call_output") || Is(payload, "type", "custom_tool_call_output")) && IsCodexOutput(payload, tool))
    || (Is(payload, "type", "local_shell_call") && IsLocalShell(lib, payload, tool))
  }

  /** The message is all its text blocks say. */
  ghost predicate MessageSays(payload: JsonObject, role: string, t: string) {
    && Is(payload, "type", "message") && Is(payload, "role", role)
    && "content" in payload && payload["content"].Array?
    && MessageTexts(payload["content"].items) != []
    && t == Join(MessageTexts(payload["content"].items), "\n")
  }

  /** The record gives this event. */
  ghost predicate CodexGives(lib: Library, record: JsonObject, promote: bool, event: Event) {
    Is(record, "type", "response_item") && HasObject(record, "payload") &&
    var payload := record["payload"].fields;
    match event
    case User(t) => MessageSays(payload, "user", t)
    case Assistant(t) => MessageSays(payload, "assistant", t)
    case Tool(tool) => CodexToolGives(lib, payload, promote, tool)
  }

  lemma CodexToolLaw(lib: Library, payload: JsonObject, kind: string, promote: bool)
    requires Is(payload, "type", kind) && kind != "message"
    ensures var class_ := ClassifyCodexItem(lib, payload, kind, promote);
            && (class_.Content? ==>
                  && |class_.events| == 1 && class_.events[0].Tool?
                  && CodexToolGives(lib, payload, promote, class_.events[0].tool))
            && (!class_.Content? ==> forall t :: !CodexToolGives(lib, payload, promote, t))
  {
    hide CodexToolCall, CodexToolOutput, CodexLocalShell, Lookup, Says, PlainCallField, ArgumentsSay, ActionField, CodexMessage;
    CodexCallFields(lib, payload, kind, promote);
    CodexOutputFields(payload);
    LocalShellFields(lib, payload);
  }

  lemma CodexMessageLaw(payload: JsonObject)
    requires Is(payload, "type", "message")
    ensures var class_ := CodexMessage(payload, "message");
            && (class_.Content? ==>
                  && |class_.events| == 1
                  && match class_.events[0]
                     case User(t) => MessageSays(payload, "user", t)
                     case Assistant(t) => MessageSays(payload, "assistant", t)
                     case Tool(_) => false)
            && (!class_.Content? ==> forall t :: !MessageSays(payload, "user", t) && !MessageSays(payload, "assistant", t))
  {
    hide NonEmpty, Join, CodexMessageTexts, MessageTexts;
    if "content" in payload && payload["content"].Array? {
      TextsOfBlocks(payload["content"].items);
      var texts := MessageTexts(payload["content"].items);
      if texts != [] {
        JoinIsTrimmed(texts);
      } else {
        NothingJoined();
      }
    } else {
      NothingJoined();
    }
  }

  lemma NothingJoined()
    ensures Join([], "\n") == "" && NonEmpty("") == None
  {
  }

  /** A Codex record gives at most one event, and exactly what its payload says. */
  lemma CodexRecordLaw(lib: Library, record: JsonObject, promote: bool)
    ensures var class_ := ClassifyRecord(lib, Codex, record, promote);
            && (class_.Content? ==> |class_.events| == 1 && CodexGives(lib, record, promote, class_.events[0]))
            && (!class_.Content? ==> forall e :: !CodexGives(lib, record, promote, e))
  {
    hide IsCodexMetadata, CodexMessage, CodexToolCall, CodexToolOutput, CodexLocalShell;
    hide IsCodexCall, IsCodexOutput, IsLocalShell, MessageTexts, Join;
    MetadataKinds();
    if HasObject(record, "payload") && HasText(record["payload"].fields, "type") {
      var payload := record["payload"].fields;
      var kind := payload["type"].text;
      if kind == "message" {
        CodexMessageLaw(payload);
      } else {
        CodexToolLaw(lib, payload, kind, promote);
      }
    }
  }

  predicate IsKnownItem(kind: string) {
    || kind == "message" || kind == "function_call" || kind == "custom_tool_call" || kind == "function_call_output"
    || kind == "custom_tool_call_output" || kind == "local_shell_call" || kind == "reasoning" || kind == "web_search_call"
  }

  /** A record is unknown exactly when it is neither metadata nor a response item, or its item's kind is
      none of these; metadata and items without an object or a kind are passed over. */
  lemma UnknownIff(lib: Library, record: JsonObject, promote: bool)
    ensures var class_ := ClassifyRecord(lib, Codex, record, promote);
            var isMetadata := Is(record, "type", "compacted") || Is(record, "type", "event_msg")
                              || Is(record, "type", "session_meta") || Is(record, "type", "turn_context");
            var item := if HasObject(record, "payload") then GetString(record["payload"].fields, "type") else None;
            && (class_ == Unknown <==>
                  !isMetadata && (Is(record, "type", "response_item") ==> item.Some? && !IsKnownItem(item.value)))
            && (isMetadata || (Is(record, "type", "response_item") && item.None?) ==> class_ == Ignored(record["type"].text))
            && (Is(record, "type", "response_item") && (item == Some("reasoning") || item == Some("web_search_call")) ==>
                  class_ == Ignored(item.value))
  {
    hide CodexMessageTexts, NonEmpty, Join, CodexToolCall, CodexToolOutput, CodexLocalShell;
    MetadataKinds();
    hide IsCodexMetadata;
  }

  lemma MetadataKinds()
    ensures forall kind :: IsCodexMetadata(kind) <==>
                           kind == "compacted" || kind == "event_msg" || kind == "session_meta" || kind == "turn_context"
    ensures !IsCodexMetadata("response_item")
  {
  }
}
