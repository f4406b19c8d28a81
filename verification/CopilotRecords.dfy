/** The event of a Copilot record, said over the record's own members. */
module CopilotRecords {
  import opened Wrappers
  import opened Text
  import opened Trimming
  import opened Identity
  import opened JsonValue
  import opened ToolEvents
  import opened Classify
  import opened RecordTexts

  ghost predicate CallField(lib: Library, event: string, data: JsonObject, k: string, v: string) {
    || (k == "event" && v == event)
    || (k == "tool_call_id" && Is(data, "toolCallId", v))
    || (k == "name" && Is(data, "toolName", v))
    || (k == "arguments" && SaysValue(lib, data, "arguments", v))
  }

  ghost predicate ShellField(lib: Library, data: JsonObject, k: string, v: string) {
    && (Is(data, "toolName", "bash") || Is(data, "toolName", "local_shell"))
    && k == "command" && HasObject(data, "arguments") && SaysValue(lib, data["arguments"].fields, "command", v)
  }

  ghost predicate IsBuiltinCall(lib: Library, event: string, data: JsonObject, promote: bool, tool: ToolEvent) {
    && HasText(data, "toolCallId") && HasText(data, "toolName")
    && (forall k, v :: Lookup(tool.fields, k) == Some(v) <==>
          CallField(lib, event, data, k, v) || (promote && ShellField(lib, data, k, v)))
    && DerivesPromoted(tool)
  }

  ghost predicate IsExternalCall(lib: Library, data: JsonObject, tool: ToolEvent) {
    && HasText(data, "toolCallId") && HasText(data, "toolName")
    && (forall k, v :: Lookup(tool.fields, k) == Some(v) <==>
          CallField(lib, "external_tool.requested", data, k, v) || (k == "request_id" && Says(data, "requestId", v)))
    && tool.derived == {}
  }

  ghost predicate IsExternalEnd(data: JsonObject, tool: ToolEvent) {
    && (exists id :: Says(data, "requestId", id))
    && (forall k, v :: Lookup(tool.fields, k) == Some(v) <==>
          (k == "event" && v == "external_tool.completed") || (k == "request_id" && Says(data, "requestId", v)))
    && tool.derived == {}
  }

  predicate IsSkillKey(k: string) {
    k == "name" || k == "path" || k == "description" || k == "source" || k == "trigger" || k == "model" || k == "content"
  }

  ghost predicate IsSkillCall(data: JsonObject, promote: bool, tool: ToolEvent) {
    && (exists name :: Says(data, "name", name))
    && (forall k, v :: Lookup(tool.fields, k) == Some(v) <==>
          || (k == "event" && v == "skill.invoked")
          || (IsSkillKey(k) && Says(data, k, v))
          || (promote && k == "skill" && Says(data, "name", v)))
    && DerivesPromoted(tool)
  }

  /** The result's `content`, then the texts of its `contents`. */
  ghost function OutputParts(result: JsonObject): seq<string> {
    (if "content" in result then Leaves(Copilot, result["content"]) else [])
    + (if "contents" in result then Leaves(Copilot, result["contents"]) else [])
  }

  ghost predicate IsWellFormedEnd(data: JsonObject) {
    && HasText(data, "toolCallId")
    && "success" in data && data["success"].Bool?
    && ("result" in data ==>
          && data["result"].Object?
          && var result := data["result"].fields;
             && ("content" in result ==> result["content"].String?)
             && ("contents" in result ==> result["contents"].Array?)
             && ("content" in result || ("contents" in result && Leaves(Copilot, result["contents"]) != [])))
    && ("error" in data ==> data["error"].Object? && HasText(data["error"].fields, "message"))
  }

  ghost predicate EndField(data: JsonObject, k: string, v: string) {
    || (k == "event" && v == "tool.execution_complete")
    || (k == "tool_call_id" && Is(data, "toolCallId", v))
    || (k == "success" && "success" in data && ((data["success"] == Bool(true) && v == "true") || (data["success"] == Bool(false) && v == "false")))
    || (k == "error" && HasObject(data, "error") && Says(data["error"].fields, "message", v))
    || (k == "output" && HasObject(data, "result") && OutputParts(data["result"].fields) != []
        && v == Join(OutputParts(data["result"].fields), "\n"))
  }

  ghost predicate IsCallEnd(data: JsonObject, tool: ToolEvent) {
    && IsWellFormedEnd(data)
    && (forall k, v :: Lookup(tool.fields, k) == Some(v) <==> EndField(data, k, v))
    && tool.derived == {}
  }

  lemma CallFields(lib: Library, event: string, data: JsonObject)
    requires ValidToolStart(data)
    ensures forall k, v :: Lookup(ToolInvocation(lib, event, data).fields, k) == Some(v) <==> CallField(lib, event, data, k, v)
  {
    hide Insert, InsertSome, Lookup, GetCompact, SaysValue, EventFields;
    SaysValueIff(lib, data);
    var start := EventFields(event);
    var called := Insert(start, "tool_call_id", data["toolCallId"].text);
    var named := Insert(called, "name", data["toolName"].text);
    EventLookup(event);
    InsertLookup(start, "tool_call_id", data["toolCallId"].text);
    InsertLookup(called, "name", data["toolName"].text);
    InsertSomeLookup(named, "arguments", GetCompact(lib, data, "arguments"));
  }

  lemma BuiltinFields(lib: Library, event: string, data: JsonObject, promote: bool)
    requires ValidToolStart(data)
    ensures IsBuiltinCall(lib, event, data, promote, BuiltinInvocation(lib, event, data, promote))
  {
    hide Lookup, HasKey, ToolInvocation, InsertDerived, GetCompact, SaysValue;
    CallFields(lib, event, data);
    InvocationIsFrozen(lib, event, data);
    var tool := ToolInvocation(lib, event, data);
    InvocationHasNo(lib, event, data, "command");
    InvocationHasNo(lib, event, data, "skill");
    InvocationHasNo(lib, event, data, "skill_args");
    if HasObject(data, "arguments") {
      SaysValueIff(lib, data["arguments"].fields);
      var command := GetCompact(lib, data["arguments"].fields, "command");
      if command.Some? {
        DerivedLookup(tool, "command", command.value);
      }
    }
  }

  lemma ExternalFields(lib: Library, data: JsonObject)
    requires ValidToolStart(data)
    ensures IsExternalCall(lib, data, ExternalRequest(lib, data))
  {
    hide Lookup, InsertSome, ToolInvocation, GetText, Says, SaysValue;
    CallFields(lib, "external_tool.requested", data);
    SaysIff(data);
    var tool := ToolInvocation(lib, "external_tool.requested", data);
    InsertSomeLookup(tool.fields, "request_id", GetText(data, "requestId"));
  }

  lemma ExternalEndFields(data: JsonObject)
    ensures var tool := ExternalCompleted(data);
            && (tool.Some? <==> exists id :: Says(data, "requestId", id))
            && (tool.Some? ==> IsExternalEnd(data, tool.value))
  {
    hide Lookup, Insert, GetText, Says, EventFields;
    SaysIff(data);
    EventLookup("external_tool.completed");
    var id := GetText(data, "requestId");
    if id.Some? {
      assert Says(data, "requestId", id.value);
      InsertLookup(EventFields("external_tool.completed"), "request_id", id.value);
    }
  }

  lemma PlainSkillFields(data: JsonObject, name: string)
    requires Says(data, "name", name)
    ensures forall k, v :: Lookup(SkillFields(data, name).fields, k) == Some(v) <==>
                           (k == "event" && v == "skill.invoked") || (IsSkillKey(k) && Says(data, k, v))
    ensures forall other :: Says(data, "name", other) <==> other == name
  {
    hide Lookup, Insert, InsertSome, GetText, Says, EventFields;
    SaysIff(data);
    var f0 := Insert(EventFields("skill.invoked"), "name", name);
    var f1 := InsertSome(f0, "path", GetText(data, "path"));
    var f2 := InsertSome(f1, "description", GetText(data, "description"));
    var f3 := InsertSome(f2, "source", GetText(data, "source"));
    var f4 := InsertSome(f3, "trigger", GetText(data, "trigger"));
    var f5 := InsertSome(f4, "model", GetText(data, "model"));
    EventLookup("skill.invoked");
    InsertLookup(EventFields("skill.invoked"), "name", name);
    InsertSomeLookup(f0, "path", GetText(data, "path"));
    InsertSomeLookup(f1, "description", GetText(data, "description"));
    InsertSomeLookup(f2, "source", GetText(data, "source"));
    InsertSomeLookup(f3, "trigger", GetText(data, "trigger"));
    InsertSomeLookup(f4, "model", GetText(data, "model"));
    InsertSomeLookup(f5, "content", GetText(data, "content"));
  }

  lemma SkillCallFields(data: JsonObject, promote: bool)
    ensures var tool := SkillInvoked(data, promote);
            && (tool.Some? <==> exists name :: Says(data, "name", name))
            && (tool.Some? ==> IsSkillCall(data, promote, tool.value))
  {
    hide Lookup, HasKey, SkillFields, InsertDerived, GetText, Says;
    SaysIff(data);
    var name := GetText(data, "name");
    if name.Some? {
      assert Says(data, "name", name.value);
      PlainSkillFields(data, name.value);
      SkillFieldsAreSound(data, name.value);
      var plain := SkillFields(data, name.value);
      assert Lookup(plain.fields, "command").None? && Lookup(plain.fields, "skill_args").None?;
      DerivedLookup(plain, "skill", name.value);
    }
  }

  lemma OutputIsParts(data: JsonObject)
    requires ValidToolComplete(data)
    ensures IsWellFormedEnd(data)
    ensures HasObject(data, "result") ==> CompleteOutput(data) == Joined(OutputParts(data["result"].fields))
    ensures !HasObject(data, "result") ==> CompleteOutput(data) == None
  {
    hide Join, NonEmpty, IsCore, Leaves, ResultText, ResultTexts;
    if HasObject(data, "result") {
      var result := data["result"].fields;
      var contents := if "contents" in result then ResultTexts(result["contents"].items) else [];
      if "contents" in result {
        CopilotResults(result["contents"].items);
        ListLeaves(Copilot, result["contents"]);
      }
      var rest := if "contents" in result then Leaves(Copilot, result["contents"]) else [];
      if "content" in result {
        TextLeaves(Copilot, result["content"]);
        var front := Leaves(Copilot, result["content"]);
        PartsNest(front, rest, contents);
        JoinOne(front);
        assert [] + contents == contents;
      } else {
        assert [] + rest == rest && [] + contents == contents;
      }
    }
  }

  lemma JoinOne(parts: seq<string>)
    ensures |parts| == 1 ==> Join(parts, "\n") == parts[0]
  {
  }

  lemma ListLeaves(source: SourceKind, value: Json)
    requires value.Array?
    ensures Leaves(source, value) == LeavesIn(source, value.items)
  {
  }

  lemma TextLeaves(source: SourceKind, value: Json)
    requires value.String?
    ensures Leaves(source, value) == match NonEmpty(value.text) case None => [] case Some(t) => [t]
  {
    hide NonEmpty, IsCore;
    CoresIff(value.text);
    var text := NonEmpty(value.text);
    if text.Some? {
      assert Leaf(source, value, text.value);
    }
  }

  lemma EndFields(data: JsonObject)
    requires ValidToolComplete(data)
    ensures IsCallEnd(data, ToolComplete(data))
  {
    hide Lookup, Insert, InsertSome, GetText, Says, EventFields, CompleteOutput, OutputParts, Join, IsWellFormedEnd;
    OutputIsParts(data);
    var start := EventFields("tool.execution_complete");
    var called := Insert(start, "tool_call_id", data["toolCallId"].text);
    var settled := Insert(called, "success", if data["success"].flag then "true" else "false");
    var error := match GetObject(data, "error") case None => None case Some(e) => GetText(e, "message");
    EventLookup("tool.execution_complete");
    InsertLookup(start, "tool_call_id", data["toolCallId"].text);
    InsertLookup(called, "success", if data["success"].flag then "true" else "false");
    InsertSomeLookup(settled, "error", error);
    InsertSomeLookup(InsertSome(settled, "error", error), "output", CompleteOutput(data));
    if HasObject(data, "error") {
      SaysIff(data["error"].fields);
    }
    hide ValidToolComplete;
  }

  lemma WellFormedEndIff(data: JsonObject)
    ensures ValidToolComplete(data) <==> IsWellFormedEnd(data)
  {
    hide ResultTexts, Join, Leaves;
    if "result" in data && data["result"].Object? {
      var result := data["result"].fields;
      if "contents" in result && result["contents"].Array? {
        CopilotResults(result["contents"].items);
        ListLeaves(Copilot, result["contents"]);
      }
    }
  }

  ghost predicate CopilotToolGives(lib: Library, record: JsonObject, data: JsonObject, promote: bool, tool: ToolEvent) {
    || (Is(record, "type", "tool.execution_start") && IsBuiltinCall(lib, "tool.execution_start", data, promote, tool))
    || (Is(record, "type", "tool.user_requested") && IsBuiltinCall(lib, "tool.user_requested", data, promote, tool))
    || (Is(record, "type", "tool.execution_complete") && IsCallEnd(data, tool))
    || (Is(record, "type", "skill.invoked") && IsSkillCall(data, promote, tool))
    || (Is(record, "type", "external_tool.requested") && IsExternalCall(lib, data, tool))
    || (Is(record, "type", "external_tool.completed") && IsExternalEnd(data, tool))
  }

  /** The record gives this event. */
  ghost predicate CopilotGives(lib: Library, record: JsonObject, promote: bool, event: Event) {
    HasObject(record, "data") &&
    var data := record["data"].fields;
    match event
    case User(t) => Is(record, "type", "user.message") && Says(data, "content", t)
    case Assistant(t) => Is(record, "type", "assistant.message") && HasText(data, "messageId") && Says(data, "content", t)
    case Tool(tool) => CopilotToolGives(lib, record, data, promote, tool)
  }

  lemma CopilotToolLaw(lib: Library, record: JsonObject, kind: string, data: JsonObject, promote: bool)
    requires Is(record, "type", kind)
    ensures var tool := CopilotTool(lib, kind, data, promote);
            && (tool.Some? ==> CopilotToolGives(lib, record, data, promote, tool.value))
            && (tool.None? ==> forall t :: !CopilotToolGives(lib, record, data, promote, t))
  {
    hide IsBuiltinCall, ValidToolComplete, IsWellFormedEnd, BuiltinInvocation, ExternalRequest, ToolComplete;
    hide SkillInvoked, ExternalCompleted, Lookup, Says, EndField, CallField, ShellField, IsSkillKey;
    if ValidToolStart(data) {
      BuiltinFields(lib, kind, data, promote);
      ExternalFields(lib, data);
    } else {
      NoBuiltinCall(lib, data, promote);
    }
    WellFormedEndIff(data);
    if ValidToolComplete(data) {
      EndFields(data);
    }
    SkillCallFields(data, promote);
    ExternalEndFields(data);
  }

  lemma NoBuiltinCall(lib: Library, data: JsonObject, promote: bool)
    requires !ValidToolStart(data)
    ensures forall event, tool :: !IsBuiltinCall(lib, event, data, promote, tool)
  {
  }

  /** A Copilot record gives at most one event, and exactly what its members say. */
  lemma CopilotRecordLaw(lib: Library, record: JsonObject, promote: bool)
    ensures var class_ := ClassifyRecord(lib, Copilot, record, promote);
            && (class_.Content? ==> |class_.events| == 1 && CopilotGives(lib, record, promote, class_.events[0]))
            && (!class_.Content? ==> forall e :: !CopilotGives(lib, record, promote, e))
  {
    hide CopilotTool, IsCopilotBookkeeping, IsBuiltinCall, IsCallEnd, IsSkillCall, IsExternalCall, IsExternalEnd, IsCore, NonEmpty;
    if HasObject(record, "data") && "type" in record && record["type"].String? {
      var data := record["data"].fields;
      CopilotToolLaw(lib, record, record["type"].text, data, promote);
      if HasText(data, "content") {
        CoresIff(data["content"].text);
      }
    }
  }

  /** The kinds of the pinned envelope: messages, tool activity, and the bookkeeping that is passed over. */
  predicate IsKnown(kind: string) {
    || kind == "user.message" || kind == "assistant.message"
    || kind == "tool.execution_start" || kind == "tool.user_requested" || kind == "tool.execution_complete"
    || kind == "skill.invoked" || kind == "external_tool.requested" || kind == "external_tool.completed"
    || kind in [
         "abort", "assistant.turn_end", "assistant.turn_start", "hook.end", "hook.start",
         "permission.completed", "permission.requested", "session.binary_asset",
         "session.compaction_complete", "session.compaction_start", "session.context_changed",
         "session.error", "session.info", "session.mode_changed", "session.model_change",
         "session.permissions_changed", "session.plan_changed", "session.resume", "session.shutdown",
         "session.start", "session.task_complete", "session.truncation", "session.usage_checkpoint",
         "session.warning", "session.workspace_file_changed", "subagent.completed", "subagent.started",
         "system.message", "system.notification"]
  }

  /** A record is unknown exactly when its kind is none of these, and one that is passed over says which. */
  lemma UnknownIff(lib: Library, record: JsonObject, promote: bool)
    ensures var class_ := ClassifyRecord(lib, Copilot, record, promote);
            && (class_ == Unknown <==> !(HasText(record, "type") && IsKnown(record["type"].text)))
            && (class_.Ignored? ==> Is(record, "type", class_.kind))
            && (class_ == Blank ==> Is(record, "type", "user.message") || Is(record, "type", "assistant.message"))
  {
    hide CopilotTool, NonEmpty;
    KnownKinds();
    hide IsCopilotBookkeeping, IsKnown;
  }

  lemma KnownKinds()
    ensures forall kind :: IsKnown(kind) <==> kind == "user.message" || kind == "assistant.message"
                                              || IsCopilotTool(kind) || IsCopilotBookkeeping(kind)
  {
  }
}
