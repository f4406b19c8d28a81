/** Classification of one transcript record for the three harnesses. `promote` says whether the signals
    typed after the rendering was frozen are read; without it this is the classifier before them. */
module Classify {
  import opened Wrappers
  import opened Text
  import opened Identity
  import opened JsonValue
  import opened ToolEvents

  datatype Event = User(text: string) | Assistant(text: string) | Tool(tool: ToolEvent)

  datatype Class = Content(events: seq<Event>) | Blank | Ignored(kind: string) | Unknown

  /** The JSON library: a value's compact text, and a text's value. */
  datatype Library = Library(toText: Json -> string, parse: string -> Option<Json>)

  /** `compact_value`. */
  function CompactValue(lib: Library, value: Json): Option<string> {
    match value
    case String(text) => NonEmpty(text)
    case Null => None
    case _ => Some(lib.toText(value))
  }

  function GetCompact(lib: Library, obj: JsonObject, key: string): Option<string> {
    match Get(obj, key)
    case None => None
    case Some(value) => CompactValue(lib, value)
  }

  function InsertSome(fields: Fields, key: string, value: Option<string>): Fields {
    if value.Some? then Insert(fields, key, value.value) else fields
  }

  function EventFields(event: string): Fields {
    Insert([], "event", event)
  }

  // ----- result texts

  /** The texts of a result item, in order; a list without one has none. */
  function ResultText(value: Json): Option<string>
    decreases value, 1
  {
    match value
    case String(text) => NonEmpty(text)
    case Array(items) =>
      var parts := ResultTexts(items);
      if parts == [] then None else Some(Join(parts, "\n"))
    case Object(obj) =>
      (match GetString(obj, "type")
       case None => None
       case Some(kind) =>
         if kind == "text" || kind == "terminal" then GetText(obj, "text")
         else if kind == "shell_exit" then GetText(obj, "outputPreview")
         else if kind == "resource" then
           (match GetObject(obj, "resource")
            case None => None
            case Some(resource) => GetText(resource, "text"))
         else None)
    case _ => None
  }

  function ResultTexts(items: seq<Json>): seq<string>
    decreases items, 0
  {
    if items == [] then []
    else
      var rest := ResultTexts(items[1..]);
      match ResultText(items[0])
      case None => rest
      case Some(text) => [text] + rest
  }

  function ClaudeText(value: Json): Option<string>
    decreases value, 1
  {
    match value
    case String(text) => NonEmpty(text)
    case Array(items) =>
      var parts := ClaudeTexts(items);
      if parts == [] then None else Some(Join(parts, "\n"))
    case Object(obj) => if GetString(obj, "type") == Some("text") then GetText(obj, "text") else None
    case _ => None
  }

  function ClaudeTexts(items: seq<Json>): seq<string>
    decreases items, 0
  {
    if items == [] then []
    else
      var rest := ClaudeTexts(items[1..]);
      match ClaudeText(items[0])
      case None => rest
      case Some(text) => [text] + rest
  }

  function CodexText(value: Json): Option<string>
    decreases value, 1
  {
    match value
    case String(text) => NonEmpty(text)
    case Array(items) =>
      var parts := CodexTexts(items);
      if parts == [] then None else Some(Join(parts, "\n"))
    case Object(obj) =>
      var nested := if "content" in obj then CodexText(obj["content"]) else None;
      if nested.Some? then nested else GetText(obj, "text")
    case _ => None
  }

  function CodexTexts(items: seq<Json>): seq<string>
    decreases items, 0
  {
    if items == [] then []
    else
      var rest := CodexTexts(items[1..]);
      match CodexText(items[0])
      case None => rest
      case Some(text) => [text] + rest
  }

  // ----- Copilot

  predicate IsCopilotBookkeeping(kind: string) {
    kind in [
      "abort", "assistant.turn_end", "assistant.turn_start", "hook.end", "hook.start",
      "permission.completed", "permission.requested", "session.binary_asset",
      "session.compaction_complete", "session.compaction_start", "session.context_changed",
      "session.error", "session.info", "session.mode_changed", "session.model_change",
      "session.permissions_changed", "session.plan_changed", "session.resume", "session.shutdown",
      "session.start", "session.task_complete", "session.truncation", "session.usage_checkpoint",
      "session.warning", "session.workspace_file_changed", "subagent.completed", "subagent.started",
      "system.message", "system.notification"]
  }

  predicate HasString(obj: JsonObject, key: string) {
    GetString(obj, key).Some?
  }

  predicate ValidToolStart(data: JsonObject) {
    HasString(data, "toolCallId") && HasString(data, "toolName")
  }

  predicate ValidToolResult(result: Json) {
    && result.Object?
    && var obj := result.fields;
       && ("content" in obj ==> obj["content"].String?)
       && ("contents" in obj ==> obj["contents"].Array?)
       && ("content" in obj || ("contents" in obj && ResultTexts(obj["contents"].items) != []))
  }

  predicate ValidToolComplete(data: JsonObject) {
    && HasString(data, "toolCallId")
    && "success" in data && data["success"].Bool?
    && ("result" in data ==> ValidToolResult(data["result"]))
    && ("error" in data ==> data["error"].Object? && HasString(data["error"].fields, "message"))
  }

  /** `extract_tool_invocation`; its validated members are there. */
  function ToolInvocation(lib: Library, event: string, data: JsonObject): ToolEvent
    requires ValidToolStart(data)
  {
    var fields := EventFields(event);
    var called := Insert(fields, "tool_call_id", data["toolCallId"].text);
    var named := Insert(called, "name", data["toolName"].text);
    Legacy(InsertSome(named, "arguments", GetCompact(lib, data, "arguments")))
  }

  predicate IsCopilotShell(name: string) {
    name == "bash" || name == "local_shell"
  }

  function NestedCompact(lib: Library, obj: JsonObject, key: string, nested: string): Option<string> {
    match GetObject(obj, key)
    case None => None
    case Some(inner) => GetCompact(lib, inner, nested)
  }

  function BuiltinInvocation(lib: Library, event: string, data: JsonObject, promote: bool): ToolEvent
    requires ValidToolStart(data)
  {
    var tool := ToolInvocation(lib, event, data);
    var command := NestedCompact(lib, data, "arguments", "command");
    if promote && IsCopilotShell(data["toolName"].text) && command.Some?
    then
      InvocationHasNo(lib, event, data, "command");
      InsertDerived(tool, "command", command.value)
    else tool
  }

  function SkillInvoked(data: JsonObject, promote: bool): Option<ToolEvent> {
    match GetText(data, "name")
    case None => None
    case Some(name) =>
      var tool := SkillFields(data, name);
      if promote
      then
        SkillFieldsAreSound(data, name);
        Some(InsertDerived(tool, "skill", name))
      else Some(tool)
  }

  function SkillFields(data: JsonObject, name: string): ToolEvent {
    var f0 := Insert(EventFields("skill.invoked"), "name", name);
    var f1 := InsertSome(f0, "path", GetText(data, "path"));
    var f2 := InsertSome(f1, "description", GetText(data, "description"));
    var f3 := InsertSome(f2, "source", GetText(data, "source"));
    var f4 := InsertSome(f3, "trigger", GetText(data, "trigger"));
    var f5 := InsertSome(f4, "model", GetText(data, "model"));
    Legacy(InsertSome(f5, "content", GetText(data, "content")))
  }

  function ExternalRequest(lib: Library, data: JsonObject): ToolEvent
    requires ValidToolStart(data)
  {
    var tool := ToolInvocation(lib, "external_tool.requested", data);
    Legacy(InsertSome(tool.fields, "request_id", GetText(data, "requestId")))
  }

  function ExternalCompleted(data: JsonObject): Option<ToolEvent> {
    match GetText(data, "requestId")
    case None => None
    case Some(id) => Some(Legacy(Insert(EventFields("external_tool.completed"), "request_id", id)))
  }

  function CompleteOutput(data: JsonObject): Option<string> {
    match GetObject(data, "result")
    case None => None
    case Some(result) =>
      var content := GetText(result, "content");
      var front := if content.Some? then [content.value] else [];
      var parts := front + (if "contents" in result && result["contents"].Array? then ResultTexts(result["contents"].items) else []);
      if parts == [] then None else Some(Join(parts, "\n"))
  }

  /** `extract_tool_complete`; its validated members are there. */
  function ToolComplete(data: JsonObject): ToolEvent
    requires ValidToolComplete(data)
  {
    var called := Insert(EventFields("tool.execution_complete"), "tool_call_id", data["toolCallId"].text);
    var settled := Insert(called, "success", if data["success"].flag then "true" else "false");
    var error := match GetObject(data, "error") case None => None case Some(e) => GetText(e, "message");
    Legacy(InsertSome(InsertSome(settled, "error", error), "output", CompleteOutput(data)))
  }

  function OneTool(tool: ToolEvent): Class {
    Content([Tool(tool)])
  }

  function ToolOr(tool: Option<ToolEvent>, kind: string): Class {
    if tool.Some? then OneTool(tool.value) else Ignored(kind)
  }

  function MessageOr(assistant: bool, text: string): Class {
    match NonEmpty(text)
    case None => Blank
    case Some(trimmed) => Content([if assistant then Assistant(trimmed) else User(trimmed)])
  }

  function CopilotTool(lib: Library, kind: string, data: JsonObject, promote: bool): Option<ToolEvent> {
    if kind == "tool.execution_start" || kind == "tool.user_requested" then
      if ValidToolStart(data) then Some(BuiltinInvocation(lib, kind, data, promote)) else None
    else if kind == "tool.execution_complete" then
      if ValidToolComplete(data) then Some(ToolComplete(data)) else None
    else if kind == "skill.invoked" then SkillInvoked(data, promote)
    else if kind == "external_tool.requested" then
      if ValidToolStart(data) then Some(ExternalRequest(lib, data)) else None
    else if kind == "external_tool.completed" then ExternalCompleted(data)
    else None
  }

  predicate IsCopilotTool(kind: string) {
    || kind == "tool.execution_start" || kind == "tool.user_requested" || kind == "tool.execution_complete"
    || kind == "skill.invoked" || kind == "external_tool.requested" || kind == "external_tool.completed"
  }

  function ClassifyCopilot(lib: Library, record: JsonObject, promote: bool): Class {
    match GetString(record, "type")
    case None => Unknown
    case Some(kind) =>
      var data := GetObject(record, "data");
      if kind == "user.message" then
        if data.None? || !HasString(data.value, "content") then Ignored(kind)
        else MessageOr(false, GetString(data.value, "content").value)
      else if kind == "assistant.message" then
        if data.None? || !HasString(data.value, "messageId") || !HasString(data.value, "content") then Ignored(kind)
        else MessageOr(true, GetString(data.value, "content").value)
      else if IsCopilotTool(kind) then
        ToolOr(if data.None? then None else CopilotTool(lib, kind, data.value, promote), kind)
      else if IsCopilotBookkeeping(kind) then Ignored(kind)
      else Unknown
  }

  // ----- Claude Code

  predicate IsClaudeBookkeeping(kind: string) {
    kind in [
      "agent-name", "ai-title", "attachment", "file-history-delta", "file-history-snapshot", "frame-link",
      "last-prompt", "mode", "permission-mode", "pr-link", "queue-operation", "summary", "system"]
  }

  function ClaudeToolFields(lib: Library, block: JsonObject, name: string): ToolEvent {
    var called := InsertSome(EventFields("tool_use"), "tool_use_id", GetText(block, "id"));
    Legacy(InsertSome(Insert(called, "name", name), "input", GetCompact(lib, block, "input")))
  }

  function PromoteSkill(tool: ToolEvent, block: JsonObject): ToolEvent
    requires !HasKey(tool.fields, "skill") && !HasKey(tool.fields, "skill_args")
  {
    match GetObject(block, "input")
    case None => tool
    case Some(input) =>
      match GetText(input, "skill")
      case None => tool
      case Some(skill) =>
        InsertKeys(tool.fields, "skill", skill);
        var named := InsertDerived(tool, "skill", skill);
        match GetText(input, "args")
        case None => named
        case Some(args) => InsertDerived(named, "skill_args", args)
  }

  function ClaudeToolUse(lib: Library, block: JsonObject, promote: bool): Option<ToolEvent> {
    match GetText(block, "name")
    case None => None
    case Some(name) =>
      var tool := ClaudeToolFields(lib, block, name);
      if !promote then Some(tool)
      else
        ClaudeFieldsAreSound(lib, block, name);
        var command := NestedCompact(lib, block, "input", "command");
        if name == "Bash" && command.Some? then Some(InsertDerived(tool, "command", command.value))
        else if name == "Skill" then Some(PromoteSkill(tool, block))
        else Some(tool)
  }

  function ClaudeToolResult(block: JsonObject): Option<ToolEvent> {
    var called := InsertSome(EventFields("tool_result"), "tool_use_id", GetText(block, "tool_use_id"));
    var failed := if "is_error" in block && block["is_error"] == Bool(true) then Insert(called, "is_error", "true") else called;
    var output := if "content" in block then ClaudeText(block["content"]) else None;
    var fields := InsertSome(failed, "output", output);
    if |fields| == 1 then None else Some(Legacy(fields))
  }

  /** The event of one content block. */
  function ClaudeBlock(lib: Library, block: JsonObject, kind: string, assistant: bool, promote: bool): Option<Event> {
    if kind == "text" then
      match GetText(block, "text")
      case None => None
      case Some(text) => Some(if assistant then Assistant(text) else User(text))
    else if kind == "tool_use" && assistant then
      match ClaudeToolUse(lib, block, promote)
      case None => None
      case Some(tool) => Some(Tool(tool))
    else if kind == "tool_result" && !assistant then
      match ClaudeToolResult(block)
      case None => None
      case Some(tool) => Some(Tool(tool))
    else None
  }

  function BlockType(block: Json): Option<string> {
    if block.Object? then GetString(block.fields, "type") else None
  }

  /** The events of the typed blocks, in order. */
  function ClaudeEvents(lib: Library, blocks: seq<Json>, assistant: bool, promote: bool): seq<Event> {
    if blocks == [] then []
    else
      var last := blocks[|blocks| - 1];
      var before := ClaudeEvents(lib, blocks[..|blocks| - 1], assistant, promote);
      match BlockType(last)
      case None => before
      case Some(kind) =>
        match ClaudeBlock(lib, last.fields, kind, assistant, promote)
        case None => before
        case Some(event) => before + [event]
  }

  predicate HasTypedBlock(blocks: seq<Json>) {
    exists b :: b in blocks && BlockType(b).Some?
  }

  function ClassifyClaudeContent(lib: Library, content: Json, assistant: bool, kind: string, promote: bool): Class {
    match content
    case String(text) => MessageOr(assistant, text)
    case Array(blocks) =>
      var events := ClaudeEvents(lib, blocks, assistant, promote);
      if events != [] then Content(events)
      else if HasTypedBlock(blocks) then Blank else Ignored(kind)
    case _ => Ignored(kind)
  }

  function ClassifyClaude(lib: Library, record: JsonObject, promote: bool): Class {
    match GetString(record, "type")
    case None => Unknown
    case Some(kind) =>
      if kind == "user" || kind == "assistant" then
        match GetObject(record, "message")
        case None => Ignored(kind)
        case Some(message) =>
          if "content" !in message then Ignored(kind)
          else ClassifyClaudeContent(lib, message["content"], kind == "assistant", kind, promote)
      else if IsClaudeBookkeeping(kind) then Ignored(kind)
      else Unknown
  }

  /** `classify_claude_content` over an array, block by block. */
  method ClassifyClaudeBlocks(lib: Library, blocks: seq<Json>, assistant: bool, kind: string) returns (class_: Class)
    ensures class_ == ClassifyClaudeContent(lib, Array(blocks), assistant, kind, true)
  {
    hide ClaudeBlock, BlockType, HasTypedBlock;
    NoTypedBlock();
    var events: seq<Event> := [];
    var recognized := false;
    for i := 0 to |blocks|
      invariant events == ClaudeEvents(lib, blocks[..i], assistant, true)
      invariant recognized == HasTypedBlock(blocks[..i])
    {
      assert blocks[..i + 1][..i] == blocks[..i];
      assert blocks[..i + 1] == blocks[..i] + [blocks[i]];
      TypedBlockSnoc(blocks[..i], blocks[i]);
      var blockType := BlockType(blocks[i]);
      if blockType.Some? {
        TypedIsObject(blocks[i]);
        recognized := true;
        var event := ClaudeBlock(lib, blocks[i].fields, blockType.value, assistant, true);
        if event.Some? {
          events := events + [event.value];
        }
      }
    }
    assert blocks[..|blocks|] == blocks;
    class_ := if events != [] then Content(events) else if recognized then Blank else Ignored(kind);
  }

  lemma NoTypedBlock()
    ensures !HasTypedBlock([])
  {
  }

  lemma TypedBlockSnoc(blocks: seq<Json>, block: Json)
    ensures HasTypedBlock(blocks + [block]) <==> HasTypedBlock(blocks) || BlockType(block).Some?
  {
    hide BlockType;
    assert forall b :: b in blocks + [block] <==> b in blocks || b == block;
  }

  lemma TypedIsObject(block: Json)
    ensures BlockType(block).Some? ==> block.Object?
  {
  }

  // ----- Codex

  predicate IsCodexMetadata(kind: string) {
    kind in ["compacted", "event_msg", "session_meta", "turn_context"]
  }

  function CodexMessageTexts(blocks: seq<Json>): seq<string> {
    if blocks == [] then []
    else
      var rest := CodexMessageTexts(blocks[1..]);
      match BlockType(blocks[0])
      case None => rest
      case Some(kind) =>
        if kind != "input_text" && kind != "output_text" && kind != "text" then rest
        else match GetText(blocks[0].fields, "text")
          case None => rest
          case Some(text) => [text] + rest
  }

  function CodexMessage(payload: JsonObject, kind: string): Class {
    match GetString(payload, "role")
    case None => Ignored(kind)
    case Some(role) =>
      var text :=
        if "content" in payload && payload["content"].Array?
        then Join(CodexMessageTexts(payload["content"].items), "\n") else "";
      match NonEmpty(text)
      case None => Blank
      case Some(trimmed) =>
        if role == "user" then Content([User(trimmed)])
        else if role == "assistant" then Content([Assistant(trimmed)])
        else Ignored(kind)
  }

  /** The `command` inside a shell call's `arguments`, which hold JSON text. */
  function CodexShellCommand(lib: Library, arguments: string): Option<string> {
    match lib.parse(arguments)
    case None => None
    case Some(value) => if value.Object? then GetCompact(lib, value.fields, "command") else None
  }

  function CodexToolFields(payload: JsonObject, kind: string, id: string): ToolEvent {
    var called := Insert(EventFields(kind), "call_id", id);
    var named := InsertSome(called, "name", GetText(payload, "name"));
    var arguments := GetText(payload, "arguments");
    Legacy(
      if arguments.Some? then Insert(named, "arguments", arguments.value)
      else InsertSome(named, "input", GetText(payload, "input")))
  }

  function CodexToolCall(lib: Library, payload: JsonObject, kind: string, promote: bool): Option<ToolEvent> {
    match GetText(payload, "call_id")
    case None => None
    case Some(id) =>
      var tool := CodexToolFields(payload, kind, id);
      var arguments := GetText(payload, "arguments");
      if promote && kind == "function_call" && GetText(payload, "name") == Some("shell") && arguments.Some? then
        match CodexShellCommand(lib, arguments.value)
        case None => Some(tool)
        case Some(command) =>
          CodexFieldsAreSound(payload, kind, id);
          Some(InsertDerived(tool, "command", command))
      else Some(tool)
  }

  function CodexToolOutput(payload: JsonObject): Option<ToolEvent> {
    match GetText(payload, "call_id")
    case None => None
    case Some(id) =>
      var called := Insert(EventFields("function_call_output"), "call_id", id);
      Some(Legacy(InsertSome(called, "output", if "output" in payload then CodexText(payload["output"]) else None)))
  }

  /** Its `command` was rendered before promotions and stays rendered. */
  function CodexLocalShell(lib: Library, payload: JsonObject): Option<ToolEvent> {
    var called := InsertSome(EventFields("local_shell_call"), "call_id", GetText(payload, "call_id"));
    var fields := InsertSome(called, "command", NestedCompact(lib, payload, "action", "command"));
    if |fields| == 1 then None else Some(Legacy(fields))
  }

  function ClassifyCodexItem(lib: Library, payload: JsonObject, kind: string, promote: bool): Class {
    if kind == "message" then CodexMessage(payload, kind)
    else if kind == "function_call" || kind == "custom_tool_call" then
      ToolOr(CodexToolCall(lib, payload, kind, promote), kind)
    else if kind == "function_call_output" || kind == "custom_tool_call_output" then
      ToolOr(CodexToolOutput(payload), kind)
    else if kind == "local_shell_call" then ToolOr(CodexLocalShell(lib, payload), kind)
    else if kind == "reasoning" || kind == "web_search_call" then Ignored(kind)
    else Unknown
  }

  function ClassifyCodex(lib: Library, record: JsonObject, promote: bool): Class {
    match GetString(record, "type")
    case None => Unknown
    case Some(kind) =>
      if IsCodexMetadata(kind) then Ignored(kind)
      else if kind != "response_item" then Unknown
      else match GetObject(record, "payload")
        case None => Ignored(kind)
        case Some(payload) =>
          match GetString(payload, "type")
          case None => Ignored(kind)
          case Some(item) => ClassifyCodexItem(lib, payload, item, promote)
  }

  /** `classify`. */
  function ClassifyRecord(lib: Library, source: SourceKind, record: JsonObject, promote: bool): Class {
    match source
    case Copilot => ClassifyCopilot(lib, record, promote)
    case ClaudeCode => ClassifyClaude(lib, record, promote)
    case Codex => ClassifyCodex(lib, record, promote)
  }

  // ----- soundness of the field maps

  /** Ordered fields with an event, none of which has one of the derived names. */
  predicate IsFrozen(fields: Fields, keys: set<string>) {
    && IsOrdered(fields)
    && HasKey(fields, "event")
    && forall key :: key in keys ==> !HasKey(fields, key)
  }

  const PROMOTED: set<string> := {"command", "skill", "skill_args"}

  lemma EventFrozen(event: string)
    ensures IsFrozen(EventFields(event), PROMOTED)
  {
    InsertKeys([], "event", event);
  }

  lemma InsertFrozen(fields: Fields, key: string, value: string)
    requires IsFrozen(fields, PROMOTED) && key !in PROMOTED
    ensures IsFrozen(Insert(fields, key, value), PROMOTED)
  {
    hide HasKey, IsOrdered, Insert;
    InsertKeys(fields, key, value);
    InsertOrdered(fields, key, value);
  }

  lemma InsertSomeFrozen(fields: Fields, key: string, value: Option<string>)
    requires IsFrozen(fields, PROMOTED) && key !in PROMOTED
    ensures IsFrozen(InsertSome(fields, key, value), PROMOTED)
  {
    hide IsFrozen;
    if value.Some? {
      InsertFrozen(fields, key, value.value);
    }
  }

  lemma FrozenIsSound(fields: Fields)
    requires IsFrozen(fields, PROMOTED)
    ensures IsSound(Legacy(fields)) && IsTwin(Legacy(fields), Legacy(fields))
    ensures !HasKey(fields, "command") && !HasKey(fields, "skill") && !HasKey(fields, "skill_args")
  {
    LegacySound(fields);
    hide HasKey;
    assert "command" in PROMOTED && "skill" in PROMOTED && "skill_args" in PROMOTED;
  }

  lemma InvocationIsFrozen(lib: Library, event: string, data: JsonObject)
    requires ValidToolStart(data)
    ensures IsFrozen(ToolInvocation(lib, event, data).fields, PROMOTED)
    ensures ToolInvocation(lib, event, data).derived == {}
  {
    hide IsFrozen, Insert, InsertSome;
    var fields := EventFields(event);
    var called := Insert(fields, "tool_call_id", data["toolCallId"].text);
    var named := Insert(called, "name", data["toolName"].text);
    EventFrozen(event);
    InsertFrozen(fields, "tool_call_id", data["toolCallId"].text);
    InsertFrozen(called, "name", data["toolName"].text);
    InsertSomeFrozen(named, "arguments", GetCompact(lib, data, "arguments"));
  }

  lemma InvocationHasNo(lib: Library, event: string, data: JsonObject, key: string)
    requires ValidToolStart(data) && key in PROMOTED
    ensures !HasKey(ToolInvocation(lib, event, data).fields, key)
  {
    InvocationIsFrozen(lib, event, data);
    hide HasKey, ToolInvocation;
  }

  lemma SkillFieldsAreSound(data: JsonObject, name: string)
    ensures IsFrozen(SkillFields(data, name).fields, PROMOTED) && SkillFields(data, name).derived == {}
    ensures !HasKey(SkillFields(data, name).fields, "skill")
  {
    hide IsFrozen, Insert, InsertSome, GetText, HasKey;
    var f0 := Insert(EventFields("skill.invoked"), "name", name);
    var f1 := InsertSome(f0, "path", GetText(data, "path"));
    var f2 := InsertSome(f1, "description", GetText(data, "description"));
    var f3 := InsertSome(f2, "source", GetText(data, "source"));
    var f4 := InsertSome(f3, "trigger", GetText(data, "trigger"));
    var f5 := InsertSome(f4, "model", GetText(data, "model"));
    EventFrozen("skill.invoked");
    InsertFrozen(EventFields("skill.invoked"), "name", name);
    InsertSomeFrozen(f0, "path", GetText(data, "path"));
    InsertSomeFrozen(f1, "description", GetText(data, "description"));
    InsertSomeFrozen(f2, "source", GetText(data, "source"));
    InsertSomeFrozen(f3, "trigger", GetText(data, "trigger"));
    InsertSomeFrozen(f4, "model", GetText(data, "model"));
    InsertSomeFrozen(f5, "content", GetText(data, "content"));
    FrozenIsSound(SkillFields(data, name).fields);
  }

  lemma ClaudeFieldsAreSound(lib: Library, block: JsonObject, name: string)
    ensures var fields := ClaudeToolFields(lib, block, name).fields;
            && IsFrozen(fields, PROMOTED)
            && !HasKey(fields, "command") && !HasKey(fields, "skill") && !HasKey(fields, "skill_args")
    ensures ClaudeToolFields(lib, block, name).derived == {}
  {
    hide IsFrozen, Insert, InsertSome, GetText, HasKey, GetCompact;
    var called := InsertSome(EventFields("tool_use"), "tool_use_id", GetText(block, "id"));
    EventFrozen("tool_use");
    InsertSomeFrozen(EventFields("tool_use"), "tool_use_id", GetText(block, "id"));
    InsertFrozen(called, "name", name);
    InsertSomeFrozen(Insert(called, "name", name), "input", GetCompact(lib, block, "input"));
    FrozenIsSound(ClaudeToolFields(lib, block, name).fields);
  }

  lemma CodexFieldsAreSound(payload: JsonObject, kind: string, id: string)
    ensures var fields := CodexToolFields(payload, kind, id).fields;
            IsFrozen(fields, PROMOTED) && !HasKey(fields, "command")
    ensures CodexToolFields(payload, kind, id).derived == {}
  {
    hide IsFrozen, Insert, InsertSome, GetText, HasKey;
    var called := Insert(EventFields(kind), "call_id", id);
    var named := InsertSome(called, "name", GetText(payload, "name"));
    EventFrozen(kind);
    InsertFrozen(EventFields(kind), "call_id", id);
    InsertSomeFrozen(called, "name", GetText(payload, "name"));
    var arguments := GetText(payload, "arguments");
    if arguments.Some? {
      InsertFrozen(named, "arguments", arguments.value);
    } else {
      InsertSomeFrozen(named, "input", GetText(payload, "input"));
    }
    FrozenIsSound(CodexToolFields(payload, kind, id).fields);
  }

  // ----- the theorem

  /** A sound tool event whose rendering is `plain`'s, from before promotions. */
  predicate IsPromotionOf(tool: ToolEvent, plain: ToolEvent) {
    IsSound(tool) && IsSound(plain) && IsTwin(tool, plain) && Rendered(tool) == Rendered(plain)
  }

  predicate SameButPromoted(a: Event, b: Event) {
    match (a, b)
    case (Tool(t), Tool(u)) => IsPromotionOf(t, u)
    case _ => a == b && !a.Tool?
  }

  predicate SameClass(a: Class, b: Class) {
    match (a, b)
    case (Content(events), Content(plain)) =>
      |events| == |plain| && forall i :: 0 <= i < |events| ==> SameButPromoted(events[i], plain[i])
    case _ => a == b && !a.Content?
  }

  predicate SameTool(a: Option<ToolEvent>, b: Option<ToolEvent>) {
    (a.None? && b.None?) || (a.Some? && b.Some? && IsPromotionOf(a.value, b.value))
  }

  lemma FrozenPromotes(tool: ToolEvent)
    requires tool.derived == {} && IsFrozen(tool.fields, PROMOTED)
    ensures IsPromotionOf(tool, tool)
  {
    hide IsFrozen, Rendered, IsSound, IsTwin;
    FrozenIsSound(tool.fields);
    assert tool == Legacy(tool.fields);
  }

  lemma DerivedPromotes(tool: ToolEvent, plain: ToolEvent, key: string, value: string)
    requires IsPromotionOf(tool, plain) && !HasKey(tool.fields, key)
    ensures IsPromotionOf(InsertDerived(tool, key, value), plain)
    ensures forall k :: k != key ==> (HasKey(InsertDerived(tool, key, value).fields, k) <==> HasKey(tool.fields, k))
  {
    hide IsSound, IsTwin, Rendered, HasKey, InsertDerived;
    DerivedSound(tool, plain, key, value);
    TwinsRenderAlike(InsertDerived(tool, key, value), plain);
  }

  lemma BuiltinPromotes(lib: Library, event: string, data: JsonObject)
    requires ValidToolStart(data)
    ensures IsPromotionOf(BuiltinInvocation(lib, event, data, true), BuiltinInvocation(lib, event, data, false))
  {
    hide IsPromotionOf, IsFrozen, HasKey, ToolInvocation, NestedCompact;
    var tool := ToolInvocation(lib, event, data);
    InvocationIsFrozen(lib, event, data);
    FrozenPromotes(tool);
    var command := NestedCompact(lib, data, "arguments", "command");
    if command.Some? {
      InvocationHasNo(lib, event, data, "command");
      DerivedPromotes(tool, tool, "command", command.value);
    }
    hide InsertDerived;
  }

  lemma SkillPromotes(data: JsonObject)
    ensures SameTool(SkillInvoked(data, true), SkillInvoked(data, false))
  {
    hide IsPromotionOf, IsFrozen, HasKey, SkillFields, GetText;
    var name := GetText(data, "name");
    if name.Some? {
      SkillFieldsAreSound(data, name.value);
      FrozenPromotes(SkillFields(data, name.value));
      DerivedPromotes(SkillFields(data, name.value), SkillFields(data, name.value), "skill", name.value);
    }
    hide InsertDerived;
  }

  lemma ExternalRequestFrozen(lib: Library, data: JsonObject)
    requires ValidToolStart(data)
    ensures IsPromotionOf(ExternalRequest(lib, data), ExternalRequest(lib, data))
  {
    hide IsPromotionOf, IsFrozen, InsertSome, ToolInvocation, GetText;
    InvocationIsFrozen(lib, "external_tool.requested", data);
    var tool := ToolInvocation(lib, "external_tool.requested", data);
    InsertSomeFrozen(tool.fields, "request_id", GetText(data, "requestId"));
    FrozenPromotes(ExternalRequest(lib, data));
  }

  lemma ExternalCompletedFrozen(data: JsonObject)
    ensures SameTool(ExternalCompleted(data), ExternalCompleted(data))
  {
    hide IsPromotionOf, IsFrozen, Insert, GetText;
    EventFrozen("external_tool.completed");
    var id := GetText(data, "requestId");
    if id.Some? {
      InsertFrozen(EventFields("external_tool.completed"), "request_id", id.value);
      FrozenPromotes(ExternalCompleted(data).value);
    }
  }

  lemma ToolCompleteFrozen(data: JsonObject)
    requires ValidToolComplete(data)
    ensures IsPromotionOf(ToolComplete(data), ToolComplete(data))
  {
    hide IsPromotionOf, IsFrozen, Insert, InsertSome, CompleteOutput, GetText;
    var start := EventFields("tool.execution_complete");
    var called := Insert(start, "tool_call_id", data["toolCallId"].text);
    var settled := Insert(called, "success", if data["success"].flag then "true" else "false");
    var error := match GetObject(data, "error") case None => None case Some(e) => GetText(e, "message");
    EventFrozen("tool.execution_complete");
    InsertFrozen(start, "tool_call_id", data["toolCallId"].text);
    InsertFrozen(called, "success", if data["success"].flag then "true" else "false");
    InsertSomeFrozen(settled, "error", error);
    InsertSomeFrozen(InsertSome(settled, "error", error), "output", CompleteOutput(data));
    FrozenPromotes(ToolComplete(data));
  }

  lemma CopilotToolPromotes(lib: Library, kind: string, data: JsonObject)
    ensures SameTool(CopilotTool(lib, kind, data, true), CopilotTool(lib, kind, data, false))
  {
    hide IsPromotionOf, ToolComplete, SkillInvoked, ExternalCompleted, ValidToolStart, ValidToolComplete;
    hide BuiltinInvocation, ExternalRequest;
    if ValidToolStart(data) {
      BuiltinPromotes(lib, kind, data);
      ExternalRequestFrozen(lib, data);
    }
    if ValidToolComplete(data) {
      ToolCompleteFrozen(data);
    }
    SkillPromotes(data);
    ExternalCompletedFrozen(data);
  }

  lemma ToolOrPromotes(a: Option<ToolEvent>, b: Option<ToolEvent>, kind: string)
    requires SameTool(a, b)
    ensures SameClass(ToolOr(a, kind), ToolOr(b, kind))
  {
    hide IsPromotionOf;
  }

  lemma MessageIsSame(assistant: bool, text: string)
    ensures SameClass(MessageOr(assistant, text), MessageOr(assistant, text))
  {
  }

  lemma CopilotPromotes(lib: Library, record: JsonObject)
    ensures SameClass(ClassifyCopilot(lib, record, true), ClassifyCopilot(lib, record, false))
  {
    hide SameClass, ToolOr, MessageOr, CopilotTool, IsCopilotBookkeeping, IsCopilotTool, SameTool;
    var kind, data := GetString(record, "type"), GetObject(record, "data");
    SameWithoutEvents();
    if kind.Some? && data.Some? {
      CopilotToolPromotes(lib, kind.value, data.value);
      ToolOrPromotes(CopilotTool(lib, kind.value, data.value, true), CopilotTool(lib, kind.value, data.value, false), kind.value);
      if HasString(data.value, "content") {
        MessageIsSame(true, GetString(data.value, "content").value);
        MessageIsSame(false, GetString(data.value, "content").value);
      }
    }
    if kind.Some? {
      NoToolIsSame(kind.value);
    }
  }

  lemma NoToolIsSame(kind: string)
    ensures SameClass(ToolOr(None, kind), ToolOr(None, kind))
  {
  }

  lemma SameWithoutEvents()
    ensures SameClass(Unknown, Unknown) && SameClass(Blank, Blank)
    ensures forall kind :: SameClass(Ignored(kind), Ignored(kind))
  {
  }

  lemma PromoteSkillPromotes(tool: ToolEvent, block: JsonObject)
    requires IsPromotionOf(tool, tool) && !HasKey(tool.fields, "skill") && !HasKey(tool.fields, "skill_args")
    ensures IsPromotionOf(PromoteSkill(tool, block), tool)
  {
    hide IsPromotionOf, HasKey, GetText, InsertDerived;
    var input := GetObject(block, "input");
    if input.Some? && GetText(input.value, "skill").Some? {
      var skill := GetText(input.value, "skill").value;
      DerivedPromotes(tool, tool, "skill", skill);
      var args := GetText(input.value, "args");
      if args.Some? {
        DerivedPromotes(InsertDerived(tool, "skill", skill), tool, "skill_args", args.value);
      }
    }
  }

  lemma ClaudeToolPromotes(lib: Library, block: JsonObject)
    ensures SameTool(ClaudeToolUse(lib, block, true), ClaudeToolUse(lib, block, false))
  {
    hide IsPromotionOf, IsFrozen, HasKey, GetText, InsertDerived, ClaudeToolFields, NestedCompact, PromoteSkill;
    var name := GetText(block, "name");
    if name.Some? {
      var tool := ClaudeToolFields(lib, block, name.value);
      ClaudeFieldsAreSound(lib, block, name.value);
      FrozenPromotes(tool);
      var command := NestedCompact(lib, block, "input", "command");
      if command.Some? {
        DerivedPromotes(tool, tool, "command", command.value);
      }
      PromoteSkillPromotes(tool, block);
    }
  }

  lemma ClaudeResultFrozen(block: JsonObject)
    ensures SameTool(ClaudeToolResult(block), ClaudeToolResult(block))
  {
    hide IsPromotionOf, IsFrozen, Insert, InsertSome, GetText, ClaudeText;
    var start := EventFields("tool_result");
    var called := InsertSome(start, "tool_use_id", GetText(block, "tool_use_id"));
    EventFrozen("tool_result");
    InsertSomeFrozen(start, "tool_use_id", GetText(block, "tool_use_id"));
    InsertFrozen(called, "is_error", "true");
    var failed := if "is_error" in block && block["is_error"] == Bool(true) then Insert(called, "is_error", "true") else called;
    var output := if "content" in block then ClaudeText(block["content"]) else None;
    InsertSomeFrozen(failed, "output", output);
    FrozenPromotes(Legacy(InsertSome(failed, "output", output)));
  }

  predicate SameEvent(a: Option<Event>, b: Option<Event>) {
    (a.None? && b.None?) || (a.Some? && b.Some? && SameButPromoted(a.value, b.value))
  }

  lemma ClaudeBlockPromotes(lib: Library, block: JsonObject, kind: string, assistant: bool)
    ensures SameEvent(ClaudeBlock(lib, block, kind, assistant, true), ClaudeBlock(lib, block, kind, assistant, false))
  {
    hide IsPromotionOf, ClaudeToolUse, ClaudeToolResult, GetText;
    ClaudeToolPromotes(lib, block);
    ClaudeResultFrozen(block);
  }

  predicate SameEvents(a: seq<Event>, b: seq<Event>) {
    |a| == |b| && forall i :: 0 <= i < |a| ==> SameButPromoted(a[i], b[i])
  }

  lemma {:induction false} ClaudeEventsPromote(lib: Library, blocks: seq<Json>, assistant: bool)
    ensures SameEvents(ClaudeEvents(lib, blocks, assistant, true), ClaudeEvents(lib, blocks, assistant, false))
    decreases |blocks|
  {
    hide SameButPromoted, ClaudeBlock;
    if blocks != [] {
      var last := blocks[|blocks| - 1];
      ClaudeEventsPromote(lib, blocks[..|blocks| - 1], assistant);
      if BlockType(last).Some? {
        ClaudeBlockPromotes(lib, last.fields, BlockType(last).value, assistant);
      }
      hide BlockType;
    }
  }

  lemma ClaudePromotes(lib: Library, record: JsonObject)
    ensures SameClass(ClassifyClaude(lib, record, true), ClassifyClaude(lib, record, false))
  {
    hide IsClaudeBookkeeping, ClaudeEvents, HasTypedBlock, MessageOr, SameButPromoted;
    var kind, message := GetString(record, "type"), GetObject(record, "message");
    if kind.Some? && message.Some? && "content" in message.value {
      var content := message.value["content"];
      if content.String? {
        MessageIsSame(kind.value == "assistant", content.text);
      } else if content.Array? {
        ClaudeEventsPromote(lib, content.items, kind.value == "assistant");
      }
    }
  }

  lemma CodexCallPromotes(lib: Library, payload: JsonObject, kind: string)
    ensures SameTool(CodexToolCall(lib, payload, kind, true), CodexToolCall(lib, payload, kind, false))
  {
    hide IsPromotionOf, IsFrozen, HasKey, GetText, InsertDerived, CodexToolFields, CodexShellCommand;
    var id := GetText(payload, "call_id");
    if id.Some? {
      var tool := CodexToolFields(payload, kind, id.value);
      CodexFieldsAreSound(payload, kind, id.value);
      FrozenPromotes(tool);
      var arguments := GetText(payload, "arguments");
      if arguments.Some? && CodexShellCommand(lib, arguments.value).Some? {
        DerivedPromotes(tool, tool, "command", CodexShellCommand(lib, arguments.value).value);
      }
    }
  }

  lemma CodexOutputFrozen(payload: JsonObject)
    ensures SameTool(CodexToolOutput(payload), CodexToolOutput(payload))
  {
    hide IsPromotionOf, IsFrozen, Insert, InsertSome, GetText, CodexText;
    var start := EventFields("function_call_output");
    EventFrozen("function_call_output");
    var id := GetText(payload, "call_id");
    if id.Some? {
      var called := Insert(start, "call_id", id.value);
      InsertFrozen(start, "call_id", id.value);
      InsertSomeFrozen(called, "output", if "output" in payload then CodexText(payload["output"]) else None);
      FrozenPromotes(CodexToolOutput(payload).value);
    }
  }

  /** The local shell call's own `command` is a rendered field, so it is ordered and has its event, but
      it is not free of the promoted names. */
  lemma CodexLocalShellSound(lib: Library, payload: JsonObject)
    ensures SameTool(CodexLocalShell(lib, payload), CodexLocalShell(lib, payload))
  {
    hide IsSound, IsTwin, Rendered, IsOrdered, HasKey, Insert, GetText, NestedCompact;
    var start := EventFields("local_shell_call");
    var called := InsertSome(start, "call_id", GetText(payload, "call_id"));
    var command := NestedCompact(lib, payload, "action", "command");
    var fields := InsertSome(called, "command", command);
    EventFrozen("local_shell_call");
    InsertSomeFrozen(start, "call_id", GetText(payload, "call_id"));
    if command.Some? {
      InsertOrdered(called, "command", command.value);
      InsertKeys(called, "command", command.value);
    }
    assert IsOrdered(fields) && HasKey(fields, "event");
    LegacySound(fields);
  }

  lemma CodexMessageIsSame(payload: JsonObject, kind: string)
    ensures SameClass(CodexMessage(payload, kind), CodexMessage(payload, kind))
  {
    hide CodexMessageTexts, NonEmpty;
  }

  lemma CodexItemPromotes(lib: Library, payload: JsonObject, kind: string)
    ensures SameClass(ClassifyCodexItem(lib, payload, kind, true), ClassifyCodexItem(lib, payload, kind, false))
  {
    hide SameClass, ToolOr, CodexMessage, CodexToolCall, CodexToolOutput, CodexLocalShell, SameTool;
    SameWithoutEvents();
    CodexMessageIsSame(payload, kind);
    CodexCallPromotes(lib, payload, kind);
    ToolOrPromotes(CodexToolCall(lib, payload, kind, true), CodexToolCall(lib, payload, kind, false), kind);
    CodexOutputFrozen(payload);
    ToolOrPromotes(CodexToolOutput(payload), CodexToolOutput(payload), kind);
    CodexLocalShellSound(lib, payload);
    ToolOrPromotes(CodexLocalShell(lib, payload), CodexLocalShell(lib, payload), kind);
  }

  lemma CodexPromotes(lib: Library, record: JsonObject)
    ensures SameClass(ClassifyCodex(lib, record, true), ClassifyCodex(lib, record, false))
  {
    hide SameClass, ClassifyCodexItem, IsCodexMetadata;
    SameWithoutEvents();
    var payload := GetObject(record, "payload");
    if payload.Some? && GetString(payload.value, "type").Some? {
      CodexItemPromotes(lib, payload.value, GetString(payload.value, "type").value);
    }
  }

  /** Promotion is invisible: for every record of every harness the classification has the same kind and
      the same events as without promotions, each tool event has its event field, its derived keys are
      fields of it that shadow nothing, and it renders as it did. */
  lemma PromotionIsInvisible(lib: Library, source: SourceKind, record: JsonObject)
    ensures SameClass(ClassifyRecord(lib, source, record, true), ClassifyRecord(lib, source, record, false))
  {
    hide SameClass, ClassifyCopilot, ClassifyClaude, ClassifyCodex;
    match source
    case Copilot => CopilotPromotes(lib, record);
    case ClaudeCode => ClaudePromotes(lib, record);
    case Codex => CodexPromotes(lib, record);
  }
}
