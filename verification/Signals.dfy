/** Signals read beside the classification of a record: context compactions and slash commands. */
module Signals {
  import opened Wrappers
  import opened Text
  import opened Trimming
  import opened Identity
  import opened JsonValue
  import opened Classify
  import opened RecordTexts
  import CommandBlock

  // ----- compactions

  datatype Phase = Start | Complete

  datatype Compaction = Compaction(
    phase: Phase,
    trigger: Option<string>,
    succeeded: Option<bool>,
    preTokens: Option<nat>,
    postTokens: Option<nat>,
    systemTokens: Option<nat>,
    conversationTokens: Option<nat>,
    toolDefinitionTokens: Option<nat>,
    tokenLimit: Option<nat>)

  /** `token_count`: only a recorded integer that fits 64 bits without a sign. */
  function TokenCount(obj: JsonObject, key: string): Option<nat> {
    if key in obj && obj[key].Number? && 0 <= obj[key].value < U64_BOUND then Some(obj[key].value) else None
  }

  function GetFlag(obj: JsonObject, key: string): Option<bool> {
    if key in obj && obj[key].Bool? then Some(obj[key].flag) else None
  }

  /** `copilot_compaction`: the same key means different things in the two phases. */
  function CopilotCompaction(phase: Phase, record: JsonObject): Compaction {
    match GetObject(record, "data")
    case None => Compaction(phase, None, None, None, None, None, None, None, None)
    case Some(data) =>
      var trigger, limit := GetText(data, "trigger"), TokenCount(data, "tokenLimit");
      match phase
      case Start =>
        Compaction(
          phase, trigger, None, TokenCount(data, "currentTokens"), None, TokenCount(data, "systemTokens"),
          TokenCount(data, "conversationTokens"), TokenCount(data, "toolDefinitionsTokens"), limit)
      case Complete =>
        Compaction(
          phase, trigger, GetFlag(data, "success"), TokenCount(data, "preCompactionTokens"),
          TokenCount(data, "postCompactionTokens"), None, None, None, limit)
  }

  function ClaudeCompaction(record: JsonObject): Option<Compaction> {
    if GetString(record, "subtype") != Some("compact_boundary") then None
    else match GetObject(record, "compactMetadata")
      case None => Some(Compaction(Complete, None, None, None, None, None, None, None, None))
      case Some(m) =>
        Some(Compaction(
          Complete, GetText(m, "trigger"), None, TokenCount(m, "preTokens"), TokenCount(m, "postTokens"),
          None, None, None, None))
  }

  /** `compaction`. */
  function CompactionOf(source: SourceKind, record: JsonObject): Option<Compaction> {
    match GetString(record, "type")
    case None => None
    case Some(kind) =>
      match source
      case Copilot =>
        if kind == "session.compaction_start" then Some(CopilotCompaction(Start, record))
        else if kind == "session.compaction_complete" then Some(CopilotCompaction(Complete, record))
        else None
      case ClaudeCode => if kind == "system" then ClaudeCompaction(record) else None
      case Codex => None
  }

  /** The figure is the member's count, and there is none where the member is not a count of 64 bits. */
  predicate IsFigure(figure: Option<nat>, obj: JsonObject, key: string) {
    if key in obj && obj[key].Number? && 0 <= obj[key].value < 0x1_0000_0000_0000_0000
    then figure == Some(obj[key].value) else figure == None
  }

  ghost predicate IsTrigger(trigger: Option<string>, obj: JsonObject) {
    forall t :: trigger == Some(t) <==> Says(obj, "trigger", t)
  }

  /** Which records mark a compaction, and which member each figure of one is. A Copilot start says what
      the context was made of, a completion what it was before and after; a Claude Code boundary says both
      sizes. A marker without an object to read says nothing more. */
  lemma CompactionSays(source: SourceKind, record: JsonObject)
    ensures var marked := CompactionOf(source, record);
            && (marked.Some? <==>
                  || (source == Copilot && Is(record, "type", "session.compaction_start"))
                  || (source == Copilot && Is(record, "type", "session.compaction_complete"))
                  || (source == ClaudeCode && Is(record, "type", "system") && Is(record, "subtype", "compact_boundary")))
            && (marked.Some? && source == Copilot ==>
                  var c := marked.value;
                  && (c.phase.Start? <==> Is(record, "type", "session.compaction_start"))
                  && (if HasObject(record, "data") then SaysCopilot(c, record["data"].fields) else SaysNothing(c)))
            && (marked.Some? && source == ClaudeCode ==>
                  var c := marked.value;
                  && c.phase.Complete?
                  && (if HasObject(record, "compactMetadata") then SaysClaude(c, record["compactMetadata"].fields) else SaysNothing(c)))
  {
    hide GetText, Says;
    if HasObject(record, "data") {
      SaysIff(record["data"].fields);
    }
    if HasObject(record, "compactMetadata") {
      SaysIff(record["compactMetadata"].fields);
    }
  }

  ghost predicate SaysCopilot(c: Compaction, data: JsonObject) {
    && IsTrigger(c.trigger, data) && IsFigure(c.tokenLimit, data, "tokenLimit")
    && (c.phase.Start? ==>
          && IsFigure(c.preTokens, data, "currentTokens") && c.postTokens.None? && c.succeeded.None?
          && IsFigure(c.systemTokens, data, "systemTokens")
          && IsFigure(c.conversationTokens, data, "conversationTokens")
          && IsFigure(c.toolDefinitionTokens, data, "toolDefinitionsTokens"))
    && (c.phase.Complete? ==>
          && IsFigure(c.preTokens, data, "preCompactionTokens") && IsFigure(c.postTokens, data, "postCompactionTokens")
          && c.systemTokens.None? && c.conversationTokens.None? && c.toolDefinitionTokens.None?
          && (forall b :: c.succeeded == Some(b) <==> "success" in data && data["success"] == Bool(b)))
  }

  ghost predicate SaysClaude(c: Compaction, data: JsonObject) {
    && IsTrigger(c.trigger, data) && c.tokenLimit.None? && c.succeeded.None?
    && IsFigure(c.preTokens, data, "preTokens") && IsFigure(c.postTokens, data, "postTokens")
    && c.systemTokens.None? && c.conversationTokens.None? && c.toolDefinitionTokens.None?
  }

  predicate SaysNothing(c: Compaction) {
    && c.trigger.None? && c.succeeded.None? && c.preTokens.None? && c.postTokens.None?
    && c.systemTokens.None? && c.conversationTokens.None? && c.toolDefinitionTokens.None? && c.tokenLimit.None?
  }

  lemma CompactionKindsAreBookkeeping()
    ensures IsCopilotBookkeeping("session.compaction_start") && IsCopilotBookkeeping("session.compaction_complete")
    ensures IsClaudeBookkeeping("system")
    ensures !IsCopilotTool("session.compaction_start") && !IsCopilotTool("session.compaction_complete")
  {
  }

  /** A record that marks a compaction is bookkeeping to the classifier, so reading it moves no record
      into the rendering. */
  lemma CompactionIsIgnored(lib: Library, source: SourceKind, record: JsonObject, promote: bool)
    requires CompactionOf(source, record).Some?
    ensures ClassifyRecord(lib, source, record, promote) == Ignored(GetString(record, "type").value)
  {
    hide IsCopilotBookkeeping, IsClaudeBookkeeping, IsCopilotTool, CopilotTool, ClassifyClaudeContent, MessageOr;
    CompactionKindsAreBookkeeping();
    hide CopilotCompaction, ClaudeCompaction;
  }

  /** The breakdown a finished compaction left behind is never reported as the one it started from: the
      reading of a completion does not depend on those keys. */
  lemma CompletionIgnoresBreakdown(record: JsonObject, data: JsonObject, other: JsonObject)
    requires "data" in record && record["data"] == Object(data)
    requires forall key :: key !in {"systemTokens", "conversationTokens", "toolDefinitionsTokens", "currentTokens"} ==>
               Get(data, key) == Get(other, key)
    ensures CopilotCompaction(Complete, record) == CopilotCompaction(Complete, record["data" := Object(other)])
    ensures var c := CopilotCompaction(Complete, record);
            c.systemTokens.None? && c.conversationTokens.None? && c.toolDefinitionTokens.None?
  {
    assert Get(data, "trigger") == Get(other, "trigger") && Get(data, "tokenLimit") == Get(other, "tokenLimit");
    assert Get(data, "success") == Get(other, "success");
    assert Get(data, "preCompactionTokens") == Get(other, "preCompactionTokens");
    assert Get(data, "postCompactionTokens") == Get(other, "postCompactionTokens");
    hide NonEmpty;
  }

  // ----- slash commands

  datatype SlashCommand = SlashCommand(name: string, args: Option<string>)

  /** The text a harness may have written a command block into. */
  function CommandText(record: JsonObject): Option<string> {
    match GetString(record, "type")
    case None => None
    case Some(kind) =>
      if kind == "user" then
        match GetObject(record, "message")
        case None => None
        case Some(message) => GetString(message, "content")
      else if kind == "system" && GetString(record, "subtype") == Some("local_command") then GetString(record, "content")
      else None
  }

  /** `slash_command`. */
  function SlashCommandOf(source: SourceKind, record: JsonObject): Option<SlashCommand> {
    if source != ClaudeCode then None
    else match CommandText(record)
      case None => None
      case Some(content) =>
        match CommandBlock.CommandBlock(content)
        case None => None
        case Some(found) =>
          if found.name.None? then None
          else match NonEmpty(found.name.value)
            case None => None
            case Some(name) =>
              Some(SlashCommand(name, if found.args.None? then None else NonEmpty(found.args.value)))
  }

  /** The two carriers stay apart: a command in a user record is that user's one message, and a command
      in a system record is bookkeeping. */
  lemma CarriersStayApart(lib: Library, record: JsonObject, promote: bool)
    requires SlashCommandOf(ClaudeCode, record).Some?
    ensures var class_ := ClassifyRecord(lib, ClaudeCode, record, promote);
            var text := CommandText(record).value;
            class_ == (if GetString(record, "type") == Some("user") then Content([User(Trim(text))]) else Ignored("system"))
  {
    hide IsClaudeBookkeeping, CommandBlock.ParseSegments, Trim;
    CompactionKindsAreBookkeeping();
    var text := CommandText(record).value;
    BlockIsNotBlank(text);
  }

  lemma BlockIsNotBlank(content: string)
    requires CommandBlock.CommandBlock(content).Some?
    ensures Trim(content) != ""
  {
    hide Trim;
    assert CommandBlock.ParseSegments("", CommandBlock.NOTHING) == Some(CommandBlock.NOTHING);
  }

  /** A record gives at most one of the two signals, and neither disturbs the rendering: a compaction is
      bookkeeping, and a slash command is one user message or bookkeeping. */
  lemma SignalsStayApart(lib: Library, source: SourceKind, record: JsonObject, promote: bool)
    ensures CompactionOf(source, record).None? || SlashCommandOf(source, record).None?
    ensures CompactionOf(source, record).Some? ==>
              ClassifyRecord(lib, source, record, promote) == Ignored(GetString(record, "type").value)
    ensures SlashCommandOf(source, record).Some? ==>
              CommandText(record).Some? &&
              ClassifyRecord(lib, source, record, promote) ==
              if GetString(record, "type") == Some("user") then Content([User(Trim(CommandText(record).value))])
              else Ignored("system")
  {
    if CompactionOf(source, record).Some? {
      CompactionIsIgnored(lib, source, record, promote);
      CompactionIsNoCommand(source, record);
    } else if SlashCommandOf(source, record).Some? {
      CarriersStayApart(lib, record, promote);
    }
    hide ClassifyRecord, CompactionOf, SlashCommandOf;
  }

  lemma CompactionIsNoCommand(source: SourceKind, record: JsonObject)
    requires CompactionOf(source, record).Some?
    ensures SlashCommandOf(source, record).None?
  {
    hide CommandBlock.CommandBlock, CopilotCompaction;
  }

  /** Exactly the records are slash commands whose carrier holds a command block with a name that is not
      blank; the command is the core of the block's name and of its arguments, unless those are blank.
      The carriers are a user record's message text and a local command's content. */
  lemma SlashCommandIff(record: JsonObject, command: SlashCommand)
    ensures SlashCommandOf(ClaudeCode, record) == Some(command) <==>
              exists text, parts, found :: Carries(record, text) && IsCommand(text, parts, found, command)
  {
    hide CommandBlock.CommandBlock, CommandBlock.IsBlock, CommandBlock.Collects, NonEmpty, IsCore, CommandText;
    CarriesIff(record);
    forall text, parts, found | Carries(record, text) && IsCommand(text, parts, found, command)
      ensures SlashCommandOf(ClaudeCode, record) == Some(command)
    {
      CommandBlock.BlockIff(text, found);
      CommandIsCore(found, command);
    }
    if SlashCommandOf(ClaudeCode, record) == Some(command) {
      var text := CommandText(record).value;
      var found := CommandBlock.CommandBlock(text).value;
      CommandBlock.BlockIff(text, found);
      CommandIsCore(found, command);
      var parts :| CommandBlock.IsBlock(text, parts) && CommandBlock.Collects(parts, CommandBlock.NOTHING, found);
      assert IsCommand(text, parts, found, command);
    }
  }

  predicate Carries(record: JsonObject, text: string) {
    || (Is(record, "type", "user") && HasObject(record, "message") && Is(record["message"].fields, "content", text))
    || (Is(record, "type", "system") && Is(record, "subtype", "local_command") && Is(record, "content", text))
  }

  lemma CarriesIff(record: JsonObject)
    ensures forall text :: CommandText(record) == Some(text) <==> Carries(record, text)
  {
  }

  /** What a block's segments say as a command. */
  ghost predicate SaysCommand(found: CommandBlock.Found, command: SlashCommand) {
    && found.name.Some? && IsCore(found.name.value, command.name)
    && (command.args.Some? ==> found.args.Some? && IsCore(found.args.value, command.args.value))
    && (command.args.None? && found.args.Some? ==> forall t :: !IsCore(found.args.value, t))
  }

  lemma CommandIsCore(found: CommandBlock.Found, command: SlashCommand)
    ensures SaysCommand(found, command) <==>
              && found.name.Some? && NonEmpty(found.name.value) == Some(command.name)
              && command.args == (if found.args.None? then None else NonEmpty(found.args.value))
  {
    hide NonEmpty, IsCore;
    if found.name.Some? {
      CoresIff(found.name.value);
    }
    if found.args.Some? {
      CoresIff(found.args.value);
    }
  }

  ghost predicate IsCommand(text: string, parts: seq<CommandBlock.Part>, found: CommandBlock.Found, command: SlashCommand) {
    && CommandBlock.IsBlock(text, parts) && CommandBlock.Collects(parts, CommandBlock.NOTHING, found)
    && SaysCommand(found, command)
  }
}
