/** Munshi's entries in a settings file that belongs to Claude Code: merged in, recognised, reported and
    taken out again without touching anything else. */
module ClaudeSettings {
  import opened Wrappers
  import opened Identity
  import opened JsonValue

  // ----- the command

  predicate IsShellPlain(c: char) {
    IsAlphanumeric(c) || c == '/' || c == '.' || c == '_' || c == '-'
  }

  /** `value.replace('\'', "'\\''")`. */
  function Escaped(v: string): string {
    if v == "" then "" else (if v[0] == '\'' then "'\\''" else [v[0]]) + Escaped(v[1..])
  }

  function ShellQuote(v: string): string {
    if v != "" && forall c :: c in v ==> IsShellPlain(c) then v else "'" + Escaped(v) + "'"
  }

  /** The characters that section 2.2 of the POSIX Shell Command Language says must or may have to be
      quoted to stand for themselves, and those that interactive shells add to them. */
  predicate IsShellSpecial(c: char) {
    || c == '|' || c == '&' || c == ';' || c == '<' || c == '>' || c == '(' || c == ')' || c == '$' || c == '`'
    || c == '\\' || c == '"' || c == '\'' || c == ' ' || c == '\t' || c == '\n' || c == '*' || c == '?'
    || c == '[' || c == ']' || c == '#' || c == '~' || c == '=' || c == '%' || c == '!' || c == '{' || c == '}' || c == '^'
  }

  /** One shell word read by the quoting rules of that section: between single quotes every character is
      itself, outside a backslash quotes the next character, and a special character is refused. */
  function ReadWord(s: string, quoted: bool): Option<string> {
    if s == "" then (if quoted then None else Some(""))
    else if s[0] == '\'' then ReadWord(s[1..], !quoted)
    else if !quoted && s[0] == '\\' && |s| >= 2 then
      (match ReadWord(s[2..], false) case None => None case Some(rest) => Some([s[1]] + rest))
    else if quoted || !IsShellSpecial(s[0]) then
      (match ReadWord(s[1..], quoted) case None => None case Some(rest) => Some([s[0]] + rest))
    else None
  }

  lemma {:induction false} PlainReads(v: string)
    requires forall c :: c in v ==> IsShellPlain(c)
    ensures ReadWord(v, false) == Some(v)
  {
    if v != "" {
      assert v[0] in v && forall c :: c in v[1..] ==> c in v;
      PlainReads(v[1..]);
      assert [v[0]] + v[1..] == v;
    }
  }

  /** An escaped quote takes the reader out of the quotes, over the quote and back in. */
  lemma QuoteReads(rest: string, v: string)
    requires ReadWord(rest, true) == Some(v)
    ensures ReadWord("'\\''" + rest, true) == Some("'" + v)
  {
    var three, two := "\\''" + rest, "'" + rest;
    assert ("'\\''" + rest)[1..] == three && three[2..] == two && two[1..] == rest;
    assert ReadWord(two, false) == Some(v);
    assert ReadWord(three, false) == Some(['\''] + v);
  }

  lemma {:induction false} EscapedReads(v: string)
    ensures ReadWord(Escaped(v) + "'", true) == Some(v)
  {
    var s := Escaped(v) + "'";
    if v == "" {
      assert s == "'" && s[1..] == "";
    } else {
      var rest := Escaped(v[1..]) + "'";
      EscapedReads(v[1..]);
      assert [v[0]] + v[1..] == v;
      if v[0] == '\'' {
        QuoteReads(rest, v[1..]);
        assert s == "'\\''" + rest;
      } else {
        assert s[0] == v[0] && s[1..] == rest;
      }
    }
  }

  /** The shell reads a quoted value back as one word that is the value, whatever it is. */
  lemma ShellQuoteReads(v: string)
    ensures ReadWord(ShellQuote(v), false) == Some(v)
  {
    if v != "" && forall c :: c in v ==> IsShellPlain(c) {
      PlainReads(v);
    } else {
      EscapedReads(v);
      var s := ShellQuote(v);
      assert s == "'" + (Escaped(v) + "'") && s[1..] == Escaped(v) + "'";
    }
  }

  /** The lifecycle events Munshi manages, and what each calls its hook. */
  datatype Managed = Stop | SessionEnd {
    function Event(): string { if Stop? then "Stop" else "SessionEnd" }
    function Hook(): string { if Stop? then "agent-stop" else "session-end" }
  }

  function Invocation(m: Managed): string {
    " hook " + m.Hook() + " --source claude-code"
  }

  function HookCommand(executable: string, m: Managed): string {
    ShellQuote(executable) + Invocation(m)
  }

  function ManagedEntry(command: string): Json {
    Object(map["hooks" := Array([Object(map[
      "type" := String("command"), "command" := String(command), "timeout" := Number(2)])])])
  }

  predicate EndsWith(s: string, suffix: string) {
    |suffix| <= |s| && s[|s| - |suffix|..] == suffix
  }

  /** `is_munshi_hook_entry`. */
  predicate IsMunshiEntry(entry: Json) {
    && entry.Object? && "hooks" in entry.fields && entry.fields["hooks"].Array?
    && |entry.fields["hooks"].items| == 1 && entry.fields["hooks"].items[0].Object?
    && var hook := entry.fields["hooks"].items[0].fields;
       && GetString(hook, "type") == Some("command")
       && GetString(hook, "command").Some?
       && (EndsWith(GetString(hook, "command").value, Invocation(Stop))
           || EndsWith(GetString(hook, "command").value, Invocation(SessionEnd)))
  }

  lemma OwnEntryIsMunshi(executable: string, m: Managed)
    ensures IsMunshiEntry(ManagedEntry(HookCommand(executable, m)))
  {
    var command := HookCommand(executable, m);
    assert command[|command| - |Invocation(m)|..] == Invocation(m);
    var entry := ManagedEntry(command);
    hide Invocation, ShellQuote;
    var hook := entry.fields["hooks"].items[0].fields;
    assert GetString(hook, "type") == Some("command") && GetString(hook, "command") == Some(command);
  }

  // ----- the merge

  function Foreign(entries: seq<Json>): (r: seq<Json>)
    ensures forall e :: e in r ==> !IsMunshiEntry(e)
  {
    if entries == [] then []
    else (if IsMunshiEntry(entries[0]) then [] else [entries[0]]) + Foreign(entries[1..])
  }

  function Owned(entries: seq<Json>): seq<Json> {
    if entries == [] then []
    else (if IsMunshiEntry(entries[0]) then [entries[0]] else []) + Owned(entries[1..])
  }

  /** The entries of an event; none when there is no such array. */
  function EntriesOf(hooks: JsonObject, event: string): seq<Json> {
    if event in hooks && hooks[event].Array? then hooks[event].items else []
  }

  function HooksOf(settings: JsonObject): JsonObject {
    if "hooks" in settings && settings["hooks"].Object? then settings["hooks"].fields else map[]
  }

  function InstallEvent(hooks: JsonObject, m: Managed, executable: string): Option<JsonObject> {
    if m.Event() in hooks && !hooks[m.Event()].Array? then None
    else Some(hooks[m.Event() := Array(Foreign(EntriesOf(hooks, m.Event())) + [ManagedEntry(HookCommand(executable, m))])])
  }

  /** `install_claude_hooks`; nothing is written when a container is not what it should be. */
  function Install(settings: JsonObject, executable: string): Option<JsonObject> {
    if "hooks" in settings && !settings["hooks"].Object? then None
    else match InstallEvent(HooksOf(settings), Stop, executable)
      case None => None
      case Some(stopped) =>
        match InstallEvent(stopped, SessionEnd, executable)
        case None => None
        case Some(hooks) => Some(settings["hooks" := Object(hooks)])
  }

  function PruneEvent(hooks: JsonObject, m: Managed): JsonObject {
    if m.Event() !in hooks || !hooks[m.Event()].Array? then hooks
    else
      var kept := Foreign(hooks[m.Event()].items);
      if kept == [] then hooks - {m.Event()} else hooks[m.Event() := Array(kept)]
  }

  /** The settings without Munshi's entries and without the managed containers they leave empty. */
  function Pruned(settings: JsonObject): JsonObject {
    if "hooks" !in settings || !settings["hooks"].Object? then settings
    else
      var hooks := PruneEvent(PruneEvent(settings["hooks"].fields, Stop), SessionEnd);
      if hooks == map[] then settings - {"hooks"} else settings["hooks" := Object(hooks)]
  }

  /** An entry was taken out or the whole hooks object was. */
  predicate RemovalChanges(settings: JsonObject) {
    && "hooks" in settings && settings["hooks"].Object?
    && var hooks := settings["hooks"].fields;
       || Owned(EntriesOf(hooks, "Stop")) != []
       || Owned(EntriesOf(hooks, "SessionEnd")) != []
       || PruneEvent(PruneEvent(hooks, Stop), SessionEnd) == map[]
  }

  /** `remove_claude_hooks`: the file is written only when that happened. */
  function Remove(settings: JsonObject): JsonObject {
    if RemovalChanges(settings) then Pruned(settings) else settings
  }

  datatype Status = Installed | Missing | Stale

  /** `claude_hooks_status` of a readable settings object. */
  function StatusOf(settings: JsonObject, executable: string): Status {
    var stop, end := Owned(EntriesOf(HooksOf(settings), "Stop")), Owned(EntriesOf(HooksOf(settings), "SessionEnd"));
    if stop == [] && end == [] then Missing
    else if stop == [ManagedEntry(HookCommand(executable, Stop))]
         && end == [ManagedEntry(HookCommand(executable, SessionEnd))] then Installed
    else Stale
  }

  // ----- the file

  lemma Regroup(a: seq<Json>, b: seq<Json>, c: seq<Json>)
    ensures (a + b) + c == a + (b + c)
  {
  }

  lemma {:induction false} ForeignSnoc(entries: seq<Json>, e: Json)
    ensures Foreign(entries + [e]) == Foreign(entries) + (if IsMunshiEntry(e) then [] else [e])
  {
    hide IsMunshiEntry;
    if entries == [] {
      assert entries + [e] == [e] && [e][1..] == [];
    } else {
      ForeignSnoc(entries[1..], e);
      assert (entries + [e])[0] == entries[0] && (entries + [e])[1..] == entries[1..] + [e];
      Regroup(if IsMunshiEntry(entries[0]) then [] else [entries[0]], Foreign(entries[1..]), if IsMunshiEntry(e) then [] else [e]);
    }
  }

  lemma {:induction false} OwnedSnoc(entries: seq<Json>, e: Json)
    ensures Owned(entries + [e]) == Owned(entries) + (if IsMunshiEntry(e) then [e] else [])
  {
    hide IsMunshiEntry;
    if entries == [] {
      assert entries + [e] == [e] && [e][1..] == [];
    } else {
      OwnedSnoc(entries[1..], e);
      assert (entries + [e])[0] == entries[0] && (entries + [e])[1..] == entries[1..] + [e];
      Regroup(if IsMunshiEntry(entries[0]) then [entries[0]] else [], Owned(entries[1..]), if IsMunshiEntry(e) then [e] else []);
    }
  }

  lemma {:induction false} ForeignIsFixed(entries: seq<Json>)
    requires forall e :: e in entries ==> !IsMunshiEntry(e)
    ensures Foreign(entries) == entries && Owned(entries) == []
  {
    hide IsMunshiEntry;
    if entries != [] {
      assert entries[0] in entries && forall e :: e in entries[1..] ==> e in entries;
      ForeignIsFixed(entries[1..]);
    }
  }

  class SettingsFile {
    /** The settings object; the file may hold anything else, which is refused before this. */
    var settings: JsonObject

    constructor (settings: JsonObject)
      ensures this.settings == settings
    {
      this.settings := settings;
    }

    /** `entries.retain(|entry| !is_munshi_hook_entry(entry))`. */
    method Retain(entries: seq<Json>) returns (kept: seq<Json>, dropped: nat)
      ensures kept == Foreign(entries) && dropped == |Owned(entries)|
    {
      hide IsMunshiEntry;
      kept, dropped := [], 0;
      for i := 0 to |entries|
        invariant kept == Foreign(entries[..i]) && dropped == |Owned(entries[..i])|
      {
        assert entries[..i + 1] == entries[..i] + [entries[i]];
        ForeignSnoc(entries[..i], entries[i]);
        OwnedSnoc(entries[..i], entries[i]);
        if IsMunshiEntry(entries[i]) {
          dropped := dropped + 1;
        } else {
          kept := kept + [entries[i]];
        }
      }
      assert entries[..|entries|] == entries;
    }

    method InstallHooks(executable: string) returns (ok: bool)
      modifies this
      ensures ok == Install(old(settings), executable).Some?
      ensures settings == if ok then Install(old(settings), executable).value else old(settings)
    {
      hide Foreign, ManagedEntry, HookCommand;
      if "hooks" in settings && !settings["hooks"].Object? { return false; }
      var hooks: JsonObject := if "hooks" in settings then settings["hooks"].fields else map[];
      var kept, dropped;
      if "Stop" in hooks && !hooks["Stop"].Array? { return false; }
      kept, dropped := Retain(if "Stop" in hooks then hooks["Stop"].items else []);
      hooks := hooks["Stop" := Array(kept + [ManagedEntry(HookCommand(executable, Stop))])];
      if "SessionEnd" in hooks && !hooks["SessionEnd"].Array? { return false; }
      kept, dropped := Retain(if "SessionEnd" in hooks then hooks["SessionEnd"].items else []);
      hooks := hooks["SessionEnd" := Array(kept + [ManagedEntry(HookCommand(executable, SessionEnd))])];
      settings := settings["hooks" := Object(hooks)];
      ok := true;
    }

    method RemoveHooks()
      modifies this
      ensures settings == Remove(old(settings))
    {
      hide Foreign, Owned;
      if "hooks" !in settings || !settings["hooks"].Object? { return; }
      var hooks := settings["hooks"].fields;
      var changed := false;
      if "Stop" in hooks && hooks["Stop"].Array? {
        var kept, dropped := Retain(hooks["Stop"].items);
        changed := dropped != 0;
        hooks := if kept == [] then hooks - {"Stop"} else hooks["Stop" := Array(kept)];
      }
      NothingOwned();
      if "SessionEnd" in hooks && hooks["SessionEnd"].Array? {
        var kept, dropped := Retain(hooks["SessionEnd"].items);
        changed := changed || dropped != 0;
        hooks := if kept == [] then hooks - {"SessionEnd"} else hooks["SessionEnd" := Array(kept)];
      }
      if hooks == map[] {
        settings := settings - {"hooks"};
      } else if changed {
        settings := settings["hooks" := Object(hooks)];
      }
    }
  }

  lemma NothingOwned()
    ensures Owned([]) == [] && Foreign([]) == []
  {
  }

  // ----- the theorems

  lemma InstalledEvent(hooks: JsonObject, m: Managed, executable: string)
    requires InstallEvent(hooks, m, executable).Some?
    ensures var entries := EntriesOf(InstallEvent(hooks, m, executable).value, m.Event());
            && Owned(entries) == [ManagedEntry(HookCommand(executable, m))]
            && Foreign(entries) == Foreign(EntriesOf(hooks, m.Event()))
  {
    hide IsMunshiEntry, ManagedEntry, HookCommand;
    var before := Foreign(EntriesOf(hooks, m.Event()));
    OwnEntryIsMunshi(executable, m);
    ForeignIsFixed(before);
    ForeignSnoc(before, ManagedEntry(HookCommand(executable, m)));
    OwnedSnoc(before, ManagedEntry(HookCommand(executable, m)));
    hide Foreign, Owned;
  }

  /** Installing makes the status installed, changes no other key and no other event, and keeps every
      foreign entry in order. */
  lemma InstallRespectsOwner(settings: JsonObject, executable: string)
    requires Install(settings, executable).Some?
    ensures var after := Install(settings, executable).value;
            && StatusOf(after, executable) == Installed
            && (forall key :: key != "hooks" ==> Get(after, key) == Get(settings, key))
            && (forall event :: event != "Stop" && event != "SessionEnd" ==>
                  Get(HooksOf(after), event) == Get(HooksOf(settings), event))
            && (forall event :: Foreign(EntriesOf(HooksOf(after), event)) == Foreign(EntriesOf(HooksOf(settings), event)))
  {
    hide Foreign, Owned, ManagedEntry, HookCommand;
    var hooks := HooksOf(settings);
    var stopped := InstallEvent(hooks, Stop, executable).value;
    InstalledEvent(hooks, Stop, executable);
    InstalledEvent(stopped, SessionEnd, executable);
    var after := Install(settings, executable).value;
    assert EntriesOf(stopped, "SessionEnd") == EntriesOf(hooks, "SessionEnd");
    assert EntriesOf(HooksOf(after), "Stop") == EntriesOf(stopped, "Stop");
    forall event
      ensures Foreign(EntriesOf(HooksOf(after), event)) == Foreign(EntriesOf(hooks, event))
    {
      if event != "Stop" && event != "SessionEnd" {
        assert EntriesOf(HooksOf(after), event) == EntriesOf(hooks, event);
      }
    }
  }

  lemma InstalledStays(hooks: JsonObject, m: Managed, executable: string, foreign: seq<Json>)
    requires m.Event() in hooks
    requires hooks[m.Event()] == Array(foreign + [ManagedEntry(HookCommand(executable, m))])
    requires Foreign(EntriesOf(hooks, m.Event())) == foreign
    ensures InstallEvent(hooks, m, executable) == Some(hooks)
  {
    hide Foreign, ManagedEntry, HookCommand;
    assert hooks[m.Event() := hooks[m.Event()]] == hooks;
  }

  /** Installing again changes nothing. */
  lemma InstallIsIdempotent(settings: JsonObject, executable: string)
    requires Install(settings, executable).Some?
    ensures Install(Install(settings, executable).value, executable) == Install(settings, executable)
  {
    hide Foreign, Owned, ManagedEntry, HookCommand;
    var hooks := HooksOf(settings);
    var stopped := InstallEvent(hooks, Stop, executable).value;
    var done := InstallEvent(stopped, SessionEnd, executable).value;
    InstalledEvent(hooks, Stop, executable);
    InstalledEvent(stopped, SessionEnd, executable);
    assert EntriesOf(done, "Stop") == EntriesOf(stopped, "Stop");
    InstalledStays(done, Stop, executable, Foreign(EntriesOf(hooks, "Stop")));
    InstalledStays(done, SessionEnd, executable, Foreign(EntriesOf(stopped, "SessionEnd")));
    var after := Install(settings, executable).value;
    assert HooksOf(after) == done && after["hooks" := Object(done)] == after;
  }

  /** Removing leaves no entry of Munshi's, every foreign entry in order, and every other key. */
  lemma RemoveRespectsOwner(settings: JsonObject, executable: string)
    ensures var after := Remove(settings);
            && StatusOf(after, executable) == Missing
            && (forall key :: key != "hooks" ==> Get(after, key) == Get(settings, key))
            && (forall event :: Foreign(EntriesOf(HooksOf(after), event)) == Foreign(EntriesOf(HooksOf(settings), event)))
  {
    hide IsMunshiEntry;
    var hooks := HooksOf(settings);
    var stopped := PruneEvent(hooks, Stop);
    PrunedEvent(hooks, Stop);
    PrunedEvent(stopped, SessionEnd);
    NothingOwned();
    hide Foreign, Owned;
    var after := Remove(settings);
    if "hooks" in settings && settings["hooks"].Object? && RemovalChanges(settings) {
      var done := PruneEvent(stopped, SessionEnd);
      assert HooksOf(after) == done;
    } else {
      assert after == settings;
    }
  }

  lemma PrunedEvent(hooks: JsonObject, m: Managed)
    ensures var after := PruneEvent(hooks, m);
            && Owned(EntriesOf(after, m.Event())) == []
            && (forall event :: event != m.Event() ==> EntriesOf(after, event) == EntriesOf(hooks, event))
            && (forall event :: Foreign(EntriesOf(after, event)) == Foreign(EntriesOf(hooks, event)))
  {
    hide IsMunshiEntry;
    ForeignIsFixed(Foreign(EntriesOf(hooks, m.Event())));
    NothingOwned();
    hide Foreign, Owned;
    var after := PruneEvent(hooks, m);
    forall event | event != m.Event()
      ensures EntriesOf(after, event) == EntriesOf(hooks, event)
    {
    }
  }

  /** Taking out what was installed gives the settings back without Munshi's entries and without empty
      managed containers. */
  lemma RemoveAfterInstall(settings: JsonObject, executable: string)
    requires Install(settings, executable).Some?
    ensures Remove(Install(settings, executable).value) == Pruned(settings)
  {
    hide Foreign, Owned, ManagedEntry, HookCommand, PruneEvent;
    var hooks := HooksOf(settings);
    var stopped := InstallEvent(hooks, Stop, executable).value;
    var done := InstallEvent(stopped, SessionEnd, executable).value;
    InstalledEvent(hooks, Stop, executable);
    InstalledEvent(stopped, SessionEnd, executable);
    EmptyPrunes();
    assert EntriesOf(done, "Stop") == EntriesOf(stopped, "Stop");
    PruneAfterInstall(hooks, executable);
    var after := Install(settings, executable).value;
    assert RemovalChanges(after);
    assert PruneEvent(PruneEvent(done, Stop), SessionEnd) == PruneEvent(PruneEvent(hooks, Stop), SessionEnd);
    assert after - {"hooks"} == settings - {"hooks"};
  }

  lemma EmptyPrunes()
    ensures PruneEvent(PruneEvent(map[], Stop), SessionEnd) == map[]
  {
  }

  /** What pruning leaves at an event whose value is an array or absent. */
  lemma PrunedAt(hooks: JsonObject, m: Managed)
    requires m.Event() in hooks ==> hooks[m.Event()].Array?
    ensures var kept := Foreign(EntriesOf(hooks, m.Event()));
            Get(PruneEvent(hooks, m), m.Event()) == (if kept == [] then None else Some(Array(kept)))
    ensures forall key :: key != m.Event() ==> Get(PruneEvent(hooks, m), key) == Get(hooks, key)
  {
    NothingOwned();
    hide Foreign;
  }

  lemma SameMembers(a: JsonObject, b: JsonObject)
    requires forall key :: Get(a, key) == Get(b, key)
    ensures a == b
  {
    forall key
      ensures key in a <==> key in b
      ensures key in a ==> a[key] == b[key]
    {
      assert Get(a, key) == Get(b, key);
    }
    assert a.Keys == b.Keys;
  }

  lemma PruneAfterInstall(hooks: JsonObject, executable: string)
    requires InstallEvent(hooks, Stop, executable).Some?
    requires InstallEvent(InstallEvent(hooks, Stop, executable).value, SessionEnd, executable).Some?
    ensures var done := InstallEvent(InstallEvent(hooks, Stop, executable).value, SessionEnd, executable).value;
            PruneEvent(PruneEvent(done, Stop), SessionEnd) == PruneEvent(PruneEvent(hooks, Stop), SessionEnd)
  {
    hide Foreign, ManagedEntry, HookCommand, PruneEvent;
    var one := InstallEvent(hooks, Stop, executable).value;
    var done := InstallEvent(one, SessionEnd, executable).value;
    InstalledEvent(hooks, Stop, executable);
    InstalledEvent(one, SessionEnd, executable);
    var x, y := PruneEvent(done, Stop), PruneEvent(hooks, Stop);
    PrunedAt(done, Stop);
    PrunedAt(hooks, Stop);
    assert Get(x, "SessionEnd") == Get(done, "SessionEnd") && Get(y, "SessionEnd") == Get(hooks, "SessionEnd");
    PrunedAt(x, SessionEnd);
    PrunedAt(y, SessionEnd);
    forall key
      ensures Get(PruneEvent(x, SessionEnd), key) == Get(PruneEvent(y, SessionEnd), key)
    {
      if key != "Stop" && key != "SessionEnd" {
        assert Get(done, key) == Get(hooks, key);
      }
    }
    SameMembers(PruneEvent(x, SessionEnd), PruneEvent(y, SessionEnd));
  }

  /** No entry of Munshi's and no empty managed container. */
  predicate IsClean(settings: JsonObject) {
    "hooks" in settings && settings["hooks"].Object? ==>
      var hooks := settings["hooks"].fields;
      && hooks != map[]
      && (forall m: Managed :: m.Event() in hooks && hooks[m.Event()].Array? ==>
            hooks[m.Event()].items != [] && Owned(hooks[m.Event()].items) == [])
  }

  lemma {:induction false} ForeignWhole(entries: seq<Json>)
    ensures Foreign(entries) == entries <==> Owned(entries) == []
    ensures |Foreign(entries)| + |Owned(entries)| == |entries|
  {
    hide IsMunshiEntry;
    if entries != [] {
      ForeignWhole(entries[1..]);
      assert entries == [entries[0]] + entries[1..];
    }
  }

  /** Installing and removing gives exactly the settings back if and only if they were clean. */
  lemma RoundTripIff(settings: JsonObject, executable: string)
    requires Install(settings, executable).Some?
    ensures Remove(Install(settings, executable).value) == settings <==> IsClean(settings)
  {
    RemoveAfterInstall(settings, executable);
    hide Install, Remove, IsMunshiEntry;
    if "hooks" in settings && settings["hooks"].Object? {
      var hooks := settings["hooks"].fields;
      ForeignWhole(EntriesOf(hooks, "Stop"));
      ForeignWhole(EntriesOf(hooks, "SessionEnd"));
      hide Foreign, Owned;
      PruneIsFixedIff(hooks);
      if Pruned(settings) == settings {
        assert settings["hooks"] == Object(PruneEvent(PruneEvent(hooks, Stop), SessionEnd));
      }
    }
  }

  lemma PruneIsFixedIff(hooks: JsonObject)
    ensures PruneEvent(PruneEvent(hooks, Stop), SessionEnd) == hooks <==>
              forall m: Managed :: m.Event() in hooks && hooks[m.Event()].Array? ==>
                hooks[m.Event()].items != [] && Owned(hooks[m.Event()].items) == []
  {
    hide IsMunshiEntry;
    ForeignWhole(EntriesOf(hooks, "Stop"));
    ForeignWhole(EntriesOf(hooks, "SessionEnd"));
    hide Foreign, Owned;
    var done := PruneEvent(PruneEvent(hooks, Stop), SessionEnd);
    if done == hooks {
      assert EntriesOf(done, "Stop") == EntriesOf(hooks, "Stop");
      assert EntriesOf(done, "SessionEnd") == EntriesOf(hooks, "SessionEnd");
      assert "Stop" in done <==> "Stop" in hooks;
      assert "SessionEnd" in done <==> "SessionEnd" in hooks;
    } else {
      assert Stop.Event() == "Stop" && SessionEnd.Event() == "SessionEnd";
    }
  }

  /** A managed event whose array holds nothing. */
  predicate IsEmptyManaged(hooks: JsonObject, key: string) {
    (key == "Stop" || key == "SessionEnd") && key in hooks && hooks[key].Array? && hooks[key].items == []
  }

  /** Without an entry of Munshi's, pruning takes out the empty managed arrays and nothing else. */
  lemma PruneUnowned(hooks: JsonObject, m: Managed)
    requires Owned(EntriesOf(hooks, m.Event())) == []
    ensures forall key :: Get(PruneEvent(hooks, m), key) ==
                          if key == m.Event() && IsEmptyManaged(hooks, key) then None else Get(hooks, key)
  {
    ForeignWhole(EntriesOf(hooks, m.Event()));
    hide Foreign, Owned, IsMunshiEntry;
  }

  lemma PruneBothUnowned(hooks: JsonObject)
    requires Owned(EntriesOf(hooks, "Stop")) == [] && Owned(EntriesOf(hooks, "SessionEnd")) == []
    ensures var done := PruneEvent(PruneEvent(hooks, Stop), SessionEnd);
            && (done == map[] <==> forall key :: key in hooks ==> IsEmptyManaged(hooks, key))
            && (done == hooks <==> forall key :: key in hooks ==> !IsEmptyManaged(hooks, key))
  {
    hide Owned, PruneEvent;
    PruneUnowned(hooks, Stop);
    var one := PruneEvent(hooks, Stop);
    assert Get(one, "SessionEnd") == Get(hooks, "SessionEnd");
    assert EntriesOf(one, "SessionEnd") == EntriesOf(hooks, "SessionEnd");
    PruneUnowned(one, SessionEnd);
    var done := PruneEvent(one, SessionEnd);
    forall key
      ensures Get(done, key) == if IsEmptyManaged(hooks, key) then None else Get(hooks, key)
    {
      assert Get(one, key) == if key == "Stop" && IsEmptyManaged(hooks, key) then None else Get(hooks, key);
    }
    assert forall key :: key in done <==> Get(done, key).Some?;
    if forall key :: key in hooks ==> !IsEmptyManaged(hooks, key) {
      SameMembers(done, hooks);
    }
    if key :| key in hooks && IsEmptyManaged(hooks, key) {
      assert key !in done;
    }
    if forall key :: key in hooks ==> IsEmptyManaged(hooks, key) {
      SameMembers(done, map[]);
    }
    if key :| key in hooks && !IsEmptyManaged(hooks, key) {
      assert key in done;
    }
  }

  /** Removing leaves an empty managed container behind if and only if there is no entry to take out, some
      managed array is empty, and the hooks object holds anything else; then it changes nothing. */
  lemma EmptyArrayStaysIff(settings: JsonObject)
    ensures Remove(settings) != Pruned(settings) <==>
              && "hooks" in settings && settings["hooks"].Object?
              && var hooks := settings["hooks"].fields;
                 && Owned(EntriesOf(hooks, "Stop")) == [] && Owned(EntriesOf(hooks, "SessionEnd")) == []
                 && (exists key :: key in hooks && IsEmptyManaged(hooks, key))
                 && (exists key :: key in hooks && !IsEmptyManaged(hooks, key))
    ensures Remove(settings) != Pruned(settings) ==> Remove(settings) == settings
  {
    hide Owned, PruneEvent;
    if "hooks" in settings && settings["hooks"].Object? {
      var hooks := settings["hooks"].fields;
      if Owned(EntriesOf(hooks, "Stop")) == [] && Owned(EntriesOf(hooks, "SessionEnd")) == [] {
        PruneBothUnowned(hooks);
        if Pruned(settings) == settings && PruneEvent(PruneEvent(hooks, Stop), SessionEnd) != map[] {
          assert settings["hooks"] == Object(PruneEvent(PruneEvent(hooks, Stop), SessionEnd));
        }
        if PruneEvent(PruneEvent(hooks, Stop), SessionEnd) == hooks && hooks != map[] {
          assert settings["hooks" := Object(hooks)] == settings;
        }
      }
    }
  }

  // ----- whose an entry is

  /** One command hook, and nothing else, whose command ends in one of the two invocations. */
  predicate IsOurs(entry: Json) {
    && entry.Object? && "hooks" in entry.fields && entry.fields["hooks"].Array?
    && var hooks := entry.fields["hooks"].items;
       && |hooks| == 1 && hooks[0].Object?
       && var hook := hooks[0].fields;
          && "type" in hook && hook["type"] == String("command")
          && "command" in hook && hook["command"].String?
          && (|| EndsIn(hook["command"].text, " hook agent-stop --source claude-code")
              || EndsIn(hook["command"].text, " hook session-end --source claude-code"))
  }

  predicate EndsIn(text: string, tail: string) {
    |tail| <= |text| && forall i :: 0 <= i < |tail| ==> text[|text| - |tail| + i] == tail[i]
  }

  lemma EndsInIff(text: string, tail: string)
    ensures EndsIn(text, tail) <==> EndsWith(text, tail)
  {
    if |tail| <= |text| {
      var end := text[|text| - |tail|..];
      assert forall i :: 0 <= i < |tail| ==> end[i] == text[|text| - |tail| + i];
    }
  }

  lemma StopInvocation()
    ensures Invocation(Stop) == " hook agent-stop --source claude-code"
  {
    assert " hook " + "agent-stop" == " hook agent-stop";
  }

  lemma EndInvocation()
    ensures Invocation(SessionEnd) == " hook session-end --source claude-code"
  {
    assert " hook " + "session-end" == " hook session-end";
  }

  lemma InvocationsAre()
    ensures Invocation(Stop) == " hook agent-stop --source claude-code"
    ensures Invocation(SessionEnd) == " hook session-end --source claude-code"
  {
    StopInvocation();
    EndInvocation();
    hide Invocation;
  }

  lemma OursIff(entry: Json)
    ensures IsMunshiEntry(entry) <==> IsOurs(entry)
  {
    hide EndsIn, EndsWith, Invocation;
    InvocationsAre();
    if entry.Object? && "hooks" in entry.fields && entry.fields["hooks"].Array? {
      var hooks := entry.fields["hooks"].items;
      if |hooks| == 1 && hooks[0].Object? && GetString(hooks[0].fields, "command").Some? {
        var command := GetString(hooks[0].fields, "command").value;
        EndsInIff(command, Invocation(Stop));
        EndsInIff(command, Invocation(SessionEnd));
      }
    }
  }

  /** The entries that are not Munshi's, in their order. */
  function Theirs(entries: seq<Json>): seq<Json> {
    if entries == [] then []
    else if IsOurs(entries[0]) then Theirs(entries[1..])
    else [entries[0]] + Theirs(entries[1..])
  }

  lemma {:induction false} TheirsAreForeign(entries: seq<Json>)
    ensures Theirs(entries) == Foreign(entries)
    ensures Owned(entries) == [] <==> forall e :: e in entries ==> !IsOurs(e)
  {
    hide IsOurs, IsMunshiEntry;
    if entries != [] {
      OursIff(entries[0]);
      TheirsAreForeign(entries[1..]);
      assert forall e :: e in entries <==> e == entries[0] || e in entries[1..];
    }
  }

  lemma EntryIs(command: string)
    ensures ManagedEntry(command) == Object(map["hooks" := Array([Object(map[
                                       "type" := String("command"), "timeout" := Number(2), "command" := String(command)])])])
  {
    assert map["type" := String("command"), "command" := String(command), "timeout" := Number(2)]
        == map["type" := String("command"), "timeout" := Number(2), "command" := String(command)];
  }

  /** What installing does to an owner's file, by what the commands say: every entry of every event that
      is not one command hook with one of the two endings stays, in its order, and the last entry of
      `Stop` and of `SessionEnd` is the executable with the one ending and the other. */
  lemma InstallKeepsTheirs(settings: JsonObject, executable: string)
    requires Install(settings, executable).Some?
    ensures var before, after := HooksOf(settings), HooksOf(Install(settings, executable).value);
            && (forall event :: Theirs(EntriesOf(after, event)) == Theirs(EntriesOf(before, event)))
            && EntriesOf(after, "Stop") == Theirs(EntriesOf(before, "Stop"))
               + [Object(map["hooks" := Array([Object(map[
                    "type" := String("command"), "timeout" := Number(2),
                    "command" := String(ShellQuote(executable) + " hook agent-stop --source claude-code")])])])]
            && EntriesOf(after, "SessionEnd") == Theirs(EntriesOf(before, "SessionEnd"))
               + [Object(map["hooks" := Array([Object(map[
                    "type" := String("command"), "timeout" := Number(2),
                    "command" := String(ShellQuote(executable) + " hook session-end --source claude-code")])])])]
  {
    InstallRespectsOwner(settings, executable);
    InvocationsAre();
    EntryIs(HookCommand(executable, Stop));
    EntryIs(HookCommand(executable, SessionEnd));
    hide Foreign, Owned, Theirs, ManagedEntry, Invocation, ShellQuote;
    var before, after := HooksOf(settings), HooksOf(Install(settings, executable).value);
    forall event
      ensures Theirs(EntriesOf(after, event)) == Theirs(EntriesOf(before, event))
    {
      TheirsAreForeign(EntriesOf(after, event));
      TheirsAreForeign(EntriesOf(before, event));
    }
    TheirsAreForeign(EntriesOf(before, "Stop"));
    TheirsAreForeign(EntriesOf(before, "SessionEnd"));
  }

  /** Installing is refused exactly for a container that is there and not what it should be. */
  lemma InstallIff(settings: JsonObject, executable: string)
    ensures Install(settings, executable).Some? <==>
              "hooks" in settings ==>
                && settings["hooks"].Object?
                && forall event :: event == "Stop" || event == "SessionEnd" ==>
                     event in settings["hooks"].fields ==> settings["hooks"].fields[event].Array?
  {
    hide Foreign, ManagedEntry, HookCommand;
    assert Stop.Event() == "Stop" && SessionEnd.Event() == "SessionEnd";
    if "hooks" in settings && settings["hooks"].Object? {
      var hooks := settings["hooks"].fields;
      if forall event :: event == "Stop" || event == "SessionEnd" ==> event in hooks ==> hooks[event].Array? {
        assert "Stop" in hooks ==> hooks["Stop"].Array?;
        assert "SessionEnd" in hooks ==> hooks["SessionEnd"].Array?;
      }
    }
  }

  /** What removing does to it: at `Stop` and `SessionEnd` exactly the entries that are not Munshi's are
      left, in their order, and every other event keeps all of its entries. */
  lemma RemoveKeepsTheirs(settings: JsonObject)
    ensures var before, after := HooksOf(settings), HooksOf(Remove(settings));
            && EntriesOf(after, "Stop") == Theirs(EntriesOf(before, "Stop"))
            && EntriesOf(after, "SessionEnd") == Theirs(EntriesOf(before, "SessionEnd"))
            && (forall event :: event != "Stop" && event != "SessionEnd" ==>
                  EntriesOf(after, event) == EntriesOf(before, event))
  {
    hide IsMunshiEntry, IsOurs;
    var hooks := HooksOf(settings);
    var stopped := PruneEvent(hooks, Stop);
    var done := PruneEvent(stopped, SessionEnd);
    PrunedEvent(hooks, Stop);
    PrunedEvent(stopped, SessionEnd);
    TheirsAreForeign(EntriesOf(hooks, "Stop"));
    TheirsAreForeign(EntriesOf(hooks, "SessionEnd"));
    ForeignWhole(EntriesOf(hooks, "Stop"));
    ForeignWhole(EntriesOf(hooks, "SessionEnd"));
    ForeignWhole(EntriesOf(done, "Stop"));
    ForeignWhole(EntriesOf(done, "SessionEnd"));
    hide Foreign, Owned, Theirs, PruneEvent;
    if "hooks" in settings && settings["hooks"].Object? && RemovalChanges(settings) {
      assert HooksOf(Remove(settings)) == done;
    }
  }

  /** The report in the same terms: missing without an entry of Munshi's, and installed with exactly one
      of each kind, at its event and for this executable. */
  lemma StatusIff(settings: JsonObject, executable: string)
    ensures var hooks := HooksOf(settings);
            && (StatusOf(settings, executable) == Missing <==>
                  && (forall e :: e in EntriesOf(hooks, "Stop") ==> !IsOurs(e))
                  && (forall e :: e in EntriesOf(hooks, "SessionEnd") ==> !IsOurs(e)))
            && (StatusOf(settings, executable) == Installed <==>
                  && OnlyOurs(EntriesOf(hooks, "Stop"), ManagedEntry(ShellQuote(executable) + " hook agent-stop --source claude-code"))
                  && OnlyOurs(EntriesOf(hooks, "SessionEnd"), ManagedEntry(ShellQuote(executable) + " hook session-end --source claude-code")))
  {
    InvocationsAre();
    hide ManagedEntry, Invocation, ShellQuote, IsOurs;
    var hooks := HooksOf(settings);
    TheirsAreForeign(EntriesOf(hooks, "Stop"));
    TheirsAreForeign(EntriesOf(hooks, "SessionEnd"));
    OnlyOursIff(EntriesOf(hooks, "Stop"), ManagedEntry(HookCommand(executable, Stop)));
    OnlyOursIff(EntriesOf(hooks, "SessionEnd"), ManagedEntry(HookCommand(executable, SessionEnd)));
    hide Owned, OnlyOurs;
  }

  /** `entry` stands there once and is the only one of Munshi's. */
  predicate OnlyOurs(entries: seq<Json>, entry: Json) {
    exists i :: 0 <= i < |entries| && entries[i] == entry && IsOurs(entry)
                && forall j :: 0 <= j < |entries| && j != i ==> !IsOurs(entries[j])
  }

  lemma {:induction false} OnlyOursIff(entries: seq<Json>, entry: Json)
    ensures Owned(entries) == [entry] <==> OnlyOurs(entries, entry)
  {
    hide IsOurs, IsMunshiEntry;
    if entries != [] {
      OursIff(entries[0]);
      TheirsAreForeign(entries[1..]);
      OnlyOursIff(entries[1..], entry);
    }
  }
}
