/** What the members of a record say, without the classifier's own helpers, and which of them become the
    fields of a tool event. */
module RecordTexts {
  import opened Wrappers
  import opened Text
  import opened Trimming
  import opened Identity
  import opened JsonValue
  import opened ToolEvents
  import opened Classify

  // ----- texts

  /** The reader of a text gives exactly its core, and nothing when there is none. */
  lemma CoreIff(s: string, t: string)
    ensures NonEmpty(s) == Some(t) <==> IsCore(s, t)
  {
    TrimIff(s, t);
    hide Trim;
  }

  // ----- members

  /** The member is a string with this core. */
  ghost predicate Says(obj: JsonObject, key: string, t: string) {
    key in obj && obj[key].String? && IsCore(obj[key].text, t)
  }

  /** The member is a string with this core, or another value than null with this JSON text. */
  ghost predicate SaysValue(lib: Library, obj: JsonObject, key: string, t: string) {
    && key in obj && !obj[key].Null?
    && if obj[key].String? then IsCore(obj[key].text, t) else t == lib.toText(obj[key])
  }

  /** The member is exactly this string. */
  predicate Is(obj: JsonObject, key: string, t: string) {
    key in obj && obj[key] == String(t)
  }

  predicate HasObject(obj: JsonObject, key: string) {
    key in obj && obj[key].Object?
  }

  lemma SaysIff(obj: JsonObject)
    ensures forall key, t :: Says(obj, key, t) <==> GetText(obj, key) == Some(t)
  {
    hide IsCore, NonEmpty;
    forall key, t
      ensures Says(obj, key, t) <==> GetText(obj, key) == Some(t)
    {
      if key in obj && obj[key].String? {
        CoreIff(obj[key].text, t);
      }
    }
  }

  lemma SaysValueIff(lib: Library, obj: JsonObject)
    ensures forall key, t :: SaysValue(lib, obj, key, t) <==> GetCompact(lib, obj, key) == Some(t)
  {
    hide IsCore, NonEmpty;
    forall key, t
      ensures SaysValue(lib, obj, key, t) <==> GetCompact(lib, obj, key) == Some(t)
    {
      if key in obj && obj[key].String? {
        CoreIff(obj[key].text, t);
      }
    }
  }

  // ----- result texts

  /** The text of one part of a result, by harness. */
  ghost predicate Leaf(source: SourceKind, value: Json, t: string) {
    match value
    case String(s) => IsCore(s, t)
    case Object(obj) =>
      (match source
       case Copilot =>
         || ((Is(obj, "type", "text") || Is(obj, "type", "terminal")) && Says(obj, "text", t))
         || (Is(obj, "type", "shell_exit") && Says(obj, "outputPreview", t))
         || (Is(obj, "type", "resource") && HasObject(obj, "resource") && Says(obj["resource"].fields, "text", t))
       case ClaudeCode => Is(obj, "type", "text") && Says(obj, "text", t)
       case Codex => Says(obj, "text", t))
    case _ => false
  }

  ghost function LeafTexts(source: SourceKind, value: Json): seq<string> {
    if exists t :: Leaf(source, value, t) then var t :| Leaf(source, value, t); [t] else []
  }

  /** The texts of all parts of a result, however deep its lists are, in order. A Codex object's own text
      counts only when its `content` has none. */
  ghost function Leaves(source: SourceKind, value: Json): seq<string>
    decreases value, 1
  {
    if value.Array? then LeavesIn(source, value.items)
    else if source == Codex && value.Object? && "content" in value.fields && Leaves(source, value.fields["content"]) != []
    then Leaves(source, value.fields["content"])
    else LeafTexts(source, value)
  }

  ghost function LeavesIn(source: SourceKind, items: seq<Json>): seq<string>
    decreases items, 0
  {
    if items == [] then [] else Leaves(source, items[0]) + LeavesIn(source, items[1..])
  }

  /** The whole text of a result. */
  ghost predicate SaysResult(source: SourceKind, obj: JsonObject, key: string, t: string) {
    key in obj && Leaves(source, obj[key]) != [] && t == Join(Leaves(source, obj[key]), "\n")
  }

  function Joined(parts: seq<string>): Option<string> {
    if parts == [] then None else Some(Join(parts, "\n"))
  }

  lemma {:induction false} JoinNests(a: seq<string>, b: seq<string>)
    requires a != []
    ensures Join([Join(a, "\n")] + b, "\n") == Join(a + b, "\n")
  {
    if b == [] {
      assert a + b == a && [Join(a, "\n")] + b == [Join(a, "\n")];
    } else if |a| == 1 {
      assert [Join(a, "\n")] + b == a + b;
    } else {
      JoinNests(a[1..], b);
      var inner := Join(a[1..], "\n");
      assert (a + b)[0] == a[0] && (a + b)[1..] == a[1..] + b;
      JoinHead(Join(a, "\n"), b);
      JoinHead(inner, b);
      var tail := "\n" + Join(b, "\n");
      assert a[0] + "\n" + inner + tail == a[0] + "\n" + (inner + tail);
    }
  }

  lemma JoinHead(head: string, b: seq<string>)
    requires b != []
    ensures Join([head] + b, "\n") == head + ("\n" + Join(b, "\n"))
  {
    assert ([head] + b)[1..] == b;
    assert head + "\n" + Join(b, "\n") == head + ("\n" + Join(b, "\n"));
  }

  /** What the result readers' lists of parts come to. */
  lemma PartsNest(first: seq<string>, rest: seq<string>, parts: seq<string>)
    requires Joined(parts) == Joined(rest) && (rest == [] <==> parts == [])
    ensures first == [] ==> Joined(parts) == Joined(first + rest)
    ensures first != [] ==> Joined([Join(first, "\n")] + parts) == Joined(first + rest)
  {
    if first == [] {
      assert first + rest == rest;
    } else if rest == [] {
      assert first + rest == first && [Join(first, "\n")] + parts == [Join(first, "\n")];
    } else {
      JoinNests(first, rest);
      JoinHead(Join(first, "\n"), rest);
      JoinHead(Join(first, "\n"), parts);
    }
  }

  lemma LeafTextsAre(source: SourceKind, value: Json, text: Option<string>)
    requires forall t :: Leaf(source, value, t) <==> text == Some(t)
    ensures Joined(LeafTexts(source, value)) == text
    ensures LeafTexts(source, value) == [] <==> text.None?
  {
    hide Leaf;
    if text.Some? {
      assert Leaf(source, value, text.value);
    }
  }

  lemma CoresIff(s: string)
    ensures forall t :: IsCore(s, t) <==> NonEmpty(s) == Some(t)
  {
    hide IsCore, NonEmpty;
    forall t
      ensures IsCore(s, t) <==> NonEmpty(s) == Some(t)
    {
      CoreIff(s, t);
    }
  }

  lemma {:induction false} CopilotResult(value: Json)
    ensures ResultText(value) == Joined(Leaves(Copilot, value))
    decreases value, 1
  {
    hide IsCore, NonEmpty, GetText, Says, Join, LeafTexts;
    match value
    case Array(items) => CopilotResults(items);
    case String(s) => CoresIff(s); LeafTextsAre(Copilot, value, ResultText(value));
    case Object(obj) =>
      SaysIff(obj);
      if HasObject(obj, "resource") {
        SaysIff(obj["resource"].fields);
      }
      LeafTextsAre(Copilot, value, ResultText(value));
    case _ => LeafTextsAre(Copilot, value, None);
  }

  lemma {:induction false} CopilotResults(items: seq<Json>)
    ensures Joined(ResultTexts(items)) == Joined(LeavesIn(Copilot, items))
    ensures ResultTexts(items) == [] <==> LeavesIn(Copilot, items) == []
    decreases items, 0
  {
    hide ResultText, Leaves, Join;
    if items != [] {
      CopilotResult(items[0]);
      CopilotResults(items[1..]);
      PartsNest(Leaves(Copilot, items[0]), LeavesIn(Copilot, items[1..]), ResultTexts(items[1..]));
    }
  }

  lemma {:induction false} ClaudeResultText(value: Json)
    ensures ClaudeText(value) == Joined(Leaves(ClaudeCode, value))
    decreases value, 1
  {
    hide IsCore, NonEmpty, GetText, Says, Join, LeafTexts;
    match value
    case Array(items) => ClaudeResultTexts(items);
    case String(s) => CoresIff(s); LeafTextsAre(ClaudeCode, value, ClaudeText(value));
    case Object(obj) => SaysIff(obj); LeafTextsAre(ClaudeCode, value, ClaudeText(value));
    case _ => LeafTextsAre(ClaudeCode, value, None);
  }

  lemma {:induction false} ClaudeResultTexts(items: seq<Json>)
    ensures Joined(ClaudeTexts(items)) == Joined(LeavesIn(ClaudeCode, items))
    ensures ClaudeTexts(items) == [] <==> LeavesIn(ClaudeCode, items) == []
    decreases items, 0
  {
    hide ClaudeText, Leaves, Join;
    if items != [] {
      ClaudeResultText(items[0]);
      ClaudeResultTexts(items[1..]);
      PartsNest(Leaves(ClaudeCode, items[0]), LeavesIn(ClaudeCode, items[1..]), ClaudeTexts(items[1..]));
    }
  }

  lemma {:induction false} CodexResultText(value: Json)
    ensures CodexText(value) == Joined(Leaves(Codex, value))
    decreases value, 1
  {
    hide IsCore, NonEmpty, GetText, Says, Join, LeafTexts;
    match value
    case Array(items) => CodexResultTexts(items);
    case String(s) => CoresIff(s); LeafTextsAre(Codex, value, CodexText(value));
    case Object(obj) =>
      SaysIff(obj);
      if "content" in obj {
        CodexResultText(obj["content"]);
      }
      LeafTextsAre(Codex, value, GetText(obj, "text"));
    case _ => LeafTextsAre(Codex, value, None);
  }

  lemma {:induction false} CodexResultTexts(items: seq<Json>)
    ensures Joined(CodexTexts(items)) == Joined(LeavesIn(Codex, items))
    ensures CodexTexts(items) == [] <==> LeavesIn(Codex, items) == []
    decreases items, 0
  {
    hide CodexText, Leaves, Join;
    if items != [] {
      CodexResultText(items[0]);
      CodexResultTexts(items[1..]);
      PartsNest(Leaves(Codex, items[0]), LeavesIn(Codex, items[1..]), CodexTexts(items[1..]));
    }
  }

  // ----- fields

  lemma {:induction false} InsertLookup(fields: Fields, key: string, value: string)
    ensures forall k :: Lookup(Insert(fields, key, value), k) == if k == key then Some(value) else Lookup(fields, k)
  {
    hide HasKey, Less;
    if fields != [] && fields[0].0 != key && !Less(key, fields[0].0) {
      InsertLookup(fields[1..], key, value);
      var after := Insert(fields, key, value);
      assert after[0] == fields[0] && after[1..] == Insert(fields[1..], key, value);
    } else if fields != [] {
      var after := Insert(fields, key, value);
      assert after[0] == (key, value) && after[1..] == if fields[0].0 == key then fields[1..] else fields;
    }
  }

  lemma InsertSomeLookup(fields: Fields, key: string, value: Option<string>)
    ensures forall k :: Lookup(InsertSome(fields, key, value), k) ==
                        if k == key && value.Some? then value else Lookup(fields, k)
  {
    hide Insert, Lookup;
    if value.Some? {
      InsertLookup(fields, key, value.value);
    }
  }

  lemma EventLookup(event: string)
    ensures forall k :: Lookup(EventFields(event), k) == if k == "event" then Some(event) else None
  {
    hide HasKey;
    InsertLookup([], "event", event);
  }

  /** The fields kept out of the frozen rendering are those of the promoted names. */
  ghost predicate DerivesPromoted(tool: ToolEvent) {
    forall k :: k in tool.derived <==> (k == "command" || k == "skill" || k == "skill_args") && Lookup(tool.fields, k).Some?
  }

  /** The fields a promotion adds to those it found. */
  lemma DerivedLookup(tool: ToolEvent, key: string, value: string)
    requires !HasKey(tool.fields, key)
    ensures forall k :: Lookup(InsertDerived(tool, key, value).fields, k) ==
                        if k == key then Some(value) else Lookup(tool.fields, k)
    ensures InsertDerived(tool, key, value).derived == tool.derived + {key}
  {
    hide Lookup, HasKey, Insert;
    InsertLookup(tool.fields, key, value);
  }

  lemma {:induction false} InsertGrows(fields: Fields, key: string, value: string)
    requires !HasKey(fields, key)
    ensures |Insert(fields, key, value)| == |fields| + 1
  {
    hide Less;
    if fields != [] {
      assert fields[0].0 != key;
      assert forall i :: 0 <= i < |fields[1..]| ==> fields[1..][i] == fields[i + 1];
      if !Less(key, fields[0].0) {
        InsertGrows(fields[1..], key, value);
      }
    }
  }

  lemma InsertSomeGrows(fields: Fields, key: string, value: Option<string>)
    requires !HasKey(fields, key)
    ensures |InsertSome(fields, key, value)| == |fields| + if value.Some? then 1 else 0
  {
    hide Insert, HasKey;
    if value.Some? {
      InsertGrows(fields, key, value.value);
    }
  }

  lemma SaysResultIff(source: SourceKind, obj: JsonObject, key: string)
    ensures var text := if key in obj then Joined(Leaves(source, obj[key])) else None;
            forall t :: SaysResult(source, obj, key, t) <==> text == Some(t)
  {
    hide Leaves, Join;
  }

  lemma EventAlone(event: string)
    ensures |EventFields(event)| == 1
  {
  }

  predicate HasText(obj: JsonObject, key: string) {
    key in obj && obj[key].String?
  }
}
