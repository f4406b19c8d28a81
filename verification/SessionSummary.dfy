/** The counting fold over a transcript's items. */
module SessionSummary {
  import opened Wrappers
  import TranscriptStream

  datatype EventKind = UserEvent | AssistantEvent | ToolEvent

  datatype Classification = Content(events: seq<EventKind>) | Blank | Ignored | Unknown

  /** What the fold looks at in a record: its parsed timestamp and its classification. */
  datatype Reading = Reading(timestamp: Option<int>, classification: Classification)

  type Item = TranscriptStream.Item<Reading>

  datatype Summary = Summary(
    userRequests: nat,
    assistantMessages: nat,
    toolActivities: nat,
    ignoredEvents: nat,
    malformedRecords: nat,
    first: Option<int>,
    last: Option<int>)

  const EMPTY := Summary(0, 0, 0, 0, 0, None, None)

  // ----- the fold

  function Earlier(a: Option<int>, b: Option<int>): Option<int> {
    if a.None? then b else if b.None? then a else if a.value <= b.value then a else b
  }

  function Later(a: Option<int>, b: Option<int>): Option<int> {
    if a.None? then b else if b.None? then a else if a.value >= b.value then a else b
  }

  function Count(events: seq<EventKind>, kind: EventKind): nat {
    if events == [] then 0 else (if events[0] == kind then 1 else 0) + Count(events[1..], kind)
  }

  /** What one item contributes. */
  function Share(item: Item): Summary {
    match item
    case Record(_, _, reading) =>
      (match reading.classification
       case Content(events) =>
         Summary(Count(events, UserEvent), Count(events, AssistantEvent), Count(events, ToolEvent), 0, 0,
                 reading.timestamp, reading.timestamp)
       case Blank => Summary(0, 0, 0, 0, 0, reading.timestamp, reading.timestamp)
       case Ignored => Summary(0, 0, 0, 1, 0, reading.timestamp, reading.timestamp)
       case Unknown => Summary(0, 0, 0, 1, 0, reading.timestamp, reading.timestamp))
    case Malformed(_, _, _) => Summary(0, 0, 0, 0, 1, None, None)
    case ReadFailed(_) => Summary(0, 0, 0, 0, 1, None, None)
  }

  function Combine(a: Summary, b: Summary): Summary {
    Summary(
      a.userRequests + b.userRequests, a.assistantMessages + b.assistantMessages, a.toolActivities + b.toolActivities,
      a.ignoredEvents + b.ignoredEvents, a.malformedRecords + b.malformedRecords,
      Earlier(a.first, b.first), Later(a.last, b.last))
  }

  function Summarize(items: seq<Item>): Summary {
    if items == [] then EMPTY else Combine(Share(items[0]), Summarize(items[1..]))
  }

  /** Item by item or part by part, in any order: the fold over a concatenation is the combination of
      the folds. */
  lemma {:induction false} SummarizeSplits(a: seq<Item>, b: seq<Item>)
    ensures Summarize(a + b) == Combine(Summarize(a), Summarize(b))
  {
    hide Share, Combine;
    if a == [] {
      assert a + b == b;
      CombineEmpty(Summarize(b));
    } else {
      SummarizeSplits(a[1..], b);
      assert (a + b)[1..] == a[1..] + b;
      CombineAssociative(Share(a[0]), Summarize(a[1..]), Summarize(b));
    }
  }

  lemma CombineEmpty(s: Summary)
    ensures Combine(EMPTY, s) == s && Combine(s, EMPTY) == s
  {
  }

  lemma CombineAssociative(a: Summary, b: Summary, c: Summary)
    ensures Combine(a, Combine(b, c)) == Combine(Combine(a, b), c)
  {
  }

  lemma OrderDoesNotMatter(a: seq<Item>, b: seq<Item>)
    ensures Summarize(a + b) == Summarize(b + a)
  {
    SummarizeSplits(a, b);
    SummarizeSplits(b, a);
    hide Summarize;
  }

  // ----- the accumulator

  lemma {:induction false} CountSnoc(events: seq<EventKind>, e: EventKind, kind: EventKind)
    ensures Count(events + [e], kind) == Count(events, kind) + (if e == kind then 1 else 0)
  {
    if events != [] {
      CountSnoc(events[1..], e, kind);
      assert (events + [e])[1..] == events[1..] + [e];
    }
  }

  class Accumulator {
    var userRequests: nat
    var assistantMessages: nat
    var toolActivities: nat
    var ignoredEvents: nat
    var malformedRecords: nat
    var first: Option<int>
    var last: Option<int>

    constructor ()
      ensures Value() == EMPTY
    {
      userRequests, assistantMessages, toolActivities, ignoredEvents, malformedRecords := 0, 0, 0, 0, 0;
      first, last := None, None;
    }

    function Value(): Summary reads this {
      Summary(userRequests, assistantMessages, toolActivities, ignoredEvents, malformedRecords, first, last)
    }

    /** `observe`: the item's share is added, and nothing else. */
    method Observe(item: Item)
      modifies this
      ensures Value() == Combine(old(Value()), Share(item))
    {
      if !item.Record? {
        malformedRecords := malformedRecords + 1;
        return;
      }
      var reading := item.reading;
      if reading.timestamp.Some? {
        var timestamp := reading.timestamp.value;
        first := Some(if first.None? || timestamp < first.value then timestamp else first.value);
        last := Some(if last.None? || timestamp > last.value then timestamp else last.value);
      }
      match reading.classification {
        case Content(events) => CountEvents(events);
        case Blank =>
        case Ignored => ignoredEvents := ignoredEvents + 1;
        case Unknown => ignoredEvents := ignoredEvents + 1;
      }
    }

    method CountEvents(events: seq<EventKind>)
      modifies this`userRequests, this`assistantMessages, this`toolActivities
      ensures userRequests == old(userRequests) + Count(events, UserEvent)
      ensures assistantMessages == old(assistantMessages) + Count(events, AssistantEvent)
      ensures toolActivities == old(toolActivities) + Count(events, ToolEvent)
    {
      for i := 0 to |events|
        invariant userRequests == old(userRequests) + Count(events[..i], UserEvent)
        invariant assistantMessages == old(assistantMessages) + Count(events[..i], AssistantEvent)
        invariant toolActivities == old(toolActivities) + Count(events[..i], ToolEvent)
      {
        assert events[..i + 1] == events[..i] + [events[i]];
        CountSnoc(events[..i], events[i], UserEvent);
        CountSnoc(events[..i], events[i], AssistantEvent);
        CountSnoc(events[..i], events[i], ToolEvent);
        match events[i] {
          case UserEvent => userRequests := userRequests + 1;
          case AssistantEvent => assistantMessages := assistantMessages + 1;
          case ToolEvent => toolActivities := toolActivities + 1;
        }
      }
      assert events[..|events|] == events;
    }
  }

  /** `summarize`. */
  method SummarizeAll(items: seq<Item>) returns (summary: Summary)
    ensures summary == Summarize(items)
  {
    hide Share;
    var accumulator := new Accumulator();
    for i := 0 to |items|
      invariant accumulator.Value() == Summarize(items[..i])
    {
      assert items[..i + 1] == items[..i] + [items[i]];
      SummarizeSplits(items[..i], [items[i]]);
      SummarizeOne(items[i]);
      accumulator.Observe(items[i]);
    }
    assert items[..|items|] == items;
    summary := accumulator.Value();
  }

  lemma SummarizeOne(item: Item)
    ensures Summarize([item]) == Share(item)
  {
    hide Share, Combine;
    assert [item][1..] == [];
    CombineEmpty(Share(item));
  }

  // ----- what the summary says

  function TimestampOf(item: Item): Option<int> {
    if item.Record? then item.reading.timestamp else None
  }

  /** The window is exact: it is empty when no record has a time, otherwise it starts at the earliest
      and ends at the latest recorded time. */
  lemma {:induction false} WindowIsExact(items: seq<Item>)
    ensures var s := Summarize(items);
            && (s.first.Some? <==> exists item :: item in items && TimestampOf(item).Some?)
            && (s.first.Some? <==> s.last.Some?)
            && (s.first.Some? ==>
                  && s.first.value <= s.last.value
                  && (exists item :: item in items && TimestampOf(item) == s.first)
                  && (exists item :: item in items && TimestampOf(item) == s.last)
                  && forall item :: item in items && TimestampOf(item).Some? ==>
                       s.first.value <= TimestampOf(item).value <= s.last.value)
  {
    if items != [] {
      var head, tail := items[0], items[1..];
      WindowIsExact(tail);
      ShareTimes(head);
      hide Share, TimestampOf, Summarize;
      var s, t := Combine(Share(head), Summarize(tail)), Summarize(tail);
      assert head in items && forall item :: item in tail ==> item in items;
      assert forall item :: item in items ==> item == head || item in tail;
      assert Summarize(items) == s by { SummaryUnfolds(items); }
    }
  }

  lemma SummaryUnfolds(items: seq<Item>)
    requires items != []
    ensures Summarize(items) == Combine(Share(items[0]), Summarize(items[1..]))
  {
  }

  lemma ShareTimes(item: Item)
    ensures Share(item).first == TimestampOf(item) && Share(item).last == TimestampOf(item)
  {
  }

  function EventsOf(item: Item): seq<EventKind> {
    if item.Record? && item.reading.classification.Content? then item.reading.classification.events else []
  }

  function Events(items: seq<Item>): seq<EventKind> {
    if items == [] then [] else EventsOf(items[0]) + Events(items[1..])
  }

  predicate IsIgnored(item: Item) {
    item.Record? && (item.reading.classification.Ignored? || item.reading.classification.Unknown?)
  }

  predicate IsUnreadable(item: Item) {
    !item.Record?
  }

  function CountItems(items: seq<Item>, counted: Item -> bool): nat {
    if items == [] then 0 else (if counted(items[0]) then 1 else 0) + CountItems(items[1..], counted)
  }

  lemma {:induction false} CountAppend(a: seq<EventKind>, b: seq<EventKind>, kind: EventKind)
    ensures Count(a + b, kind) == Count(a, kind) + Count(b, kind)
  {
    if a == [] {
      assert a + b == b;
    } else {
      CountAppend(a[1..], b, kind);
      assert (a + b)[1..] == a[1..] + b;
    }
  }

  lemma ShareCounts(item: Item)
    ensures var s := Share(item);
            && s.userRequests == Count(EventsOf(item), UserEvent)
            && s.assistantMessages == Count(EventsOf(item), AssistantEvent)
            && s.toolActivities == Count(EventsOf(item), ToolEvent)
            && s.ignoredEvents == (if IsIgnored(item) then 1 else 0)
            && s.malformedRecords == (if IsUnreadable(item) then 1 else 0)
  {
  }

  /** Nothing is lost and nothing counted twice: each event, each ignored or unknown record and each
      malformed item counts exactly once. */
  lemma {:induction false} CountsAreExact(items: seq<Item>)
    ensures var s := Summarize(items);
            && s.userRequests == Count(Events(items), UserEvent)
            && s.assistantMessages == Count(Events(items), AssistantEvent)
            && s.toolActivities == Count(Events(items), ToolEvent)
            && s.ignoredEvents == CountItems(items, IsIgnored)
            && s.malformedRecords == CountItems(items, IsUnreadable)
  {
    hide Share, EventsOf, IsIgnored, IsUnreadable;
    if items != [] {
      CountsAreExact(items[1..]);
      ShareCounts(items[0]);
      CountAppend(EventsOf(items[0]), Events(items[1..]), UserEvent);
      CountAppend(EventsOf(items[0]), Events(items[1..]), AssistantEvent);
      CountAppend(EventsOf(items[0]), Events(items[1..]), ToolEvent);
      hide Count;
    }
  }
}
