/** The slash-command block of a transcript record: tag segments in any order with nothing around or
    between them but whitespace. */
module CommandBlock {
  import opened Wrappers
  import opened Text

  /** The three tags, by the index they are listed under. */
  type Tag = t: nat | t < 3

  function Open(tag: Tag): string {
    if tag == 0 then "<command-name>" else if tag == 1 then "<command-message>" else "<command-args>"
  }

  function Close(tag: Tag): string {
    if tag == 0 then "</command-name>" else if tag == 1 then "</command-message>" else "</command-args>"
  }

  datatype Found = Found(name: Option<string>, message: Option<string>, args: Option<string>) {
    function Get(tag: Tag): Option<string> {
      if tag == 0 then name else if tag == 1 then message else args
    }

    function Set(tag: Tag, body: string): (r: Found)
      ensures r.Get(tag) == Some(body) && forall t: Tag :: t != tag ==> r.Get(t) == Get(t)
    {
      if tag == 0 then this.(name := Some(body))
      else if tag == 1 then this.(message := Some(body)) else this.(args := Some(body))
    }
  }

  const NOTHING := Found(None, None, None)

  // ----- the parser

  /** The segment of one tag in front of `s`, and what follows it. */
  function SegmentOf(s: string, tag: Tag): Option<(string, string)> {
    match StripPrefix(s, Open(tag))
    case None => None
    case Some(after) => SplitOnce(after, Close(tag))
  }

  /** `find_map` over the tags, in their listed order. */
  function FirstSegment(s: string): Option<(Tag, string, string)> {
    match SegmentOf(s, 0)
    case Some((body, tail)) => Some((0, body, tail))
    case None =>
      match SegmentOf(s, 1)
      case Some((body, tail)) => Some((1, body, tail))
      case None =>
        match SegmentOf(s, 2)
        case Some((body, tail)) => Some((2, body, tail))
        case None => None
  }

  function Segment(tag: Tag, body: string): string {
    Open(tag) + (body + Close(tag))
  }

  /** The three segments as they are written, by what they say. */
  lemma SegmentsAre(body: string)
    ensures Segment(0, body) == "<command-name>" + body + "</command-name>"
    ensures Segment(1, body) == "<command-message>" + body + "</command-message>"
    ensures Segment(2, body) == "<command-args>" + body + "</command-args>"
    ensures NOTHING.Set(0, body).name == Some(body) && NOTHING.Set(1, body).message == Some(body)
    ensures NOTHING.Set(2, body).args == Some(body)
  {
    hide Open, Close;
    TagTexts();
    Regrouped(Open(0), body, Close(0));
    Regrouped(Open(1), body, Close(1));
    Regrouped(Open(2), body, Close(2));
  }

  lemma TagTexts()
    ensures Open(0) == "<command-name>" && Close(0) == "</command-name>"
    ensures Open(1) == "<command-message>" && Close(1) == "</command-message>"
    ensures Open(2) == "<command-args>" && Close(2) == "</command-args>"
  {
  }

  lemma Regrouped(a: string, b: string, c: string)
    ensures a + (b + c) == a + b + c
  {
  }

  /** A segment found is a segment written: its body stops at its first closing tag. */
  lemma SegmentOfIsWritten(s: string, tag: Tag)
    ensures SegmentOf(s, tag).Some? ==>
              var (body, tail) := SegmentOf(s, tag).value;
              s == Segment(tag, body) + tail && !Contains(body, Close(tag)) && |tail| < |s|
  {
    hide Open, Close, Find;
    var open, close := Open(tag), Close(tag);
    TagShape(tag);
    match StripPrefix(s, open)
    case None =>
    case Some(after) =>
      assert s == open + after;
      var found := Find(after, close);
      if found.Some? {
        FindIsFirst(after, close);
        var body, tail := after[..found.value], after[found.value + |close|..];
        assert after == body + close + tail;
        assert s == open + (body + close) + tail;
        BodyHasNoClose(after, close, found.value);
      }
  }

  lemma TagShape(tag: Tag)
    ensures |Open(tag)| > 10 && |Close(tag)| > 10
    ensures Open(tag)[0] == '<' && Close(tag)[0] == '<' && Close(tag)[|Close(tag)| - 1] == '>'
    ensures forall k :: 1 <= k < |Close(tag)| ==> Close(tag)[k] != '<'
  {
  }

  lemma FindIsFirst(s: string, pattern: string)
    ensures Find(s, pattern).Some? ==>
              && Find(s, pattern).value + |pattern| <= |s|
              && s[Find(s, pattern).value..Find(s, pattern).value + |pattern|] == pattern
              && forall j :: 0 <= j < Find(s, pattern).value ==> !OccursAt(s, j, pattern)
  {
  }

  lemma OccursInWhole(s: string, n: nat, j: nat, pattern: string)
    requires n <= |s|
    ensures OccursAt(s[..n], j, pattern) ==> OccursAt(s, j, pattern)
  {
    if OccursAt(s[..n], j, pattern) {
      assert s[..n][j..j + |pattern|] == s[j..j + |pattern|];
    }
  }

  lemma BodyHasNoClose(s: string, close: string, n: nat)
    requires n <= |s| && forall j :: 0 <= j < n ==> !OccursAt(s, j, close)
    requires |close| > 0
    ensures !Contains(s[..n], close)
  {
    forall j: nat
      ensures !OccursAt(s[..n], j, close)
    {
      OccursInWhole(s, n, j, close);
    }
  }

  lemma FirstSegmentIsWritten(s: string)
    ensures FirstSegment(s).Some? ==>
              var (tag, body, tail) := FirstSegment(s).value;
              s == Segment(tag, body) + tail && !Contains(body, Close(tag)) && |tail| < |s|
  {
    hide SegmentOf, Contains;
    SegmentOfIsWritten(s, 0);
    SegmentOfIsWritten(s, 1);
    SegmentOfIsWritten(s, 2);
  }

  lemma TrimStartShortens(s: string)
    ensures |TrimStart(s)| <= |s|
  {
  }

  /** The loop of `claude_command_block`: a repeated tag or anything that is no segment ends it. */
  function ParseSegments(rest: string, found: Found): Option<Found>
    decreases |rest|
  {
    if rest == "" then Some(found)
    else match FirstSegment(rest)
      case None => None
      case Some((tag, body, tail)) =>
        FirstSegmentIsWritten(rest);
        TrimStartShortens(tail);
        if found.Get(tag).Some? then None else ParseSegments(TrimStart(tail), found.Set(tag, body))
  }

  function CommandBlock(content: string): Option<Found> {
    match ParseSegments(Trim(content), NOTHING)
    case None => None
    case Some(found) => if found.name.Some? then Some(found) else None
  }

  method ReadCommandBlock(content: string) returns (block: Option<Found>)
    ensures block == CommandBlock(content)
  {
    hide FirstSegment;
    var found := NOTHING;
    var rest := Trim(content);
    while rest != ""
      invariant ParseSegments(rest, found) == ParseSegments(Trim(content), NOTHING)
      decreases |rest|
    {
      var first := FirstSegment(rest);
      if first.None? { return None; }
      var (tag, body, tail) := first.value;
      if found.Get(tag).Some? { return None; }
      FirstSegmentIsWritten(rest);
      TrimStartShortens(tail);
      found := found.Set(tag, body);
      rest := TrimStart(tail);
    }
    block := if found.name.Some? then Some(found) else None;
  }

  // ----- the grammar

  /** One segment and the whitespace behind it. */
  datatype Part = Part(tag: Tag, body: string, gap: string)

  predicate ValidPart(p: Part) {
    !Contains(p.body, Close(p.tag)) && forall c :: c in p.gap ==> IsWhitespace(c)
  }

  function Written(parts: seq<Part>): string {
    if parts == [] then "" else Segment(parts[0].tag, parts[0].body) + (parts[0].gap + Written(parts[1..]))
  }

  predicate DistinctTags(parts: seq<Part>) {
    forall i, j :: 0 <= i < j < |parts| ==> parts[i].tag != parts[j].tag
  }

  predicate IsLayout(parts: seq<Part>) {
    (forall p :: p in parts ==> ValidPart(p)) && DistinctTags(parts)
  }

  /** The bodies, by tag. */
  predicate Collects(parts: seq<Part>, before: Found, found: Found) {
    forall t: Tag ::
      && (forall p :: p in parts && p.tag == t ==> found.Get(t) == Some(p.body))
      && ((forall p :: p in parts ==> p.tag != t) ==> found.Get(t) == before.Get(t))
  }

  lemma CollectedOnce(parts: seq<Part>, before: Found, a: Found, b: Found)
    requires Collects(parts, before, a) && Collects(parts, before, b)
    ensures a == b
  {
    forall t: Tag
      ensures a.Get(t) == b.Get(t)
    {
      if p :| p in parts && p.tag == t {
        assert a.Get(t) == Some(p.body) && b.Get(t) == Some(p.body);
      }
    }
    assert a.Get(0) == b.Get(0) && a.Get(1) == b.Get(1) && a.Get(2) == b.Get(2);
  }

  // ----- completeness

  lemma OtherTagsDiffer(s: string, tag: Tag, other: Tag)
    requires tag != other
    ensures StripPrefix(Open(tag) + s, Open(other)) == None
  {
    var text := Open(tag) + s;
    assert text[9] == Open(tag)[9];
    if Open(other) <= text {
      assert text[9] == Open(other)[9];
    }
  }

  lemma CloseIsFound(body: string, tag: Tag, tail: string)
    requires !Contains(body, Close(tag))
    ensures SplitOnce(body + Close(tag) + tail, Close(tag)) == Some((body, tail))
  {
    TagShape(tag);
    hide Open, Close;
    var close := Close(tag);
    var s := body + close + tail;
    forall j | 0 <= j < |body|
      ensures !OccursAt(s, j, close)
    {
      if j + |close| <= |body| {
        assert s[j..j + |close|] == body[j..j + |close|];
        assert !OccursAt(body, j, close);
      } else {
        assert s[|body|] == close[0];
        MismatchAt(s, j, close, |body| - j);
      }
    }
    SplitOnceAt(body, close, tail);
  }

  lemma SegmentInFront(tag: Tag, body: string, tail: string)
    requires !Contains(body, Close(tag))
    ensures FirstSegment(Segment(tag, body) + tail) == Some((tag, body, tail))
  {
    var rest := body + Close(tag) + tail;
    var s := Open(tag) + rest;
    assert Segment(tag, body) + tail == s;
    CloseIsFound(body, tag, tail);
    StripPrefixOfAppend(Open(tag), rest);
    hide Open, Close, SplitOnce;
    if tag != 0 { OtherTagsDiffer(rest, tag, 0); }
    if tag != 1 { OtherTagsDiffer(rest, tag, 1); }
    if tag != 2 { OtherTagsDiffer(rest, tag, 2); }
  }

  lemma {:induction false} GapIsTrimmed(gap: string, rest: string)
    requires forall c :: c in gap ==> IsWhitespace(c)
    requires rest == "" || !IsWhitespace(rest[0])
    ensures TrimStart(gap + rest) == rest
  {
    if gap == "" {
      assert gap + rest == rest;
    } else {
      assert gap[0] in gap && (gap + rest)[1..] == gap[1..] + rest;
      GapIsTrimmed(gap[1..], rest);
    }
  }

  lemma WrittenStarts(parts: seq<Part>)
    ensures Written(parts) == "" || Written(parts)[0] == '<'
  {
    if parts != [] {
      TagShape(parts[0].tag);
    }
  }

  /** Every layout is accepted and yields its bodies by tag. */
  lemma {:induction false} LayoutParses(parts: seq<Part>, before: Found)
    requires IsLayout(parts) && forall p :: p in parts ==> before.Get(p.tag).None?
    ensures ParseSegments(Written(parts), before).Some?
    ensures Collects(parts, before, ParseSegments(Written(parts), before).value)
  {
    hide FirstSegment, Open, Close, Contains;
    if parts == [] {
    } else {
      var first, later := parts[0], parts[1..];
      var rest := Written(later);
      assert first in parts && forall p :: p in later ==> p in parts;
      var s := Segment(first.tag, first.body) + (first.gap + rest);
      SegmentInFront(first.tag, first.body, first.gap + rest);
      WrittenStarts(later);
      GapIsTrimmed(first.gap, rest);
      NotBlank(first.tag, first.body, first.gap + rest);
      forall p | p in later
        ensures p.tag != first.tag
      {
        var i :| 0 <= i < |later| && later[i] == p;
        assert parts[i + 1] == p;
      }
      LayoutParses(later, before.Set(first.tag, first.body));
      var out := ParseSegments(rest, before.Set(first.tag, first.body)).value;
      assert ParseSegments(s, before) == Some(out);
      hide ParseSegments;
      CollectsMore(first, later, before, out);
      assert parts == [first] + later;
    }
  }

  lemma NotBlank(tag: Tag, body: string, tail: string)
    ensures Segment(tag, body) + tail != ""
  {
    TagShape(tag);
  }

  lemma CollectsMore(first: Part, later: seq<Part>, before: Found, out: Found)
    requires Collects(later, before.Set(first.tag, first.body), out)
    requires forall p :: p in later ==> p.tag != first.tag
    ensures Collects([first] + later, before, out)
  {
    forall t: Tag
      ensures (forall p :: p in [first] + later && p.tag == t ==> out.Get(t) == Some(p.body))
      ensures (forall p :: p in [first] + later ==> p.tag != t) ==> out.Get(t) == before.Get(t)
    {
      assert first in [first] + later;
      assert forall p :: p in later ==> p in [first] + later;
    }
  }

  // ----- soundness

  /** The whitespace that trimming takes off the front. */
  function LeadingGap(s: string): (gap: string)
    ensures gap + TrimStart(s) == s && forall c :: c in gap ==> IsWhitespace(c)
  {
    if s != "" && IsWhitespace(s[0]) then [s[0]] + LeadingGap(s[1..]) else ""
  }

  /** The layout of an accepted text. */
  ghost function LayoutOf(rest: string): seq<Part>
    decreases |rest|
  {
    match FirstSegment(rest)
    case None => []
    case Some((tag, body, tail)) =>
      FirstSegmentIsWritten(rest);
      TrimStartShortens(tail);
      [Part(tag, body, LeadingGap(tail))] + LayoutOf(TrimStart(tail))
  }

  /** What is accepted is a layout, and no other text is. */
  lemma {:induction false} ParsedIsLayout(rest: string, before: Found)
    requires ParseSegments(rest, before).Some?
    ensures var parts := LayoutOf(rest);
            && Written(parts) == rest
            && IsLayout(parts)
            && forall p :: p in parts ==> before.Get(p.tag).None?
    decreases |rest|
  {
    hide FirstSegment, Open, Close, Contains, IsLayout, Segment;
    if rest == "" {
      NoSegment();
      NoLayout();
    } else {
      var (tag, body, tail) := FirstSegment(rest).value;
      FirstSegmentIsWritten(rest);
      TrimStartShortens(tail);
      var first := Part(tag, body, LeadingGap(tail));
      var later := LayoutOf(TrimStart(tail));
      ParsedIsLayout(TrimStart(tail), before.Set(tag, body));
      var parts := [first] + later;
      assert LayoutOf(rest) == parts && parts[1..] == later;
      assert first.gap + Written(later) == tail;
      LayoutCons(first, later);
    }
  }

  lemma NoLayout()
    ensures IsLayout([])
  {
  }

  lemma LayoutCons(first: Part, later: seq<Part>)
    requires ValidPart(first) && IsLayout(later) && forall p :: p in later ==> p.tag != first.tag
    ensures IsLayout([first] + later)
  {
    hide ValidPart;
    var parts := [first] + later;
    forall i, j | 0 <= i < j < |parts|
      ensures parts[i].tag != parts[j].tag
    {
      assert parts[j] == later[j - 1] && later[j - 1] in later;
    }
  }

  lemma NoSegment()
    ensures FirstSegment("") == None
  {
    TagShape(0);
    TagShape(1);
    TagShape(2);
    hide Open, Close;
  }

  // ----- the theorems

  /** `content` is, up to whitespace around it, the layout `parts`, which names a command. */
  predicate IsBlock(content: string, parts: seq<Part>) {
    Trim(content) == Written(parts) && IsLayout(parts) && exists p :: p in parts && p.tag == 0
  }

  /** Sound and complete: exactly the blocks are read, and each yields its bodies by tag. */
  lemma BlockIff(content: string, found: Found)
    ensures CommandBlock(content) == Some(found) <==>
              exists parts :: IsBlock(content, parts) && Collects(parts, NOTHING, found)
  {
    hide ParseSegments, Written, IsLayout;
    var rest := Trim(content);
    if CommandBlock(content) == Some(found) {
      var parts := LayoutOf(rest);
      hide LayoutOf;
      ParsedIsLayout(rest, NOTHING);
      LayoutParses(parts, NOTHING);
      NameIsCollected(parts, found);
      assert IsBlock(content, parts);
    }
    if parts :| IsBlock(content, parts) && Collects(parts, NOTHING, found) {
      LayoutParses(parts, NOTHING);
      CollectedOnce(parts, NOTHING, ParseSegments(rest, NOTHING).value, found);
    }
  }

  lemma NameIsCollected(parts: seq<Part>, found: Found)
    requires Collects(parts, NOTHING, found)
    ensures (forall p :: p in parts ==> p.tag != 0) ==> found.name.None?
  {
    if forall p :: p in parts ==> p.tag != 0 {
      assert found.Get(0) == NOTHING.Get(0);
    }
  }

  /** A text has one layout. */
  lemma {:induction false} LayoutIsUnique(parts: seq<Part>)
    requires forall p :: p in parts ==> ValidPart(p)
    ensures LayoutOf(Written(parts)) == parts
  {
    hide FirstSegment, Open, Close, Contains;
    if parts == [] {
      NoSegment();
    } else {
      var first, later := parts[0], parts[1..];
      assert first in parts && forall p :: p in later ==> p in parts;
      SegmentInFront(first.tag, first.body, first.gap + Written(later));
      WrittenStarts(later);
      GapIsTrimmed(first.gap, Written(later));
      GapIsLeading(first.gap, Written(later));
      LayoutIsUnique(later);
    }
  }

  lemma GapIsLeading(gap: string, rest: string)
    requires TrimStart(gap + rest) == rest
    ensures LeadingGap(gap + rest) == gap
  {
    var lead := LeadingGap(gap + rest);
    assert lead + rest == gap + rest;
    assert |lead| == |gap|;
    assert lead == (lead + rest)[..|lead|] && gap == (gap + rest)[..|gap|];
  }

  predicate Has(parts: seq<Part>, t: Tag, body: string) {
    exists p :: p in parts && p.tag == t && p.body == body
  }

  /** The order of the segments does not matter: two layouts with the same segments read the same. */
  lemma OrderDoesNotMatter(content: string, parts: seq<Part>, content': string, parts': seq<Part>)
    requires IsBlock(content, parts) && IsBlock(content', parts')
    requires forall t: Tag, body: string :: Has(parts, t, body) <==> Has(parts', t, body)
    ensures CommandBlock(content) == CommandBlock(content')
  {
    hide ParseSegments, Written;
    LayoutParses(parts, NOTHING);
    LayoutParses(parts', NOTHING);
    var a := ParseSegments(Written(parts), NOTHING).value;
    var b := ParseSegments(Written(parts'), NOTHING).value;
    forall t: Tag
      ensures a.Get(t) == b.Get(t)
    {
      SameSegment(parts, parts', t, a, b);
    }
    assert a.Get(0) == b.Get(0) && a.Get(1) == b.Get(1) && a.Get(2) == b.Get(2);
    hide IsLayout, Collects;
    assert a == b;
  }

  lemma SameSegment(parts: seq<Part>, parts': seq<Part>, t: Tag, a: Found, b: Found)
    requires Collects(parts, NOTHING, a) && Collects(parts', NOTHING, b)
    requires forall body: string :: Has(parts, t, body) <==> Has(parts', t, body)
    ensures a.Get(t) == b.Get(t)
  {
    if p :| p in parts && p.tag == t {
      assert Has(parts, t, p.body);
      assert Has(parts', t, p.body);
      var q :| q in parts' && q.tag == t && q.body == p.body;
    } else {
      forall q | q in parts'
        ensures q.tag != t
      {
        assert !Has(parts, t, q.body);
        assert q.tag == t ==> Has(parts', t, q.body);
      }
    }
  }
}
