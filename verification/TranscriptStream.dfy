/** The line stream over a transcript: one item per non-empty line, numbered by line and by record. The
    reading of one line, JSON and classification, is a parameter. */
module TranscriptStream {
  import opened Wrappers

  type byte = b: int | 0 <= b < 256

  const NEWLINE: byte := 10

  /** What one line reads as, or that it is no JSON. */
  datatype Item<+R> =
    | Record(line: nat, record: nat, reading: R)
    | Malformed(line: nat, record: nat, raw: seq<byte>)
    | ReadFailed(line: nat)

  // ----- splitting

  function Split(data: seq<byte>): (segments: seq<seq<byte>>)
    ensures segments != []
  {
    if data == [] then [[]]
    else
      var rest := Split(data[1..]);
      if data[0] == NEWLINE then [[]] + rest else [[data[0]] + rest[0]] + rest[1..]
  }

  function JoinLines(segments: seq<seq<byte>>): seq<byte>
    requires segments != []
  {
    if |segments| == 1 then segments[0] else segments[0] + [NEWLINE] + JoinLines(segments[1..])
  }

  /** Splitting loses nothing and leaves no newline in a segment. */
  lemma {:induction false} SplitIsInverse(data: seq<byte>)
    ensures JoinLines(Split(data)) == data
    ensures forall s :: s in Split(data) ==> NEWLINE !in s
  {
    if data != [] {
      SplitIsInverse(data[1..]);
      var rest := Split(data[1..]);
      var all := Split(data);
      if data[0] == NEWLINE {
        assert all[1..] == rest;
        assert [] + [NEWLINE] + data[1..] == data;
      } else {
        assert rest[0] in rest;
        assert all[1..] == rest[1..] && forall s :: s in rest[1..] ==> s in rest;
        if |rest| > 1 {
          assert JoinLines(all) == [data[0]] + (rest[0] + [NEWLINE] + JoinLines(rest[1..]));
        }
        assert [data[0]] + data[1..] == data;
      }
    }
  }

  lemma {:induction false} SplitAt(segment: seq<byte>, rest: seq<byte>)
    requires NEWLINE !in segment
    ensures Split(segment + [NEWLINE] + rest) == [segment] + Split(rest)
  {
    var data := segment + [NEWLINE] + rest;
    if segment == [] {
      assert data[1..] == rest;
    } else {
      SplitAt(segment[1..], rest);
      assert data[1..] == segment[1..] + [NEWLINE] + rest;
      assert [segment[0]] + segment[1..] == segment;
    }
  }

  lemma {:induction false} SplitWhole(data: seq<byte>)
    requires NEWLINE !in data
    ensures Split(data) == [data]
  {
    if data != [] {
      SplitWhole(data[1..]);
      assert [data[0]] + data[1..] == data;
    }
  }

  // ----- the items

  function ItemOf<R>(line: nat, record: nat, raw: seq<byte>, read: seq<byte> -> Option<R>): Item<R> {
    match read(raw)
    case None => Malformed(line, record, raw)
    case Some(reading) => Record(line, record, reading)
  }

  /** One item per non-empty segment, after `line` lines and `record` records; the last segment has no
      newline behind it, so a reader that fails there loses it. */
  function Items<R>(
    segments: seq<seq<byte>>, line: nat, record: nat, fails: bool, read: seq<byte> -> Option<R>): seq<Item<R>>
    requires segments != []
  {
    if |segments| == 1 && fails then [ReadFailed(line + 1)]
    else
      var here := if segments[0] == [] then [] else [ItemOf(line + 1, record + 1, segments[0], read)];
      if |segments| == 1 then here
      else here + Items(segments[1..], line + 1, record + |here|, fails, read)
  }

  // ----- the stream

  method FindNewline(data: seq<byte>, from: nat) returns (r: Option<nat>)
    requires from <= |data|
    ensures r.None? ==> NEWLINE !in data[from..]
    ensures r.Some? ==> from <= r.value < |data| && data[r.value] == NEWLINE && NEWLINE !in data[from..r.value]
  {
    for i := from to |data|
      invariant NEWLINE !in data[from..i]
    {
      if data[i] == NEWLINE { return Some(i); }
      assert data[from..i + 1] == data[from..i] + [data[i]];
    }
    assert data[from..|data|] == data[from..];
    r := None;
  }

  class Stream<R> {
    const data: seq<byte>
    const fails: bool
    const read: seq<byte> -> Option<R>
    var position: nat
    var line: nat
    var record: nat
    var done: bool

    constructor (data: seq<byte>, fails: bool, read: seq<byte> -> Option<R>)
      ensures this.data == data && this.fails == fails && this.read == read
      ensures Valid() && Remaining() == Items(Split(data), 0, 0, fails, read)
    {
      this.data, this.fails, this.read := data, fails, read;
      this.position, this.line, this.record, this.done := 0, 0, 0, false;
      new;
      assert data[0..] == data;
    }

    ghost predicate Valid() reads this {
      position <= |data|
    }

    /** What the stream has still to yield. */
    ghost function Remaining(): seq<Item<R>> reads this
      requires Valid()
    {
      if done then [] else Items(Split(data[position..]), line, record, fails, read)
    }

    /** `next`: the first of the remaining items, which are then the rest. */
    method Next() returns (item: Option<Item<R>>)
      requires Valid()
      modifies this
      ensures Valid()
      ensures old(Remaining()) == [] ==> item.None? && Remaining() == []
      ensures old(Remaining()) != [] ==> item == Some(old(Remaining())[0]) && Remaining() == old(Remaining())[1..]
    {
      hide Split;
      while !done
        invariant Valid() && Remaining() == old(Remaining())
        decreases !done, |data| - position
      {
        ghost var rest := data[position..];
        var newline := FindNewline(data, position);
        if newline.None? {
          SplitWhole(rest);
          done := true;
          if fails { return Some(ReadFailed(line + 1)); }
          if position == |data| { return None; }
          var last := data[position..];
          position, line, record := |data|, line + 1, record + 1;
          return Some(ItemOf(line, record, last, read));
        }
        var segment := data[position..newline.value];
        assert rest == segment + [NEWLINE] + data[newline.value + 1..];
        SplitAt(segment, data[newline.value + 1..]);
        position, line := newline.value + 1, line + 1;
        if segment != [] {
          record := record + 1;
          return Some(ItemOf(line, record, segment, read));
        }
      }
      item := None;
    }

    /** `collect_records`: everything the stream has left, in order. */
    method Collect() returns (items: seq<Item<R>>)
      requires Valid()
      modifies this
      ensures items == old(Remaining())
    {
      items := [];
      var next := Next();
      while next.Some?
        invariant Valid()
        invariant items + (if next.Some? then [next.value] + Remaining() else []) == old(Remaining())
        decreases if next.Some? then 1 + |Remaining()| else 0
      {
        items := items + [next.value];
        next := Next();
      }
    }
  }

  // ----- what the items are

  function NonEmpty(segments: seq<seq<byte>>): seq<seq<byte>> {
    if segments == [] then []
    else (if segments[0] == [] then [] else [segments[0]]) + NonEmpty(segments[1..])
  }

  /** Item `k` is the k-th non-empty segment, under the next record number and its own line number: what
      it reads as, or the segment itself where it does not read. */
  predicate IsNumbered<R(==)>(
    item: Item<R>, k: nat, segments: seq<seq<byte>>, line: nat, record: nat, read: seq<byte> -> Option<R>)
  {
    && k < |NonEmpty(segments)|
    && !item.ReadFailed?
    && line < item.line <= line + |segments|
    && segments[item.line - line - 1] == NonEmpty(segments)[k]
    && item.record == record + k + 1
    && match read(NonEmpty(segments)[k])
       case Some(reading) => item.Record? && item.reading == reading
       case None => item.Malformed? && item.raw == NonEmpty(segments)[k]
  }

  lemma NumberedLater<R>(
    item: Item<R>, k: nat, segments: seq<seq<byte>>, line: nat, record: nat, read: seq<byte> -> Option<R>)
    requires segments != []
    requires var here := if segments[0] == [] then 0 else 1;
             IsNumbered(item, k, segments[1..], line + 1, record + here, read)
    ensures var here := if segments[0] == [] then 0 else 1;
            IsNumbered(item, k + here, segments, line, record, read)
  {
    var later := segments[1..];
    var here := if segments[0] == [] then [] else [segments[0]];
    assert NonEmpty(segments) == here + NonEmpty(later);
    assert segments[item.line - line - 1] == later[item.line - (line + 1) - 1];
  }

  lemma NumberedFirst<R>(segments: seq<seq<byte>>, line: nat, record: nat, read: seq<byte> -> Option<R>)
    requires segments != [] && segments[0] != []
    ensures IsNumbered(ItemOf(line + 1, record + 1, segments[0], read), 0, segments, line, record, read)
  {
  }

  /** Every non-empty segment yields exactly one item, in order; the k-th carries record number k and
      the number of the line its content stands on. */
  lemma {:induction false} ItemsAreNumbered<R>(
    segments: seq<seq<byte>>, line: nat, record: nat, read: seq<byte> -> Option<R>)
    requires segments != []
    ensures var items := Items(segments, line, record, false, read);
            && |items| == |NonEmpty(segments)|
            && forall k :: 0 <= k < |items| ==> IsNumbered(items[k], k, segments, line, record, read)
    decreases |segments|
  {
    hide IsNumbered, ItemOf;
    var items := Items(segments, line, record, false, read);
    var here := if segments[0] == [] then [] else [ItemOf(line + 1, record + 1, segments[0], read)];
    if segments[0] != [] {
      NumberedFirst(segments, line, record, read);
    }
    if |segments| == 1 {
      assert segments[1..] == [];
    } else {
      var rest := Items(segments[1..], line + 1, record + |here|, false, read);
      ItemsAreNumbered(segments[1..], line + 1, record + |here|, read);
      forall k | |here| <= k < |items|
        ensures IsNumbered(items[k], k, segments, line, record, read)
      {
        assert items[k] == rest[k - |here|];
        NumberedLater(rest[k - |here|], k - |here|, segments, line, record, read);
      }
    }
  }

  predicate LinesAscend<R>(items: seq<Item<R>>, line: nat) {
    && (forall k :: 0 <= k < |items| ==> items[k].line > line)
    && (forall j, k :: 0 <= j < k < |items| ==> items[j].line < items[k].line)
  }

  lemma AscendLater<R>(here: seq<Item<R>>, rest: seq<Item<R>>, line: nat)
    requires |here| <= 1 && (here != [] ==> here[0].line == line + 1) && LinesAscend(rest, line + 1)
    ensures LinesAscend(here + rest, line)
  {
  }

  /** Lines go up from item to item. */
  lemma {:induction false} LinesGoUp<R>(
    segments: seq<seq<byte>>, line: nat, record: nat, fails: bool, read: seq<byte> -> Option<R>)
    requires segments != []
    ensures LinesAscend(Items(segments, line, record, fails, read), line)
    decreases |segments|
  {
    var here := if segments[0] == [] then [] else [ItemOf(line + 1, record + 1, segments[0], read)];
    if |segments| > 1 {
      LinesGoUp(segments[1..], line + 1, record + |here|, fails, read);
      AscendLater(here, Items(segments[1..], line + 1, record + |here|, fails, read), line);
    }
  }

  /** A reader that fails loses exactly the line it fails in: the items before are the same, and the
      failure is the last item. */
  lemma {:induction false} FailureIsLast<R>(
    segments: seq<seq<byte>>, line: nat, record: nat, read: seq<byte> -> Option<R>)
    requires segments != []
    ensures var n := |segments| - 1;
            var whole := Items(segments[..n] + [[]], line, record, false, read);
            Items(segments, line, record, true, read) == whole + [ReadFailed(line + |segments|)]
    decreases |segments|
  {
    var n := |segments| - 1;
    var others := segments[..n] + [[]];
    if n == 0 {
      assert others == [[]];
    } else {
      var here := if segments[0] == [] then [] else [ItemOf(line + 1, record + 1, segments[0], read)];
      FailureIsLast(segments[1..], line + 1, record + |here|, read);
      assert segments[1..][..n - 1] + [[]] == others[1..];
      assert others[0] == segments[0];
    }
  }
}
