/** Tool events: ordered fields of which some are derived and kept out of the frozen rendering. */
module ToolEvents {
  import opened Wrappers
  import opened Text

  // ----- ordered fields

  /** Strings in the order of their characters. */
  predicate Less(a: string, b: string) {
    if b == "" then false
    else if a == "" then true
    else a[0] < b[0] || (a[0] == b[0] && Less(a[1..], b[1..]))
  }

  lemma {:induction false} LessIsTotal(a: string, b: string)
    ensures Less(a, b) || a == b || Less(b, a)
    ensures !(Less(a, b) && Less(b, a))
  {
    if a != "" && b != "" && a[0] == b[0] {
      LessIsTotal(a[1..], b[1..]);
      assert a == [a[0]] + a[1..] && b == [b[0]] + b[1..];
    }
  }

  lemma {:induction false} LessIsTransitive(a: string, b: string, c: string)
    requires Less(a, b) && Less(b, c)
    ensures Less(a, c)
  {
    if a != "" && a[0] == b[0] && b[0] == c[0] {
      LessIsTransitive(a[1..], b[1..], c[1..]);
    }
  }

  /** `a` ends inside `b`, or has the smaller character at the first place where they differ. */
  ghost predicate ComesBefore(a: string, b: string) {
    a < b || exists k :: 0 <= k < |a| && k < |b| && a[..k] == b[..k] && a[k] < b[k]
  }

  lemma SamePrefix(a: string, b: string, k: nat)
    requires 0 < k <= |a| && k <= |b| && a[..k] == b[..k]
    ensures a[0] == b[0]
  {
    assert a[0] == a[..k][0] && b[0] == b[..k][0];
  }

  lemma {:induction false} LessIff(a: string, b: string)
    ensures Less(a, b) <==> ComesBefore(a, b)
  {
    if a != "" && b != "" && a[0] == b[0] {
      var c, d := a[1..], b[1..];
      LessIff(c, d);
      assert a == [a[0]] + c && b == [a[0]] + d;
      assert c < d <==> a < b;
      if k :| 0 <= k < |c| && k < |d| && c[..k] == d[..k] && c[k] < d[k] {
        assert a[..k + 1] == [a[0]] + c[..k] && b[..k + 1] == [a[0]] + d[..k];
        assert a[k + 1] < b[k + 1];
      }
      if k :| 0 <= k < |a| && k < |b| && a[..k] == b[..k] && a[k] < b[k] {
        assert c[..k - 1] == a[..k][1..] && d[..k - 1] == b[..k][1..];
        assert c[k - 1] < d[k - 1];
      }
    } else if a != "" && b != "" {
      if k :| 0 <= k < |a| && k < |b| && a[..k] == b[..k] && a[k] < b[k] {
        if k > 0 {
          SamePrefix(a, b, k);
        }
      }
      assert a[..0] == b[..0];
    }
  }

  /** A `BTreeMap`: keys in order, each once. */
  type Fields = seq<(string, string)>

  predicate IsOrdered(fields: Fields) {
    forall i, j :: 0 <= i < j < |fields| ==> Less(fields[i].0, fields[j].0)
  }

  function Insert(fields: Fields, key: string, value: string): Fields {
    if fields == [] then [(key, value)]
    else if fields[0].0 == key then [(key, value)] + fields[1..]
    else if Less(key, fields[0].0) then [(key, value)] + fields
    else [fields[0]] + Insert(fields[1..], key, value)
  }

  predicate HasKey(fields: Fields, key: string) {
    exists i :: 0 <= i < |fields| && fields[i].0 == key
  }

  function Lookup(fields: Fields, key: string): (r: Option<string>)
    ensures r.Some? <==> HasKey(fields, key)
  {
    if fields == [] then None
    else if fields[0].0 == key then Some(fields[0].1)
    else
      assert forall i :: 1 <= i < |fields| ==> fields[i] == fields[1..][i - 1];
      Lookup(fields[1..], key)
  }

  lemma {:induction false} InsertKeys(fields: Fields, key: string, value: string)
    ensures forall k :: HasKey(Insert(fields, key, value), k) <==> k == key || HasKey(fields, k)
  {
    if fields != [] && fields[0].0 != key && !Less(key, fields[0].0) {
      InsertKeys(fields[1..], key, value);
      KeysOfCons(fields[0], Insert(fields[1..], key, value));
    } else if fields != [] && fields[0].0 == key {
      KeysOfCons((key, value), fields[1..]);
    } else {
      KeysOfCons((key, value), fields);
      assert Insert(fields, key, value) == [(key, value)] + fields;
    }
    if fields != [] {
      KeysOfCons(fields[0], fields[1..]);
      assert [fields[0]] + fields[1..] == fields;
    }
  }

  lemma KeysOfCons(head: (string, string), tail: Fields)
    ensures forall k :: HasKey([head] + tail, k) <==> k == head.0 || HasKey(tail, k)
  {
    forall k
      ensures HasKey([head] + tail, k) <==> k == head.0 || HasKey(tail, k)
    {
      var all := [head] + tail;
      assert all[0] == head && forall i :: 0 <= i < |tail| ==> all[i + 1] == tail[i];
    }
  }

  lemma {:induction false} InsertOrdered(fields: Fields, key: string, value: string)
    requires IsOrdered(fields)
    ensures IsOrdered(Insert(fields, key, value))
  {
    if fields == [] {
    } else if fields[0].0 == key {
    } else if Less(key, fields[0].0) {
      forall j | 0 <= j < |fields|
        ensures Less(key, fields[j].0)
      {
        if j > 0 { LessIsTransitive(key, fields[0].0, fields[j].0); }
      }
    } else {
      var tail := Insert(fields[1..], key, value);
      InsertOrdered(fields[1..], key, value);
      InsertKeys(fields[1..], key, value);
      LessIsTotal(key, fields[0].0);
      forall j | 0 <= j < |tail|
        ensures Less(fields[0].0, tail[j].0)
      {
        assert HasKey(tail, tail[j].0);
        if tail[j].0 != key {
          var i :| 0 <= i < |fields[1..]| && fields[1..][i].0 == tail[j].0;
          assert fields[1..][i] == fields[i + 1];
        }
      }
    }
  }

  // ----- tool events

  datatype ToolEvent = ToolEvent(fields: Fields, derived: set<string>)

  function Legacy(fields: Fields): ToolEvent {
    ToolEvent(fields, {})
  }

  /** `insert_derived`: never over a field that is already there. */
  function InsertDerived(tool: ToolEvent, key: string, value: string): ToolEvent
    requires !HasKey(tool.fields, key)
  {
    ToolEvent(Insert(tool.fields, key, value), tool.derived + {key})
  }

  function Visible(fields: Fields, derived: set<string>): Fields {
    if fields == [] then []
    else (if fields[0].0 in derived then [] else [fields[0]]) + Visible(fields[1..], derived)
  }

  function Pairs(fields: Fields): seq<string> {
    if fields == [] then [] else [fields[0].0 + "=" + fields[0].1] + Pairs(fields[1..])
  }

  /** The frozen rendering: `key=value` in key order, without the derived keys. */
  function Rendered(tool: ToolEvent): string {
    Join(Pairs(Visible(tool.fields, tool.derived)), " ")
  }

  lemma {:induction false} NothingDerived(fields: Fields)
    ensures Visible(fields, {}) == fields
  {
    if fields != [] {
      NothingDerived(fields[1..]);
    }
  }

  lemma {:induction false} UnusedKeyIsInvisible(fields: Fields, derived: set<string>, key: string)
    requires !HasKey(fields, key)
    ensures Visible(fields, derived + {key}) == Visible(fields, derived)
  {
    if fields != [] {
      assert fields[0].0 != key;
      assert forall i :: 0 <= i < |fields[1..]| ==> fields[1..][i] == fields[i + 1];
      UnusedKeyIsInvisible(fields[1..], derived, key);
    }
  }

  /** A derived key leaves what is visible as it was. */
  lemma {:induction false} DerivedIsInvisible(fields: Fields, derived: set<string>, key: string, value: string)
    requires !HasKey(fields, key)
    ensures Visible(Insert(fields, key, value), derived + {key}) == Visible(fields, derived)
  {
    UnusedKeyIsInvisible(fields, derived, key);
    if fields == [] {
    } else if Less(key, fields[0].0) {
      assert fields[0].0 != key;
      assert ([(key, value)] + fields)[1..] == fields;
    } else {
      assert fields[0].0 != key;
      assert forall i :: 0 <= i < |fields[1..]| ==> fields[1..][i] == fields[i + 1];
      DerivedIsInvisible(fields[1..], derived, key, value);
      var inserted := Insert(fields, key, value);
      assert inserted[0] == fields[0] && inserted[1..] == Insert(fields[1..], key, value);
    }
  }

  // ----- what every tool event is

  /** Ordered fields with an event among them, and derived keys that are fields. */
  predicate IsSound(tool: ToolEvent) {
    && IsOrdered(tool.fields)
    && HasKey(tool.fields, "event")
    && forall key :: key in tool.derived ==> HasKey(tool.fields, key)
  }

  /** `plain` is what the event was before anything was promoted. */
  predicate IsTwin(tool: ToolEvent, plain: ToolEvent) {
    plain.derived == {} && Visible(tool.fields, tool.derived) == plain.fields
  }

  lemma LegacySound(fields: Fields)
    requires IsOrdered(fields) && HasKey(fields, "event")
    ensures IsSound(Legacy(fields)) && IsTwin(Legacy(fields), Legacy(fields))
  {
    NothingDerived(fields);
  }

  lemma DerivedSound(tool: ToolEvent, plain: ToolEvent, key: string, value: string)
    requires IsSound(tool) && IsTwin(tool, plain) && !HasKey(tool.fields, key)
    ensures IsSound(InsertDerived(tool, key, value)) && IsTwin(InsertDerived(tool, key, value), plain)
    ensures HasKey(InsertDerived(tool, key, value).fields, key)
    ensures forall k :: k != key ==> (HasKey(InsertDerived(tool, key, value).fields, k) <==> HasKey(tool.fields, k))
  {
    hide Visible, Insert, HasKey, IsOrdered;
    InsertKeys(tool.fields, key, value);
    InsertOrdered(tool.fields, key, value);
    DerivedIsInvisible(tool.fields, tool.derived, key, value);
  }

  lemma TwinsRenderAlike(tool: ToolEvent, plain: ToolEvent)
    requires IsTwin(tool, plain)
    ensures Rendered(tool) == Rendered(plain)
  {
    NothingDerived(plain.fields);
  }
}
