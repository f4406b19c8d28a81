/** Retention of the summarizer's own sessions: the age of a tree, one capped sweep, and sweeps until
    nothing is left. */
module Exhaust {
  import opened Wrappers

  // ----- trees

  /** What lies under an entry. A link is measured as itself; a modification time can be missing. */
  datatype Node =
    | File(modified: Option<int>, bytes: nat)
    | Link(modified: Option<int>, bytes: nat)
    | Directory(modified: Option<int>, readable: bool, children: seq<Node>)

  function Latest(a: int, b: Option<int>): int {
    if b.Some? && b.value > a then b.value else a
  }

  /** The latest time under a directory's children, not below `floor`. */
  function NewestIn(children: seq<Node>, floor: int): int
    decreases children
  {
    if children == [] then floor
    else
      var c := children[0];
      var here := Latest(floor, c.modified);
      NewestIn(children[1..], if c.Directory? then NewestIn(c.children, here) else here)
  }

  function BytesIn(children: seq<Node>): nat
    decreases children
  {
    if children == [] then 0
    else
      var c := children[0];
      (if c.Directory? then BytesIn(c.children) else c.bytes) + BytesIn(children[1..])
  }

  /** Every directory below can be listed. */
  predicate ReadableIn(children: seq<Node>)
    decreases children
  {
    children == []
    || (var c := children[0];
        (c.Directory? ==> c.readable && ReadableIn(c.children)) && ReadableIn(children[1..]))
  }

  function SizeIn(children: seq<Node>): nat
    decreases children
  {
    if children == [] then 0
    else
      var c := children[0];
      1 + (if c.Directory? then SizeIn(c.children) else 0) + SizeIn(children[1..])
  }

  lemma {:induction false} NewestFloor(children: seq<Node>, a: int, b: int)
    ensures NewestIn(children, if a > b then a else b) ==
            (if NewestIn(children, a) > NewestIn(children, b) then NewestIn(children, a) else NewestIn(children, b))
    ensures NewestIn(children, a) >= a
    decreases children
  {
    if children != [] {
      var c := children[0];
      var x, y := Latest(a, c.modified), Latest(b, c.modified);
      if c.Directory? {
        NewestFloor(c.children, x, y);
        NewestFloor(children[1..], NewestIn(c.children, x), NewestIn(c.children, y));
      } else {
        NewestFloor(children[1..], x, y);
      }
    }
  }

  datatype Measured = Measured(newest: int, bytes: nat)

  /** What an entry measures as, by recursion over its tree. */
  function Measurement(root: Node): Option<Measured> {
    if !root.Directory? || root.modified.None? || !root.readable || !ReadableIn(root.children) then None
    else Some(Measured(NewestIn(root.children, root.modified.value), BytesIn(root.children)))
  }

  // ----- the worklist

  predicate AllDirectories(pending: seq<Node>) {
    forall n :: n in pending ==> n.Directory?
  }

  function PendingNewest(pending: seq<Node>, floor: int): int
    requires AllDirectories(pending)
  {
    if pending == [] then floor
    else
      assert pending[|pending| - 1] in pending;
      PendingNewest(pending[..|pending| - 1], NewestIn(pending[|pending| - 1].children, floor))
  }

  function PendingBytes(pending: seq<Node>): nat
    requires AllDirectories(pending)
  {
    if pending == [] then 0
    else
      assert pending[|pending| - 1] in pending;
      BytesIn(pending[|pending| - 1].children) + PendingBytes(pending[..|pending| - 1])
  }

  predicate PendingReadable(pending: seq<Node>)
    requires AllDirectories(pending)
  {
    forall n :: n in pending ==> n.readable && ReadableIn(n.children)
  }

  function PendingSize(pending: seq<Node>): nat
    requires AllDirectories(pending)
  {
    if pending == [] then 0
    else
      assert pending[|pending| - 1] in pending;
      1 + SizeIn(pending[|pending| - 1].children) + PendingSize(pending[..|pending| - 1])
  }

  /** Taking a directory's next child off and pushing it when it is a directory changes nothing of the
      total. */
  lemma ChildMoves(pending: seq<Node>, children: seq<Node>, newest: int)
    requires AllDirectories(pending) && children != []
    ensures var c := children[0];
            var later := if c.Directory? then pending + [c] else pending;
            && AllDirectories(later)
            && PendingNewest(later, NewestIn(children[1..], Latest(newest, c.modified)))
               == PendingNewest(pending, NewestIn(children, newest))
            && PendingBytes(later) + BytesIn(children[1..]) + (if c.Directory? then 0 else c.bytes)
               == PendingBytes(pending) + BytesIn(children)
            && (PendingReadable(later) && ReadableIn(children[1..]) <==> PendingReadable(pending) && ReadableIn(children))
            && PendingSize(later) + SizeIn(children[1..]) <= PendingSize(pending) + SizeIn(children)
  {
    var c := children[0];
    if c.Directory? {
      var later := pending + [c];
      assert later[..|later| - 1] == pending && later[|later| - 1] == c;
      assert c in later && forall n :: n in later <==> n in pending || n == c;
      NewestCommute(c.children, children[1..], Latest(newest, c.modified));
    }
  }

  /** The order in which two lists of children are looked at does not matter for the latest time. */
  lemma NewestCommute(a: seq<Node>, b: seq<Node>, floor: int)
    ensures NewestIn(a, NewestIn(b, floor)) == NewestIn(b, NewestIn(a, floor))
  {
    NewestFloor(a, floor, floor);
    NewestFloor(b, floor, floor);
    NewestAbove(a, floor, NewestIn(b, floor));
    NewestAbove(b, floor, NewestIn(a, floor));
  }

  lemma {:induction false} NewestAbove(children: seq<Node>, floor: int, higher: int)
    requires higher >= floor
    ensures NewestIn(children, higher) == (if NewestIn(children, floor) > higher then NewestIn(children, floor) else higher)
    decreases children
  {
    NewestFloor(children, floor, higher);
    if children != [] {
      var c := children[0];
      var x, y := Latest(floor, c.modified), Latest(higher, c.modified);
      if c.Directory? {
        NewestAbove(c.children, x, y);
        NewestAbove(children[1..], NewestIn(c.children, x), NewestIn(c.children, y));
      } else {
        NewestAbove(children[1..], x, y);
      }
    }
  }

  /** `measure`: the worklist computes what the recursion says. */
  method Measure(root: Node) returns (measured: Option<Measured>)
    ensures measured == Measurement(root)
  {
    if !root.Directory? || root.modified.None? { return None; }
    var newest, bytes: nat := root.modified.value, 0;
    var pending := [root];
    StartPending(root, newest);
    while pending != []
      invariant AllDirectories(pending)
      invariant PendingReadable(pending) <==> root.readable && ReadableIn(root.children)
      invariant PendingReadable(pending) ==> PendingNewest(pending, newest) == NewestIn(root.children, root.modified.value)
      invariant bytes + PendingBytes(pending) == BytesIn(root.children)
      decreases PendingSize(pending)
    {
      var n := |pending| - 1;
      var current := pending[n];
      assert current in pending;
      assert forall d :: d in pending <==> d in pending[..n] || d == current;
      if !current.readable { return None; }
      pending := pending[..n];
      ghost var readable := PendingReadable(pending) && ReadableIn(current.children);
      ghost var size := PendingSize(pending) + SizeIn(current.children);
      ghost var target := PendingNewest(pending, NewestIn(current.children, newest));
      for i := 0 to |current.children|
        invariant AllDirectories(pending)
        invariant PendingReadable(pending) && ReadableIn(current.children[i..]) <==> readable
        invariant PendingNewest(pending, NewestIn(current.children[i..], newest)) == target
        invariant bytes + PendingBytes(pending) + BytesIn(current.children[i..]) == BytesIn(root.children)
        invariant PendingSize(pending) + SizeIn(current.children[i..]) <= size
      {
        var rest := current.children[i..];
        var c := rest[0];
        assert rest[1..] == current.children[i + 1..];
        ChildMoves(pending, rest, newest);
        newest := Latest(newest, c.modified);
        if c.Directory? {
          pending := pending + [c];
        } else {
          bytes := bytes + c.bytes;
        }
      }
    }
    measured := Some(Measured(newest, bytes));
  }

  lemma StartPending(root: Node, newest: int)
    requires root.Directory?
    ensures AllDirectories([root])
    ensures PendingReadable([root]) <==> root.readable && ReadableIn(root.children)
    ensures PendingNewest([root], newest) == NewestIn(root.children, newest)
    ensures PendingBytes([root]) == BytesIn(root.children)
  {
    assert [root][..0] == [];
  }

  // ----- what a measurement means

  /** `n` is `root` or lies anywhere below it. */
  predicate Under(root: Node, n: Node)
    decreases root
  {
    n == root || (root.Directory? && exists c :: c in root.children && Under(c, n))
  }

  /** Everything below a directory's children, each node as often as it is there. */
  function Below(children: seq<Node>): seq<Node>
    decreases children
  {
    if children == [] then []
    else
      var c := children[0];
      [c] + (if c.Directory? then Below(c.children) else []) + Below(children[1..])
  }

  function Bytes(nodes: seq<Node>): nat {
    if nodes == [] then 0 else (if nodes[0].Directory? then 0 else nodes[0].bytes) + Bytes(nodes[1..])
  }

  lemma {:induction false} BelowIsUnder(children: seq<Node>, n: Node)
    ensures n in Below(children) <==> exists c :: c in children && Under(c, n)
    decreases children
  {
    if children != [] {
      var c, rest := children[0], children[1..];
      var inner := if c.Directory? then Below(c.children) else [];
      assert n in Below(children) <==> n == c || n in inner || n in Below(rest);
      if c.Directory? {
        BelowIsUnder(c.children, n);
      }
      BelowIsUnder(rest, n);
      assert Under(c, n) <==> n == c || n in inner;
      assert forall d :: d in children <==> d == c || d in rest;
      if n in Below(rest) {
        var d :| d in rest && Under(d, n);
        assert d in children;
      }
    }
  }

  lemma {:induction false} NewestIsMaximum(children: seq<Node>, floor: int)
    ensures NewestIn(children, floor) >= floor
    ensures forall n :: n in Below(children) && n.modified.Some? ==> n.modified.value <= NewestIn(children, floor)
    ensures NewestIn(children, floor) == floor
            || exists n :: n in Below(children) && n.modified == Some(NewestIn(children, floor))
    decreases children
  {
    if children != [] {
      var c := children[0];
      var here := Latest(floor, c.modified);
      var inner := if c.Directory? then Below(c.children) else [];
      assert forall n :: n in Below(children) <==> n == c || n in inner || n in Below(children[1..]);
      if c.Directory? {
        NewestIsMaximum(c.children, here);
        NewestIsMaximum(children[1..], NewestIn(c.children, here));
      } else {
        NewestIsMaximum(children[1..], here);
      }
    }
  }

  lemma {:induction false} BytesAppend(a: seq<Node>, b: seq<Node>)
    ensures Bytes(a + b) == Bytes(a) + Bytes(b)
  {
    if a == [] {
      assert a + b == b;
    } else {
      BytesAppend(a[1..], b);
      assert (a + b)[1..] == a[1..] + b;
    }
  }

  lemma {:induction false} BytesAreSummed(children: seq<Node>)
    ensures BytesIn(children) == Bytes(Below(children))
    decreases children
  {
    if children != [] {
      var c := children[0];
      var inner := if c.Directory? then Below(c.children) else [];
      BytesAreSummed(children[1..]);
      if c.Directory? {
        BytesAreSummed(c.children);
      }
      BytesAppend([c] + inner, Below(children[1..]));
      BytesAppend([c], inner);
      assert [c][1..] == [];
    }
  }

  lemma {:induction false} ReadableIsEveryDirectory(children: seq<Node>)
    ensures ReadableIn(children) <==> forall n :: n in Below(children) && n.Directory? ==> n.readable
    decreases children
  {
    if children != [] {
      var c := children[0];
      var inner := if c.Directory? then Below(c.children) else [];
      assert forall n :: n in Below(children) <==> n == c || n in inner || n in Below(children[1..]);
      ReadableIsEveryDirectory(children[1..]);
      if c.Directory? {
        ReadableIsEveryDirectory(c.children);
      }
    }
  }

  lemma UnderIsBelow(root: Node, n: Node)
    ensures Under(root, n) <==> n == root || (root.Directory? && n in Below(root.children))
  {
    if root.Directory? {
      BelowIsUnder(root.children, n);
    }
  }

  /** A measurement is the latest modification time and the total size of everything at or below the root:
      no node is later, some node is as late, and the bytes are those of all files and links below. It
      exists exactly for a directory with a time of its own in which every directory can be listed. */
  lemma MeasurementIsExact(root: Node)
    ensures Measurement(root).Some? <==>
              && root.Directory? && root.modified.Some?
              && forall n :: Under(root, n) && n.Directory? ==> n.readable
    ensures Measurement(root).Some? ==>
              var m := Measurement(root).value;
              && (forall n :: Under(root, n) && n.modified.Some? ==> n.modified.value <= m.newest)
              && (exists n :: Under(root, n) && n.modified == Some(m.newest))
              && m.bytes == Bytes(Below(root.children))
  {
    hide Under, Latest, NewestIn, BytesIn, ReadableIn, Below;
    forall n
      ensures Under(root, n) <==> n == root || (root.Directory? && n in Below(root.children))
    {
      UnderIsBelow(root, n);
    }
    if root.Directory? {
      ReadableIsEveryDirectory(root.children);
      BytesAreSummed(root.children);
      if root.modified.Some? {
        NewestIsMaximum(root.children, root.modified.value);
        var newest := NewestIn(root.children, root.modified.value);
        if newest == root.modified.value {
          assert Under(root, root);
        } else {
          var n :| n in Below(root.children) && n.modified == Some(newest);
          assert Under(root, n);
        }
      }
    }
  }

  // ----- one pass

  const PRUNE_LIMIT: nat := 200
  const QUIET_PERIOD: nat := 600

  /** An entry of the session-state directory; entries come sorted by name. */
  datatype Entry = Entry(name: string, node: Node)

  /** The session store's files, by size; `None` where there is no plain file. */
  datatype Home = Home(entries: seq<Entry>, store: seq<Option<nat>>)

  datatype Report = Report(pruned: nat, reclaimed: nat, remaining: nat, storeRemoved: bool)

  /** `checked_sub(..).unwrap_or(UNIX_EPOCH)` with times in seconds. */
  function Cutoff(now: int, age: nat): int {
    if now - age < -0x8000_0000_0000_0000 then 0 else now - age
  }

  /** Older than both cutoffs, as far as it can be measured. */
  predicate IsOld(e: Entry, now: int, retention: nat) {
    match Measurement(e.node)
    case None => false
    case Some(m) => m.newest < Cutoff(now, retention) && m.newest <= Cutoff(now, QUIET_PERIOD)
  }

  function Size(e: Entry): nat {
    match Measurement(e.node)
    case None => 0
    case Some(m) => m.bytes
  }

  /** The first `limit` old entries. */
  function Pruned(entries: seq<Entry>, now: int, retention: nat, limit: nat): seq<Entry> {
    if entries == [] || limit == 0 then []
    else if IsOld(entries[0], now, retention) then [entries[0]] + Pruned(entries[1..], now, retention, limit - 1)
    else Pruned(entries[1..], now, retention, limit)
  }

  /** The other entries, in order. */
  function Kept(entries: seq<Entry>, now: int, retention: nat, limit: nat): seq<Entry> {
    if entries == [] || limit == 0 then entries
    else if IsOld(entries[0], now, retention) then Kept(entries[1..], now, retention, limit - 1)
    else [entries[0]] + Kept(entries[1..], now, retention, limit)
  }

  function TotalSize(entries: seq<Entry>): nat {
    if entries == [] then 0 else Size(entries[0]) + TotalSize(entries[1..])
  }

  function StoreSize(store: seq<Option<nat>>): nat {
    if store == [] then 0 else (if store[0].Some? then store[0].value else 0) + StoreSize(store[1..])
  }

  function Emptied(store: seq<Option<nat>>): seq<Option<nat>> {
    if store == [] then [] else [None] + Emptied(store[1..])
  }

  /** What one pass leaves when every removal works. */
  function Sweep(home: Home, now: int, retention: nat): (Home, Report) {
    var gone := Pruned(home.entries, now, retention, PRUNE_LIMIT);
    var left := Kept(home.entries, now, retention, PRUNE_LIMIT);
    if left != [] then (home.(entries := left), Report(|gone|, TotalSize(gone), |left|, false))
    else
      (Home([], Emptied(home.store)),
       Report(|gone|, TotalSize(gone) + StoreSize(home.store), 0, exists f :: f in home.store && f.Some?))
  }

  lemma {:induction false} PrunedSnoc(entries: seq<Entry>, e: Entry, now: int, retention: nat, limit: nat)
    ensures var old_ := Pruned(entries, now, retention, limit);
            && |old_| <= limit
            && Pruned(entries + [e], now, retention, limit)
               == old_ + (if |old_| < limit && IsOld(e, now, retention) then [e] else [])
            && Kept(entries + [e], now, retention, limit)
               == Kept(entries, now, retention, limit) + (if |old_| < limit && IsOld(e, now, retention) then [] else [e])
  {
    hide IsOld;
    if entries == [] {
      assert [e][1..] == [] && entries + [e] == [e];
    } else if limit > 0 {
      assert (entries + [e])[1..] == entries[1..] + [e];
      PrunedSnoc(entries[1..], e, now, retention, if IsOld(entries[0], now, retention) then limit - 1 else limit);
    }
  }

  lemma {:induction false} TotalSnoc(entries: seq<Entry>, e: Entry)
    ensures TotalSize(entries + [e]) == TotalSize(entries) + Size(e)
  {
    hide Size;
    if entries == [] {
      assert entries + [e] == [e] && [e][1..] == [];
    } else {
      TotalSnoc(entries[1..], e);
      assert (entries + [e])[1..] == entries[1..] + [e];
    }
  }

  // ----- a pass whose removals can fail

  /** What becomes of a removal; a failed one may leave any part of the entry, or nothing. */
  datatype Removal = Done | Broken(rest: Option<Node>)

  /** The fate of removing the k-th entry, and whether the k-th store file goes when it is removed. */
  datatype Removals = Removals(entry: nat -> Removal, file: nat -> bool)

  /** The pass removes its k-th entry. */
  predicate Removes(entries: seq<Entry>, k: nat, now: int, retention: nat)
    requires k < |entries|
  {
    IsOld(entries[k], now, retention) && |Pruned(entries[..k], now, retention, PRUNE_LIMIT)| < PRUNE_LIMIT
  }

  /** The first entry from the k-th on whose removal fails; it ends the pass. */
  function FirstBroken(entries: seq<Entry>, k: nat, now: int, retention: nat, removals: Removals): (r: Option<nat>)
    requires k <= |entries|
    ensures r.Some? ==> k <= r.value < |entries| && Removes(entries, r.value, now, retention)
    decreases |entries| - k
  {
    if k == |entries| then None
    else if Removes(entries, k, now, retention) && removals.entry(k).Broken? then Some(k)
    else FirstBroken(entries, k + 1, now, retention, removals)
  }

  /** The first plain file from the k-th on that cannot be removed. */
  function FirstStuck(store: seq<Option<nat>>, k: nat, removals: Removals): (r: Option<nat>)
    requires k <= |store|
    ensures r.Some? ==> k <= r.value < |store|
    decreases |store| - k
  {
    if k == |store| then None
    else if store[k].Some? && !removals.file(k) then Some(k)
    else FirstStuck(store, k + 1, removals)
  }

  function RestOf(e: Entry, removal: Removal): seq<Entry> {
    match removal
    case Done => []
    case Broken(rest) => if rest.Some? then [e.(node := rest.value)] else []
  }

  /** What one pass leaves, and its report unless a removal failed. */
  function SweepWith(home: Home, now: int, retention: nat, removals: Removals): (Home, Option<Report>) {
    var entries := home.entries;
    match FirstBroken(entries, 0, now, retention, removals)
    case Some(k) =>
      (home.(entries := Kept(entries[..k], now, retention, PRUNE_LIMIT)
                        + RestOf(entries[k], removals.entry(k)) + entries[k + 1..]),
       None)
    case None =>
      var (after, report) := Sweep(home, now, retention);
      if after.entries != [] then (after, Some(report))
      else match FirstStuck(home.store, 0, removals)
        case Some(k) => (Home([], Emptied(home.store[..k]) + home.store[k..]), None)
        case None => (after, Some(report))
  }

  class Sweeper {
    const retention: nat
    var home: Home

    constructor (home: Home, retention: nat)
      ensures this.home == home && this.retention == retention
    {
      this.home, this.retention := home, retention;
    }

    /** `prune_home`: no report when a removal fails. */
    method PruneHome(now: int, removals: Removals) returns (report: Option<Report>)
      modifies this
      ensures (home, report) == SweepWith(old(home), now, retention, removals)
    {
      hide Measurement, Cutoff;
      var entries := home.entries;
      var pruned, reclaimed, remaining := 0, 0, 0;
      var left: seq<Entry> := [];
      ghost var gone: seq<Entry> := [];
      for i := 0 to |entries|
        invariant gone == Pruned(entries[..i], now, retention, PRUNE_LIMIT)
        invariant left == Kept(entries[..i], now, retention, PRUNE_LIMIT)
        invariant pruned == |gone| && remaining == |left| && reclaimed == TotalSize(gone)
        invariant home == old(home)
        invariant FirstBroken(entries, 0, now, retention, removals) == FirstBroken(entries, i, now, retention, removals)
      {
        var e := entries[i];
        assert entries[..i + 1] == entries[..i] + [e];
        PrunedSnoc(entries[..i], e, now, retention, PRUNE_LIMIT);
        TotalSnoc(gone, e);
        var measured := Measure(e.node);
        if measured.Some? && measured.value.newest < Cutoff(now, retention)
           && measured.value.newest <= Cutoff(now, QUIET_PERIOD) && pruned < PRUNE_LIMIT {
          var removal := removals.entry(i);
          if removal.Broken? {
            home := home.(entries := left + RestOf(e, removal) + entries[i + 1..]);
            return None;
          }
          pruned, reclaimed := pruned + 1, reclaimed + measured.value.bytes;
          gone := gone + [e];
        } else {
          remaining := remaining + 1;
          left := left + [e];
        }
      }
      assert entries[..|entries|] == entries;
      home := home.(entries := left);
      var removed := false;
      if remaining == 0 {
        var size, complete;
        size, removed, complete := RemoveSessionStore(removals);
        if !complete { return None; }
        reclaimed := reclaimed + size;
      }
      report := Some(Report(pruned, reclaimed, remaining, removed));
    }

    /** `remove_session_store`: every plain file of the store, whatever else is missing, up to the first
        that cannot be removed. */
    method RemoveSessionStore(removals: Removals) returns (reclaimed: nat, removed: bool, complete: bool)
      modifies this
      ensures var store := old(home).store;
              match FirstStuck(store, 0, removals)
              case Some(k) => !complete && home == old(home).(store := Emptied(store[..k]) + store[k..])
              case None =>
                && complete && home == old(home).(store := Emptied(store))
                && reclaimed == StoreSize(store) && removed == exists f :: f in store && f.Some?
    {
      var store := home.store;
      reclaimed, removed, complete := 0, false, false;
      var after: seq<Option<nat>> := [];
      for i := 0 to |store|
        invariant home == old(home)
        invariant after == Emptied(store[..i])
        invariant reclaimed + StoreSize(store[i..]) == StoreSize(store)
        invariant removed == exists f :: f in store[..i] && f.Some?
        invariant FirstStuck(store, 0, removals) == FirstStuck(store, i, removals)
      {
        assert store[i..][0] == store[i] && store[i..][1..] == store[i + 1..];
        assert store[..i + 1] == store[..i] + [store[i]];
        EmptiedSnoc(store[..i], store[i]);
        if store[i].Some? {
          if !removals.file(i) {
            home := home.(store := after + store[i..]);
            return;
          }
          reclaimed := reclaimed + store[i].value;
          removed := true;
        }
        after := after + [None];
      }
      assert store[..|store|] == store;
      home := home.(store := after);
      complete := true;
    }
  }

  lemma {:induction false} EmptiedSnoc(store: seq<Option<nat>>, f: Option<nat>)
    ensures Emptied(store + [f]) == Emptied(store) + [None]
  {
    if store == [] {
      assert store + [f] == [f] && [f][1..] == [];
    } else {
      assert (store + [f])[1..] == store[1..] + [f];
      EmptiedSnoc(store[1..], f);
    }
  }

  // ----- what a pass keeps

  /** One pass: at most 200 entries go, every one of them older than both cutoffs; the others stay as
      they are and in order; the two kinds are all there were; the store goes only with the last. */
  lemma SweepIsSafe(home: Home, now: int, retention: nat)
    ensures var (after, report) := Sweep(home, now, retention);
            var gone := Pruned(home.entries, now, retention, PRUNE_LIMIT);
            && report.pruned == |gone| <= PRUNE_LIMIT
            && report.pruned + report.remaining == |home.entries|
            && (forall e :: e in gone ==> IsOld(e, now, retention))
            && multiset(home.entries) == multiset(gone) + multiset(after.entries)
            && (forall e :: e in home.entries && !IsOld(e, now, retention) ==> e in after.entries)
            && (after.store != home.store ==> after.entries == [])
            && (report.storeRemoved ==> after.entries == [])
  {
    hide IsOld;
    PrunedParts(home.entries, now, retention, PRUNE_LIMIT);
    forall e | e in home.entries && !IsOld(e, now, retention)
      ensures e in Kept(home.entries, now, retention, PRUNE_LIMIT)
    {
      assert e in multiset(home.entries);
      assert e !in multiset(Pruned(home.entries, now, retention, PRUNE_LIMIT));
    }
  }

  lemma {:induction false} NothingBreaks(entries: seq<Entry>, k: nat, now: int, retention: nat, removals: Removals)
    requires k <= |entries| && forall i :: removals.entry(i) == Done
    ensures FirstBroken(entries, k, now, retention, removals).None?
    decreases |entries| - k
  {
    hide Removes;
    if k < |entries| {
      NothingBreaks(entries, k + 1, now, retention, removals);
    }
  }

  lemma {:induction false} NothingSticks(store: seq<Option<nat>>, k: nat, removals: Removals)
    requires k <= |store| && forall i :: removals.file(i)
    ensures FirstStuck(store, k, removals).None?
    decreases |store| - k
  {
    if k < |store| {
      NothingSticks(store, k + 1, removals);
    }
  }

  /** Whatever removals fail, a pass removes at most 200 entries and only old ones, leaves every other as
      it was, and touches the store only when no entry is left. When none fails it is the plain sweep. */
  lemma FailingSweepIsSafe(home: Home, now: int, retention: nat, removals: Removals)
    ensures var (after, report) := SweepWith(home, now, retention, removals);
            && |home.entries| - |after.entries| <= PRUNE_LIMIT && |after.entries| <= |home.entries|
            && (forall e :: e in home.entries && e !in after.entries ==> IsOld(e, now, retention))
            && (forall e :: e in after.entries && e !in home.entries ==>
                  exists whole :: whole in home.entries && whole.name == e.name && IsOld(whole, now, retention))
            && (after.store != home.store ==> after.entries == [])
            && (report.Some? ==> (after, report.value) == Sweep(home, now, retention))
            && ((forall i :: removals.entry(i) == Done) && (forall i :: removals.file(i)) ==> report.Some?)
  {
    hide IsOld, Emptied, StoreSize, TotalSize;
    var entries := home.entries;
    if (forall i :: removals.entry(i) == Done) && (forall i :: removals.file(i)) {
      NothingBreaks(entries, 0, now, retention, removals);
      NothingSticks(home.store, 0, removals);
    }
    match FirstBroken(entries, 0, now, retention, removals)
    case None =>
      SweepIsSafe(home, now, retention);
      OnlyOldEntriesGo(entries, now, retention);
    case Some(k) =>
      BrokenSweepIsSafe(entries, k, now, retention, removals.entry(k));
  }

  lemma OnlyOldEntriesGo(entries: seq<Entry>, now: int, retention: nat)
    ensures var left := Kept(entries, now, retention, PRUNE_LIMIT);
            && |entries| - |left| <= PRUNE_LIMIT && |left| <= |entries|
            && (forall e :: e in entries && e !in left ==> IsOld(e, now, retention))
            && (forall e :: e in left ==> e in entries)
  {
    hide *;
    PrunedParts(entries, now, retention, PRUNE_LIMIT);
    var gone, left := Pruned(entries, now, retention, PRUNE_LIMIT), Kept(entries, now, retention, PRUNE_LIMIT);
    forall e
      ensures e in entries <==> e in gone || e in left
    {
      assert e in entries <==> e in multiset(entries);
    }
  }

  lemma BrokenSweepIsSafe(entries: seq<Entry>, k: nat, now: int, retention: nat, removal: Removal)
    requires k < |entries| && Removes(entries, k, now, retention)
    ensures var after := Kept(entries[..k], now, retention, PRUNE_LIMIT) + RestOf(entries[k], removal) + entries[k + 1..];
            && |entries| - |after| <= PRUNE_LIMIT && |after| <= |entries|
            && (forall e :: e in entries && e !in after ==> IsOld(e, now, retention))
            && (forall e :: e in after && e !in entries ==>
                  exists whole :: whole in entries && whole.name == e.name && IsOld(whole, now, retention))
  {
    hide IsOld;
    var gone, left := Pruned(entries[..k], now, retention, PRUNE_LIMIT), Kept(entries[..k], now, retention, PRUNE_LIMIT);
    PrunedParts(entries[..k], now, retention, PRUNE_LIMIT);
    hide Pruned, Kept;
    assert entries == entries[..k] + ([entries[k]] + entries[k + 1..]);
    forall e | e in entries[..k] && e !in left
      ensures e in gone
    {
      assert e in multiset(entries[..k]);
    }
    forall e | e in left
      ensures e in entries
    {
      assert e in multiset(left) && e in multiset(entries[..k]);
    }
    assert entries[k] in entries;
  }

  lemma {:induction false} PrunedParts(entries: seq<Entry>, now: int, retention: nat, limit: nat)
    ensures var gone, left := Pruned(entries, now, retention, limit), Kept(entries, now, retention, limit);
            && |gone| <= limit
            && |gone| + |left| == |entries|
            && multiset(gone) + multiset(left) == multiset(entries)
            && forall e :: e in gone ==> IsOld(e, now, retention)
  {
    hide IsOld;
    if entries != [] && limit > 0 {
      PrunedParts(entries[1..], now, retention, if IsOld(entries[0], now, retention) then limit - 1 else limit);
      assert entries == [entries[0]] + entries[1..];
    }
  }

  /** Old, in seconds: an entry that can be measured and holds nothing modified within the retention or
      within the last ten minutes. */
  lemma OldIff(e: Entry, now: int, retention: nat)
    requires now - retention >= -0x8000_0000_0000_0000 && now - 600 >= -0x8000_0000_0000_0000
    ensures IsOld(e, now, retention) <==>
              && Measurement(e.node).Some?
              && forall n :: Under(e.node, n) && n.modified.Some? ==>
                   n.modified.value < now - retention && n.modified.value <= now - 600
  {
    MeasurementIsExact(e.node);
    hide Measurement, Under, Below;
  }

  /** No entry goes that holds anything modified at or after `now - retention` or in the last 600 seconds,
      and none that cannot be measured. */
  lemma NothingRecentIsPruned(entries: seq<Entry>, now: int, retention: nat, limit: nat, e: Entry, n: Node)
    requires now - retention >= -0x8000_0000_0000_0000 && now - 600 >= -0x8000_0000_0000_0000
    requires e in Pruned(entries, now, retention, limit) && Under(e.node, n)
    ensures n.modified.Some? ==> n.modified.value < now - retention && n.modified.value <= now - 600
    ensures n.Directory? ==> n.readable
  {
    PrunedParts(entries, now, retention, limit);
    OldIff(e, now, retention);
    MeasurementIsExact(e.node);
    hide Measurement, Under, Below, IsOld;
  }

  /** What the removed entries held. */
  function Freed(gone: seq<Entry>): nat {
    if gone == [] then 0
    else (if gone[0].node.Directory? then Bytes(Below(gone[0].node.children)) else 0) + Freed(gone[1..])
  }

  lemma {:induction false} ReclaimedIsFreed(gone: seq<Entry>)
    requires forall e :: e in gone ==> Measurement(e.node).Some?
    ensures TotalSize(gone) == Freed(gone)
  {
    hide Measurement, Bytes, Below;
    if gone != [] {
      assert gone[0] in gone && forall e :: e in gone[1..] ==> e in gone;
      MeasurementIsExact(gone[0].node);
      ReclaimedIsFreed(gone[1..]);
    }
  }

  /** The report in numbers: at most 200 entries pruned, and reclaimed is every byte of the files and links
      in them, and the store's when no entry is left. */
  lemma ReportIsExact(home: Home, now: int, retention: nat)
    ensures var (after, report) := Sweep(home, now, retention);
            var gone := Pruned(home.entries, now, retention, PRUNE_LIMIT);
            && report.pruned == |gone| <= 200
            && report.remaining == |after.entries| == |home.entries| - |gone|
            && report.reclaimed == Freed(gone) + (if after.entries == [] then StoreSize(home.store) else 0)
            && (report.storeRemoved <==> after.entries == [] && exists f :: f in home.store && f.Some?)
            && (forall e :: e in after.entries && IsOld(e, now, retention) ==> |gone| == 200)
  {
    hide IsOld, Freed, StoreSize, Emptied;
    PrunedParts(home.entries, now, retention, PRUNE_LIMIT);
    var gone := Pruned(home.entries, now, retention, PRUNE_LIMIT);
    forall e | e in gone
      ensures Measurement(e.node).Some?
    {
      OldIsMeasured(e, now, retention);
    }
    ReclaimedIsFreed(gone);
    LeftOldIsOverLimit(home.entries, now, retention, PRUNE_LIMIT);
    hide Measurement;
  }

  lemma OldIsMeasured(e: Entry, now: int, retention: nat)
    requires IsOld(e, now, retention)
    ensures Measurement(e.node).Some?
  {
  }

  lemma {:induction false} LeftOldIsOverLimit(entries: seq<Entry>, now: int, retention: nat, limit: nat)
    ensures forall e :: e in Kept(entries, now, retention, limit) && IsOld(e, now, retention) ==>
                          |Pruned(entries, now, retention, limit)| == limit
  {
    hide IsOld;
    if entries != [] && limit > 0 {
      LeftOldIsOverLimit(entries[1..], now, retention, if IsOld(entries[0], now, retention) then limit - 1 else limit);
    }
  }

  // ----- draining

  predicate AllOld(entries: seq<Entry>, now: int, retention: nat) {
    forall e :: e in entries ==> IsOld(e, now, retention)
  }

  lemma {:induction false} OldDrains(entries: seq<Entry>, now: int, retention: nat, limit: nat)
    requires AllOld(entries, now, retention)
    ensures Kept(entries, now, retention, limit) == if |entries| <= limit then [] else entries[limit..]
  {
    hide IsOld;
    if entries != [] && limit > 0 {
      assert entries[0] in entries && forall e :: e in entries[1..] ==> e in entries;
      OldDrains(entries[1..], now, retention, limit - 1);
    }
  }

  /** Passes at the given times, one after the other. */
  function Sweeps(home: Home, nows: seq<int>, retention: nat): Home
    decreases |nows|
  {
    if nows == [] then home else Sweeps(Sweep(home, nows[0], retention).0, nows[1..], retention)
  }

  lemma StaysOld(e: Entry, now: int, later: int, retention: nat)
    requires IsOld(e, now, retention) && now <= later && now - retention >= -0x8000_0000_0000_0000
    requires now - QUIET_PERIOD >= -0x8000_0000_0000_0000
    ensures IsOld(e, later, retention)
  {
    hide Measurement;
  }

  /** A clock that never goes back and stands far enough from its beginning. */
  predicate GoodClock(nows: seq<int>, from: int, retention: nat) {
    && from - retention >= -0x8000_0000_0000_0000 && from - QUIET_PERIOD >= -0x8000_0000_0000_0000
    && (nows == [] || (from <= nows[0] && GoodClock(nows[1..], nows[0], retention)))
  }

  /** Entries that are all old drain 200 a pass, and the store stays until the pass that leaves none. */
  lemma {:induction false} BacklogDrains(home: Home, nows: seq<int>, from: int, retention: nat)
    requires AllOld(home.entries, from, retention) && GoodClock(nows, from, retention)
    requires |home.entries| > 0
    ensures var after := Sweeps(home, nows, retention);
            && |after.entries| == (if |home.entries| <= |nows| * PRUNE_LIMIT then 0 else |home.entries| - |nows| * PRUNE_LIMIT)
            && after.store == (if after.entries == [] then Emptied(home.store) else home.store)
    decreases |nows|
  {
    hide IsOld;
    if nows != [] {
      var now := nows[0];
      forall e | e in home.entries
        ensures IsOld(e, now, retention)
      {
        StaysOld(e, from, now, retention);
      }
      OldDrains(home.entries, now, retention, PRUNE_LIMIT);
      var next := Sweep(home, now, retention).0;
      if next.entries == [] {
        EmptiedTwice(home.store);
        EmptyStaysEmpty(next, nows[1..], retention);
      } else {
        assert next.entries == home.entries[PRUNE_LIMIT..] && next.store == home.store;
        BacklogDrains(next, nows[1..], now, retention);
      }
    }
  }

  lemma {:induction false} EmptiedTwice(store: seq<Option<nat>>)
    ensures Emptied(Emptied(store)) == Emptied(store)
  {
    if store != [] {
      EmptiedTwice(store[1..]);
    }
  }

  lemma {:induction false} EmptyStaysEmpty(home: Home, nows: seq<int>, retention: nat)
    requires home.entries == [] && Emptied(home.store) == home.store
    ensures Sweeps(home, nows, retention) == home
    decreases |nows|
  {
    if nows != [] {
      assert Sweep(home, nows[0], retention).0 == home;
      EmptyStaysEmpty(home, nows[1..], retention);
    }
  }

  /** k old entries and no others are gone, and the store with them, after max(1, ceil(k / 200)) passes;
      before that the store is untouched. */
  lemma DrainsExactly(home: Home, nows: seq<int>, from: int, retention: nat)
    requires AllOld(home.entries, from, retention) && GoodClock(nows, from, retention)
    ensures var after := Sweeps(home, nows, retention);
            var k := |home.entries|;
            if |nows| >= (if k == 0 then 1 else (k + 199) / 200)
            then after.entries == [] && after.store == Emptied(home.store)
            else after.store == home.store && (home.entries != [] ==> after.entries != [])
  {
    if home.entries != [] {
      BacklogDrains(home, nows, from, retention);
    } else if nows != [] {
      EmptiedTwice(home.store);
      EmptyStaysEmpty(Sweep(home, nows[0], retention).0, nows[1..], retention);
    }
  }

  // ----- the isolation of the home

  /** A path is the list of its components. */
  type Path = seq<string>

  /** `conflicting_source_home`: the first registered home that holds `home` or lies in it. */
  function ConflictingHome(home: Path, registered: seq<Path>): Option<Path> {
    if registered == [] then None
    else if registered[0] <= home || home <= registered[0] then Some(registered[0])
    else ConflictingHome(home, registered[1..])
  }

  predicate LiesIn(p: Path, home: Path) {
    home <= p
  }

  /** No conflict means that no path at all lies both in the exhaust home and in a registered one. */
  lemma {:induction false} NoConflictIff(home: Path, registered: seq<Path>)
    ensures ConflictingHome(home, registered).None? <==>
              forall r, p :: r in registered && LiesIn(p, home) ==> !LiesIn(p, r)
  {
    if registered != [] {
      NoConflictIff(home, registered[1..]);
      var r := registered[0];
      assert r in registered && forall r :: r in registered[1..] ==> r in registered;
      assert forall r :: r in registered ==> r == registered[0] || r in registered[1..];
      if r <= home || home <= r {
        var p := if r <= home then home else r;
        assert LiesIn(p, home) && LiesIn(p, r);
      } else {
        forall p | LiesIn(p, home)
          ensures !LiesIn(p, r)
        {
          Comparable(home, r, p);
        }
      }
    }
  }

  lemma Comparable(a: Path, b: Path, p: Path)
    ensures a <= p && b <= p ==> a <= b || b <= a
  {
    if a <= p && b <= p {
      if |a| <= |b| {
        assert a == p[..|a|] == b[..|a|];
      } else {
        assert b == p[..|b|] == a[..|b|];
      }
    }
  }
}
