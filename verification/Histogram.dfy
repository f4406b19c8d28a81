/** The dashboard's counts over attempt and session rows: the outcome histogram, the counts by state and
    source, and the ranking of projects. */
module Histogram {
  import opened Wrappers
  import opened ToolEvents

  /** A row's fields; an absent, null or mistyped field is `None`. */
  datatype Row = Row(
    outcome: Option<string>,
    finished: Option<int>,
    lifecycleState: Option<string>,
    state: Option<string>,
    source: Option<string>,
    project: Option<string>)

  /** `text`: an empty string counts as absent. */
  function NonBlank(field: Option<string>): Option<string> {
    if field == Some("") then None else field
  }

  // ----- the outcome histogram

  const BIN_MS: int := 1_800_000
  const WINDOW_MS: int := 21_600_000
  const OUTCOMES: seq<string> := ["succeeded", "failed", "recovered", "superseded"]

  /** The outcome's place among the stacked ones. */
  function OutcomeOf(row: Row): (r: Option<nat>)
    ensures r.Some? ==> r.value < 4 && row.outcome == Some(OUTCOMES[r.value])
  {
    match NonBlank(row.outcome)
    case None => None
    case Some(name) =>
      if name == "succeeded" then Some(0)
      else if name == "failed" then Some(1)
      else if name == "recovered" then Some(2)
      else if name == "superseded" then Some(3)
      else None
  }

  function Floor(t: int): int {
    t / BIN_MS * BIN_MS
  }

  function WindowStart(now: int): int {
    Floor(now - WINDOW_MS)
  }

  function WindowEnd(now: int): int {
    (now / BIN_MS + 1) * BIN_MS
  }

  /** Rows with this outcome that finished from `from` on and before `until`. */
  predicate FinishedIn(row: Row, outcome: nat, from: int, until: int) {
    OutcomeOf(row) == Some(outcome) && row.finished.Some? && from <= row.finished.value < until
  }

  function CountIn(rows: seq<Row>, outcome: nat, from: int, until: int): nat {
    if rows == [] then 0
    else CountIn(rows[..|rows| - 1], outcome, from, until) + (if FinishedIn(rows[|rows| - 1], outcome, from, until) then 1 else 0)
  }

  datatype Bin = Bin(start: int, tally: seq<nat>)

  type Tallies = map<int, seq<nat>>

  const NO_TALLY: seq<nat> := [0, 0, 0, 0]

  function TallyAt(counts: Tallies, start: int): seq<nat> {
    if start in counts then counts[start] else NO_TALLY
  }

  function ExactTally(rows: seq<Row>, start: int): seq<nat> {
    [CountIn(rows, 0, start, start + BIN_MS), CountIn(rows, 1, start, start + BIN_MS),
     CountIn(rows, 2, start, start + BIN_MS), CountIn(rows, 3, start, start + BIN_MS)]
  }

  /** Every bin from the window's start on holds exactly its rows. */
  ghost predicate IsExact(counts: Tallies, rows: seq<Row>, from: int) {
    forall start :: start >= from && start % BIN_MS == 0 ==> TallyAt(counts, start) == ExactTally(rows, start)
  }

  lemma FloorOf(t: int)
    ensures Floor(t) <= t < Floor(t) + BIN_MS && Floor(t) % BIN_MS == 0
  {
  }

  lemma OneBin(t: int, start: int)
    requires start % BIN_MS == 0
    ensures start <= t < start + BIN_MS <==> Floor(t) == start
  {
    FloorOf(t);
  }

  lemma Snoc(rows: seq<Row>, row: Row, outcome: nat, from: int, until: int)
    ensures CountIn(rows + [row], outcome, from, until) ==
            CountIn(rows, outcome, from, until) + (if FinishedIn(row, outcome, from, until) then 1 else 0)
  {
    assert (rows + [row])[..|rows|] == rows;
  }

  lemma TallySnoc(rows: seq<Row>, row: Row, start: int)
    ensures var before, after := ExactTally(rows, start), ExactTally(rows + [row], start);
            && |before| == 4 && |after| == 4
            && forall o :: 0 <= o < 4 ==> after[o] == before[o] + (if FinishedIn(row, o, start, start + BIN_MS) then 1 else 0)
  {
    Snoc(rows, row, 0, start, start + BIN_MS);
    Snoc(rows, row, 1, start, start + BIN_MS);
    Snoc(rows, row, 2, start, start + BIN_MS);
    Snoc(rows, row, 3, start, start + BIN_MS);
    hide CountIn, FinishedIn;
  }

  lemma CountedRow(counts: Tallies, rows: seq<Row>, row: Row, from: int, outcome: nat, after: Tallies)
    requires IsExact(counts, rows, from)
    requires from % BIN_MS == 0 && row.finished.Some? && row.finished.value >= from && OutcomeOf(row) == Some(outcome)
    requires var bin := Floor(row.finished.value);
             && |TallyAt(counts, bin)| == 4 && outcome < 4
             && after == counts[bin := TallyAt(counts, bin)[outcome := TallyAt(counts, bin)[outcome] + 1]]
    ensures IsExact(after, rows + [row], from)
  {
    hide OutcomeOf, Floor;
    forall start | start >= from && start % BIN_MS == 0
      ensures TallyAt(after, start) == ExactTally(rows + [row], start)
    {
      TallySnoc(rows, row, start);
      OneBin(row.finished.value, start);
      hide ExactTally;
    }
  }

  lemma SkippedRow(counts: Tallies, rows: seq<Row>, row: Row, from: int)
    requires IsExact(counts, rows, from)
    requires row.finished.None? || row.finished.value < from || OutcomeOf(row).None?
    ensures IsExact(counts, rows + [row], from)
  {
    hide OutcomeOf;
    forall start | start >= from && start % BIN_MS == 0
      ensures TallyAt(counts, start) == ExactTally(rows + [row], start)
    {
      TallySnoc(rows, row, start);
      hide ExactTally;
    }
  }

  function BinStart(now: int, i: nat): int {
    WindowStart(now) + i * BIN_MS
  }

  const BINS: nat := 13

  /** The bins as they should be: thirteen, one behind the other, each with exactly its rows. */
  function Bins(now: int, rows: seq<Row>): (bins: seq<Bin>) {
    seq(BINS, i requires 0 <= i < BINS => Bin(BinStart(now, i), ExactTally(rows, BinStart(now, i))))
  }

  lemma WindowIsThirteenBins(now: int)
    ensures WindowEnd(now) == WindowStart(now) + 13 * BIN_MS
    ensures WindowStart(now) % BIN_MS == 0
    ensures WindowStart(now) <= now - WINDOW_MS && now < WindowEnd(now)
  {
    assert (now - WINDOW_MS) / BIN_MS == now / BIN_MS - 12;
    FloorOf(now - WINDOW_MS);
    FloorOf(now);
  }

  /** `outcome_bins`. */
  method OutcomeBins(now: int, rows: seq<Row>) returns (bins: seq<Bin>)
    ensures bins == Bins(now, rows)
  {
    hide ExactTally, OutcomeOf, Floor;
    WindowIsThirteenBins(now);
    var start, end := WindowStart(now), WindowEnd(now);
    hide WindowStart, WindowEnd;
    var counts: Tallies := map[];
    NothingCounted(start);
    for i := 0 to |rows|
      invariant IsExact(counts, rows[..i], start)
    {
      var row := rows[i];
      assert rows[..i + 1] == rows[..i] + [row];
      var outcome := OutcomeOf(row);
      if row.finished.Some? && row.finished.value >= start && outcome.Some? {
        var bin := Floor(row.finished.value);
        BinIsAfter(row.finished.value, start);
        ExactHasFour(rows[..i], bin);
        var tally := TallyAt(counts, bin);
        ghost var before := counts;
        counts := counts[bin := tally[outcome.value := tally[outcome.value] + 1]];
        CountedRow(before, rows[..i], row, start, outcome.value, counts);
      } else {
        SkippedRow(counts, rows[..i], row, start);
      }
    }
    assert rows[..|rows|] == rows;
    bins := [];
    var binStart := start;
    while binStart < end
      invariant |bins| <= 13 && binStart == start + |bins| * BIN_MS
      invariant bins == Bins(now, rows)[..|bins|]
    {
      StepKeepsMultiple(start, |bins|);
      assert binStart == BinStart(now, |bins|);
      bins := bins + [Bin(binStart, TallyAt(counts, binStart))];
      binStart := binStart + BIN_MS;
    }
    assert Bins(now, rows)[..13] == Bins(now, rows);
  }

  lemma NothingCounted(from: int)
    ensures IsExact(map[], [], from)
  {
  }

  lemma BinIsAfter(t: int, from: int)
    requires t >= from && from % BIN_MS == 0
    ensures Floor(t) >= from && Floor(t) % BIN_MS == 0
  {
    FloorOf(t);
  }

  lemma ExactHasFour(rows: seq<Row>, start: int)
    ensures |ExactTally(rows, start)| == 4
  {
  }

  lemma StepKeepsMultiple(start: int, n: nat)
    requires start % BIN_MS == 0
    ensures (start + n * BIN_MS) % BIN_MS == 0 && start + n * BIN_MS >= start
  {
  }

  // ----- conservation

  function SumOver(bins: seq<Bin>, outcome: nat): nat
    requires outcome < 4 && forall b :: b in bins ==> |b.tally| == 4
  {
    if bins == [] then 0
    else
      assert bins[|bins| - 1] in bins;
      SumOver(bins[..|bins| - 1], outcome) + bins[|bins| - 1].tally[outcome]
  }

  lemma {:induction false} CountSplits(rows: seq<Row>, outcome: nat, from: int, middle: int, until: int)
    requires from <= middle <= until
    ensures CountIn(rows, outcome, from, until) == CountIn(rows, outcome, from, middle) + CountIn(rows, outcome, middle, until)
  {
    if rows != [] {
      CountSplits(rows[..|rows| - 1], outcome, from, middle, until);
    }
  }

  lemma BinsHaveFour(now: int, rows: seq<Row>)
    ensures forall b :: b in Bins(now, rows) ==> |b.tally| == 4
  {
  }

  lemma {:induction false} EmptyRange(rows: seq<Row>, outcome: nat, at: int)
    ensures CountIn(rows, outcome, at, at) == 0
  {
    if rows != [] {
      EmptyRange(rows[..|rows| - 1], outcome, at);
    }
  }

  lemma BinHolds(now: int, rows: seq<Row>, i: nat, outcome: nat)
    requires i < BINS && outcome < 4
    ensures var b := Bins(now, rows)[i];
            |b.tally| == 4 && b.tally[outcome] == CountIn(rows, outcome, BinStart(now, i), BinStart(now, i + 1))
  {
    hide CountIn, WindowStart;
  }

  lemma {:induction false} SumOfFirst(now: int, rows: seq<Row>, outcome: nat, n: nat)
    requires outcome < 4 && n <= BINS && forall b :: b in Bins(now, rows)[..n] ==> |b.tally| == 4
    ensures SumOver(Bins(now, rows)[..n], outcome) == CountIn(rows, outcome, WindowStart(now), BinStart(now, n))
  {
    hide CountIn, WindowStart, ExactTally;
    if n == 0 {
      EmptyRange(rows, outcome, WindowStart(now));
    } else {
      BinHolds(now, rows, n - 1, outcome);
      var first := Bins(now, rows)[..n];
      assert first[..n - 1] == Bins(now, rows)[..n - 1];
      assert forall b :: b in first[..n - 1] ==> b in first;
      SumOfFirst(now, rows, outcome, n - 1);
      CountSplits(rows, outcome, WindowStart(now), BinStart(now, n - 1), BinStart(now, n));
    }
  }

  /** The histogram conserves: thirteen bins behind one another cover the window, and for each outcome
      they hold exactly the rows that finished inside it. */
  lemma HistogramConserves(now: int, rows: seq<Row>, outcome: nat)
    requires outcome < 4
    ensures var bins := Bins(now, rows);
            && |bins| == 13
            && bins[0].start == WindowStart(now) <= now - WINDOW_MS
            && bins[12].start + BIN_MS == WindowEnd(now) > now
            && (forall i :: 0 <= i < 12 ==> bins[i + 1].start == bins[i].start + BIN_MS)
            && (forall b :: b in bins ==> |b.tally| == 4)
            && SumOver(bins, outcome) == CountIn(rows, outcome, WindowStart(now), WindowEnd(now))
  {
    hide CountIn;
    var bins := Bins(now, rows);
    WindowIsThirteenBins(now);
    BinsHaveFour(now, rows);
    assert bins[..13] == bins;
    SumOfFirst(now, rows, outcome, 13);
    hide WindowStart, WindowEnd, ExactTally;
  }

  /** Rows that record this outcome and finished from `from` on and before `until`. */
  function CountNamed(rows: seq<Row>, outcome: string, from: int, until: int): nat {
    if rows == [] then 0
    else
      var row := rows[0];
      CountNamed(rows[1..], outcome, from, until)
      + if row.outcome == Some(outcome) && row.finished.Some? && from <= row.finished.value < until then 1 else 0
  }

  predicate IsNamed(outcome: nat, name: string) {
    || (outcome == 0 && name == "succeeded") || (outcome == 1 && name == "failed")
    || (outcome == 2 && name == "recovered") || (outcome == 3 && name == "superseded")
  }

  lemma OutcomeIsNamed(row: Row, outcome: nat, name: string)
    requires IsNamed(outcome, name)
    ensures OutcomeOf(row) == Some(outcome) <==> row.outcome == Some(name)
  {
  }

  lemma {:induction false} NamedSnoc(rows: seq<Row>, row: Row, outcome: string, from: int, until: int)
    ensures CountNamed(rows + [row], outcome, from, until) == CountNamed(rows, outcome, from, until)
            + if row.outcome == Some(outcome) && row.finished.Some? && from <= row.finished.value < until then 1 else 0
  {
    if rows == [] {
      assert rows + [row] == [row] && [row][1..] == [];
    } else {
      NamedSnoc(rows[1..], row, outcome, from, until);
      assert (rows + [row])[0] == rows[0] && (rows + [row])[1..] == rows[1..] + [row];
    }
  }

  lemma {:induction false} CountIsNamed(rows: seq<Row>, outcome: nat, name: string, from: int, until: int)
    requires IsNamed(outcome, name)
    ensures CountIn(rows, outcome, from, until) == CountNamed(rows, name, from, until)
  {
    hide OutcomeOf, IsNamed, CountNamed;
    if rows != [] {
      var n := |rows| - 1;
      CountIsNamed(rows[..n], outcome, name, from, until);
      OutcomeIsNamed(rows[n], outcome, name);
      NamedSnoc(rows[..n], rows[n], name, from, until);
      assert rows[..n] + [rows[n]] == rows;
    } else {
      NothingNamed(name, from, until);
    }
  }

  lemma NothingNamed(name: string, from: int, until: int)
    ensures CountNamed([], name, from, until) == 0
  {
  }

  /** The histogram in its own words: thirteen half-hour bins one behind the other, on the half hour, from
      the one six hours ago to the current one; the four counts of each are the rows that record
      `succeeded`, `failed`, `recovered` and `superseded` and finished in it, and over all bins they are
      those that finished within the six and a half hours. */
  lemma HistogramSays(now: int, rows: seq<Row>, outcome: nat, name: string)
    requires IsNamed(outcome, name)
    ensures var bins := Bins(now, rows);
            && |bins| == 13
            && bins[0].start <= now - 21_600_000 < bins[0].start + 1_800_000
            && bins[12].start <= now < bins[12].start + 1_800_000
            && (forall i :: 0 <= i < 13 ==> bins[i].start % 1_800_000 == 0 && bins[i].start == bins[0].start + i * 1_800_000)
            && (forall b :: b in bins ==>
                  && |b.tally| == 4
                  && b.tally[outcome] == CountNamed(rows, name, b.start, b.start + 1_800_000))
            && SumOver(bins, outcome) == CountNamed(rows, name, bins[0].start, bins[0].start + 23_400_000)
  {
    hide CountIn, CountNamed, SumOver;
    var bins := Bins(now, rows);
    HistogramConserves(now, rows, outcome);
    WindowIsThirteenBins(now);
    FloorOf(now - WINDOW_MS);
    forall i | 0 <= i < 13
      ensures bins[i].start % 1_800_000 == 0 && bins[i].start == bins[0].start + i * 1_800_000
      ensures bins[i].tally[outcome] == CountNamed(rows, name, bins[i].start, bins[i].start + 1_800_000)
    {
      StepKeepsMultiple(WindowStart(now), i);
      CountIsNamed(rows, outcome, name, bins[i].start, bins[i].start + 1_800_000);
    }
    CountIsNamed(rows, outcome, name, WindowStart(now), WindowEnd(now));
  }

  // ----- counts by key

  function Lifecycle(row: Row): Option<string> {
    if NonBlank(row.lifecycleState).Some? then NonBlank(row.lifecycleState) else NonBlank(row.state)
  }

  function OrUnknown(field: Option<string>): string {
    match NonBlank(field) case None => "(unknown)" case Some(text) => text
  }

  /** The group a row counts in; `None` is no group. */
  type Key = (string, string)

  function StateSource(row: Row): Option<Key> {
    match Lifecycle(row)
    case None => None
    case Some(state) => Some((state, OrUnknown(row.source)))
  }

  /** Queued rows by project. */
  function QueuedProject(row: Row): Option<Key> {
    if Lifecycle(row) == Some("interrupted") || Lifecycle(row) == Some("observed")
    then Some(("", OrUnknown(row.project))) else None
  }

  /** The row is in this state: its lifecycle state, or its state where that says nothing. */
  predicate InState(row: Row, state: string) {
    state != "" && (row.lifecycleState == Some(state)
                    || ((row.lifecycleState == None || row.lifecycleState == Some("")) && row.state == Some(state)))
  }

  predicate IsCalled(field: Option<string>, name: string) {
    if field == None || field == Some("") then name == "(unknown)" else field == Some(name)
  }

  /** The group of a row in each list: its state and source; and for a row that is interrupted or only
      observed, and for no other, its project. */
  lemma GroupIff(row: Row, key: Key)
    ensures StateSource(row) == Some(key) <==> InState(row, key.0) && IsCalled(row.source, key.1)
    ensures QueuedProject(row) == Some(key) <==>
              key.0 == "" && (InState(row, "interrupted") || InState(row, "observed")) && IsCalled(row.project, key.1)
  {
  }

  function CountKey(rows: seq<Row>, keyOf: Row -> Option<Key>, key: Key): nat {
    if rows == [] then 0
    else CountKey(rows[..|rows| - 1], keyOf, key) + (if keyOf(rows[|rows| - 1]) == Some(key) then 1 else 0)
  }

  function CountAny(rows: seq<Row>, keyOf: Row -> Option<Key>): nat {
    if rows == [] then 0
    else CountAny(rows[..|rows| - 1], keyOf) + (if keyOf(rows[|rows| - 1]).Some? then 1 else 0)
  }

  type Counts = map<Key, nat>

  /** Every group that occurs is counted exactly, and there is no other. */
  ghost predicate CountsExactly(counts: Counts, rows: seq<Row>, keyOf: Row -> Option<Key>) {
    forall key: Key ::
      && (key in counts <==> CountKey(rows, keyOf, key) > 0)
      && (key in counts ==> counts[key] == CountKey(rows, keyOf, key))
  }

  lemma KeySnoc(rows: seq<Row>, row: Row, keyOf: Row -> Option<Key>, key: Key)
    ensures CountKey(rows + [row], keyOf, key) == CountKey(rows, keyOf, key) + (if keyOf(row) == Some(key) then 1 else 0)
  {
    assert (rows + [row])[..|rows|] == rows;
  }

  /** The counting loop of `by_state_source` and `remaining_by_project`. */
  method CountGroups(rows: seq<Row>, keyOf: Row -> Option<Key>) returns (counts: Counts)
    ensures CountsExactly(counts, rows, keyOf)
  {
    counts := map[];
    for i := 0 to |rows|
      invariant CountsExactly(counts, rows[..i], keyOf)
    {
      assert rows[..i + 1] == rows[..i] + [rows[i]];
      forall key: Key
        ensures CountKey(rows[..i + 1], keyOf, key) ==
                CountKey(rows[..i], keyOf, key) + (if keyOf(rows[i]) == Some(key) then 1 else 0)
      {
        KeySnoc(rows[..i], rows[i], keyOf, key);
      }
      var key := keyOf(rows[i]);
      if key.Some? {
        counts := counts[key.value := (if key.value in counts then counts[key.value] else 0) + 1];
      }
    }
    assert rows[..|rows|] == rows;
  }

  // ----- the ranking

  datatype Ranked = Ranked(key: Key, n: nat)

  /** Pairs in the order of the map: state, then source. */
  predicate KeyLess(a: Key, b: Key) {
    Less(a.0, b.0) || (a.0 == b.0 && Less(a.1, b.1))
  }

  /** In key order, or by descending count with ties in key order. */
  predicate RanksBefore(a: Ranked, b: Ranked, byCount: bool) {
    if byCount && a.n != b.n then a.n > b.n else KeyLess(a.key, b.key)
  }

  lemma KeyLessIsTotal(a: Key, b: Key)
    ensures KeyLess(a, b) || a == b || KeyLess(b, a)
    ensures !KeyLess(a, a)
  {
    LessIsTotal(a.0, b.0);
    LessIsTotal(a.1, b.1);
    LessIsTotal(a.0, a.0);
    LessIsTotal(a.1, a.1);
  }

  lemma RanksBeforeIsTransitive(a: Ranked, b: Ranked, c: Ranked, byCount: bool)
    requires RanksBefore(a, b, byCount) && RanksBefore(b, c, byCount)
    ensures RanksBefore(a, c, byCount)
  {
    if Less(a.key.0, b.key.0) && Less(b.key.0, c.key.0) { LessIsTransitive(a.key.0, b.key.0, c.key.0); }
    if Less(a.key.1, b.key.1) && Less(b.key.1, c.key.1) { LessIsTransitive(a.key.1, b.key.1, c.key.1); }
  }

  predicate IsRanking(ranked: seq<Ranked>, byCount: bool) {
    forall i, j :: 0 <= i < j < |ranked| ==> RanksBefore(ranked[i], ranked[j], byCount)
  }

  /** Puts one group where it ranks. */
  method PutRanked(ranked: seq<Ranked>, r: Ranked, byCount: bool) returns (after: seq<Ranked>)
    requires IsRanking(ranked, byCount) && forall q :: q in ranked ==> q.key != r.key
    ensures IsRanking(after, byCount) && multiset(after) == multiset(ranked) + multiset{r}
  {
    hide RanksBefore, IsRanking;
    var at := 0;
    while at < |ranked| && !RanksBefore(r, ranked[at], byCount)
      invariant at <= |ranked| && forall j :: 0 <= j < at ==> RanksBefore(ranked[j], r, byCount)
    {
      DistinctRank(ranked[at], r, byCount);
      at := at + 1;
    }
    after := ranked[..at] + [r] + ranked[at..];
    assert ranked == ranked[..at] + ranked[at..];
    RankedInPlace(ranked, r, at, byCount);
  }

  lemma RankedInPlace(ranked: seq<Ranked>, r: Ranked, at: nat, byCount: bool)
    requires IsRanking(ranked, byCount) && at <= |ranked|
    requires forall j :: 0 <= j < at ==> RanksBefore(ranked[j], r, byCount)
    requires at < |ranked| ==> RanksBefore(r, ranked[at], byCount)
    ensures IsRanking(ranked[..at] + [r] + ranked[at..], byCount)
  {
    hide RanksBefore;
    var after := ranked[..at] + [r] + ranked[at..];
    forall j | at < j < |ranked|
      ensures RanksBefore(r, ranked[j], byCount)
    {
      RanksBeforeIsTransitive(r, ranked[at], ranked[j], byCount);
    }
    assert forall k :: 0 <= k < at ==> after[k] == ranked[k];
    assert forall k :: at < k < |after| ==> after[k] == ranked[k - 1];
  }

  lemma DistinctRank(a: Ranked, b: Ranked, byCount: bool)
    requires a.key != b.key
    ensures RanksBefore(a, b, byCount) || RanksBefore(b, a, byCount)
  {
    KeyLessIsTotal(a.key, b.key);
  }

  /** The counted groups in their order: exactly those that occur, each once with its count, and no row
      with a group lost or counted twice. */
  method RankGroups(rows: seq<Row>, keyOf: Row -> Option<Key>, byCount: bool) returns (ranked: seq<Ranked>)
    ensures IsRanking(ranked, byCount) && OncePerKey(ranked)
    ensures forall key: Key :: CountKey(rows, keyOf, key) > 0 <==> exists r :: r in ranked && r.key == key
    ensures forall r :: r in ranked ==> r.n == CountKey(rows, keyOf, r.key)
    ensures SumCounts(ranked) == CountAny(rows, keyOf)
  {
    var counts := CountGroups(rows, keyOf);
    hide CountKey, IsRanking, OncePerKey, SumCounts, CountAny;
    ranked := [];
    NothingRanked(byCount);
    var left := counts.Keys;
    while left != {}
      invariant left <= counts.Keys && IsRanking(ranked, byCount)
      invariant forall r :: r in ranked ==> r.key in counts && r.key !in left && r.n == counts[r.key]
      invariant forall key :: key in counts && key !in left ==> Ranked(key, counts[key]) in ranked
      decreases |left|
    {
      var key :| key in left;
      ghost var before := ranked;
      ranked := PutRanked(ranked, Ranked(key, counts[key]), byCount);
      left := left - {key};
      forall r
        ensures r in ranked <==> r in before || r == Ranked(key, counts[key])
      {
        assert r in ranked <==> r in multiset(ranked);
        assert r in before <==> r in multiset(before);
      }
    }
    forall key: Key
      ensures CountKey(rows, keyOf, key) > 0 <==> exists r :: r in ranked && r.key == key
    {
      if key in counts {
        assert Ranked(key, counts[key]) in ranked;
      }
    }
    RankingIsOnce(ranked, byCount);
    RankingConserves(ranked, rows, keyOf);
  }

  lemma RankingOrder(ranked: seq<Ranked>, byCount: bool)
    requires IsRanking(ranked, byCount)
    ensures forall i, j :: 0 <= i < j < |ranked| ==>
              var a, b := ranked[i], ranked[j];
              if byCount && a.n != b.n then a.n > b.n
              else ComesBefore(a.key.0, b.key.0) || (a.key.0 == b.key.0 && ComesBefore(a.key.1, b.key.1))
  {
    hide ComesBefore, Less;
    forall i, j | 0 <= i < j < |ranked|
      ensures var a, b := ranked[i], ranked[j];
              if byCount && a.n != b.n then a.n > b.n
              else ComesBefore(a.key.0, b.key.0) || (a.key.0 == b.key.0 && ComesBefore(a.key.1, b.key.1))
    {
      LessIff(ranked[i].key.0, ranked[j].key.0);
      LessIff(ranked[i].key.1, ranked[j].key.1);
    }
  }

  lemma {:induction false} GroupOccurs(rows: seq<Row>, keyOf: Row -> Option<Key>, key: Key)
    requires CountKey(rows, keyOf, key) > 0
    ensures exists row :: row in rows && keyOf(row) == Some(key)
  {
    var n := |rows| - 1;
    if keyOf(rows[n]) != Some(key) {
      GroupOccurs(rows[..n], keyOf, key);
    }
  }

  /** `by_state_source`: the counts by state and source, in that order; every row in some state counts. */
  method ByStateSource(rows: seq<Row>) returns (listed: seq<Ranked>)
    ensures forall i, j :: 0 <= i < j < |listed| ==>
              var a, b := listed[i].key, listed[j].key;
              ComesBefore(a.0, b.0) || (a.0 == b.0 && ComesBefore(a.1, b.1))
    ensures forall r :: r in listed ==> r.n == CountKey(rows, StateSource, r.key) > 0
    ensures SumCounts(listed) == CountAny(rows, StateSource)
  {
    hide IsRanking, OncePerKey, CountKey, CountAny, SumCounts;
    listed := RankGroups(rows, StateSource, false);
    RankingOrder(listed, false);
  }

  /** `remaining_by_project`: queued rows by project, most first; every queued row counts. */
  method RemainingByProject(rows: seq<Row>) returns (ranked: seq<Ranked>)
    ensures forall i, j :: 0 <= i < j < |ranked| ==>
              ranked[i].n > ranked[j].n
              || (ranked[i].n == ranked[j].n && ComesBefore(ranked[i].key.1, ranked[j].key.1))
    ensures forall r :: r in ranked ==> r.n == CountKey(rows, QueuedProject, r.key) > 0
    ensures SumCounts(ranked) == CountAny(rows, QueuedProject)
  {
    hide IsRanking, OncePerKey, CountKey, CountAny, SumCounts;
    ranked := RankGroups(rows, QueuedProject, true);
    RankingOrder(ranked, true);
    forall r | r in ranked
      ensures r.key.0 == ""
    {
      GroupOccurs(rows, QueuedProject, r.key);
    }
  }

  lemma NothingRanked(byCount: bool)
    ensures IsRanking([], byCount)
  {
  }

  function SumCounts(ranked: seq<Ranked>): nat {
    if ranked == [] then 0 else ranked[0].n + SumCounts(ranked[1..])
  }

  predicate OncePerKey(ranked: seq<Ranked>) {
    forall i, j :: 0 <= i < j < |ranked| ==> ranked[i].key != ranked[j].key
  }

  lemma RankingIsOnce(ranked: seq<Ranked>, byCount: bool)
    requires IsRanking(ranked, byCount)
    requires forall a, b :: a in ranked && b in ranked && a.key == b.key ==> a == b
    ensures OncePerKey(ranked)
  {
    forall i, j | 0 <= i < j < |ranked|
      ensures ranked[i].key != ranked[j].key
    {
      KeyLessIsTotal(ranked[i].key, ranked[i].key);
      assert ranked[i] in ranked && ranked[j] in ranked;
    }
  }

  lemma {:induction false} SumIsLinear(ranked: seq<Ranked>, less: seq<Ranked>, key: Option<Key>)
    requires |ranked| == |less| && OncePerKey(ranked)
    requires forall i :: 0 <= i < |ranked| ==>
               ranked[i].key == less[i].key
               && ranked[i].n == less[i].n + (if key == Some(ranked[i].key) then 1 else 0)
    ensures SumCounts(ranked) == SumCounts(less) + (if key.Some? && HasGroup(ranked, key.value) then 1 else 0)
  {
    if ranked != [] {
      SumIsLinear(ranked[1..], less[1..], key);
      assert ranked[0] in ranked && forall r :: r in ranked[1..] ==> r in ranked;
      assert forall r :: r in ranked ==> r == ranked[0] || r in ranked[1..];
      if key == Some(ranked[0].key) {
        forall r | r in ranked[1..]
          ensures r.key != ranked[0].key
        {
          var i :| 0 <= i < |ranked[1..]| && ranked[1..][i] == r;
          assert ranked[i + 1] == r;
        }
      }
    }
  }

  function Recounted(ranked: seq<Ranked>, rows: seq<Row>, keyOf: Row -> Option<Key>): (r: seq<Ranked>)
    ensures |r| == |ranked|
    ensures forall i :: 0 <= i < |r| ==> r[i] == Ranked(ranked[i].key, CountKey(rows, keyOf, ranked[i].key))
  {
    if ranked == [] then []
    else [Ranked(ranked[0].key, CountKey(rows, keyOf, ranked[0].key))] + Recounted(ranked[1..], rows, keyOf)
  }

  lemma RecountedKeys(ranked: seq<Ranked>, rows: seq<Row>, keyOf: Row -> Option<Key>)
    requires OncePerKey(ranked)
    ensures OncePerKey(Recounted(ranked, rows, keyOf))
    ensures forall key :: HasGroup(Recounted(ranked, rows, keyOf), key) <==> HasGroup(ranked, key)
  {
    hide CountKey;
    var now := Recounted(ranked, rows, keyOf);
    forall key
      ensures HasGroup(now, key) <==> HasGroup(ranked, key)
    {
      if i :| 0 <= i < |ranked| && ranked[i].key == key {
        assert now[i] in now && now[i].key == key && ranked[i] in ranked;
      }
      if r :| r in now && r.key == key {
        var i :| 0 <= i < |now| && now[i] == r;
        assert ranked[i] in ranked;
      }
    }
  }

  predicate HasGroup(ranked: seq<Ranked>, key: Key) {
    exists r :: r in ranked && r.key == key
  }

  /** No row is lost or counted twice: the groups' counts add up to the rows that have a group. */
  lemma {:induction false} GroupsConserve(ranked: seq<Ranked>, rows: seq<Row>, keyOf: Row -> Option<Key>)
    requires OncePerKey(ranked)
    requires forall i :: 0 <= i < |rows| && keyOf(rows[i]).Some? ==> HasGroup(ranked, keyOf(rows[i]).value)
    ensures SumCounts(Recounted(ranked, rows, keyOf)) == CountAny(rows, keyOf)
    decreases |rows|
  {
    hide OncePerKey, HasGroup, SumCounts;
    var now := Recounted(ranked, rows, keyOf);
    if rows == [] {
      AllZero(now);
    } else {
      var n := |rows| - 1;
      var init := rows[..n];
      var before := Recounted(ranked, init, keyOf);
      GroupsConserve(ranked, init, keyOf);
      RecountedKeys(ranked, rows, keyOf);
      forall i | 0 <= i < |ranked|
        ensures now[i].key == before[i].key && now[i].n == before[i].n + (if keyOf(rows[n]) == Some(now[i].key) then 1 else 0)
      {
      }
      SumIsLinear(now, before, keyOf(rows[n]));
    }
  }

  lemma {:induction false} AllZero(ranked: seq<Ranked>)
    requires forall i :: 0 <= i < |ranked| ==> ranked[i].n == 0
    ensures SumCounts(ranked) == 0
  {
    if ranked != [] {
      AllZero(ranked[1..]);
    }
  }

  lemma {:induction false} RecountedIsSame(ranked: seq<Ranked>, rows: seq<Row>, keyOf: Row -> Option<Key>)
    requires forall r :: r in ranked ==> r.n == CountKey(rows, keyOf, r.key)
    ensures Recounted(ranked, rows, keyOf) == ranked
  {
    if ranked != [] {
      assert ranked[0] in ranked && forall r :: r in ranked[1..] ==> r in ranked;
      RecountedIsSame(ranked[1..], rows, keyOf);
    }
  }

  lemma {:induction false} OccursInCount(rows: seq<Row>, keyOf: Row -> Option<Key>, i: nat)
    requires i < |rows| && keyOf(rows[i]).Some?
    ensures CountKey(rows, keyOf, keyOf(rows[i]).value) > 0
    decreases |rows|
  {
    if i < |rows| - 1 {
      OccursInCount(rows[..|rows| - 1], keyOf, i);
    }
  }

  /** What the ranking says adds up to the rows that have a group. */
  lemma RankingConserves(ranked: seq<Ranked>, rows: seq<Row>, keyOf: Row -> Option<Key>)
    requires OncePerKey(ranked)
    requires forall key: Key :: CountKey(rows, keyOf, key) > 0 <==> exists r :: r in ranked && r.key == key
    requires forall r :: r in ranked ==> r.n == CountKey(rows, keyOf, r.key)
    ensures SumCounts(ranked) == CountAny(rows, keyOf)
  {
    hide OncePerKey, CountKey, SumCounts, CountAny;
    forall i | 0 <= i < |rows| && keyOf(rows[i]).Some?
      ensures HasGroup(ranked, keyOf(rows[i]).value)
    {
      OccursInCount(rows, keyOf, i);
    }
    GroupsConserve(ranked, rows, keyOf);
    RecountedIsSame(ranked, rows, keyOf);
  }
}
