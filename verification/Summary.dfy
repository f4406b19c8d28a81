/** The structured session summary and the validation that every summary passes before it is
    written or believed. */
module Summary {
  import opened Wrappers
  import opened Text

  const TITLE_LIMIT := 200
  const GOAL_LIMIT := 4_000
  const ITEM_LIMIT := 4_000
  const TAG_LIMIT := 100
  const LIST_LIMIT := 200

  const PLACEHOLDER_SUMMARY_TAG := "munshi-placeholder-summary"

  datatype StructuredSummary = StructuredSummary(
    title: string,
    goal: string,
    workCompleted: seq<string>,
    decisions: seq<string>,
    filesChanged: seq<string>,
    commandsAndValidation: seq<string>,
    openItems: seq<string>,
    tags: seq<string>)
  {
    predicate IsPlaceholder() {
      PLACEHOLDER_SUMMARY_TAG in tags
    }
  }

  datatype ValidationError = InvalidText | InvalidListLength | MissingListItems

  /** `str::replace("\r\n", "\n")`. */
  function ReplaceCrLf(s: string): string {
    if |s| >= 2 && s[0] == '\r' && s[1] == '\n' then "\n" + ReplaceCrLf(s[2..])
    else if s == [] then ""
    else [s[0]] + ReplaceCrLf(s[1..])
  }

  /** `str::replace('\r', "\n")`. */
  function ReplaceCr(s: string): string {
    if s == [] then "" else [if s[0] == '\r' then '\n' else s[0]] + ReplaceCr(s[1..])
  }

  predicate HasValidControls(s: string) {
    forall c :: c in s && IsControl(c) ==> c == '\n' || c == '\t'
  }

  predicate AcceptableText(s: string, max: nat, singleLine: bool) {
    && 0 < |s| <= max
    && HasValidControls(s)
    && (singleLine ==> '\n' !in s)
    && (!singleLine ==> !Contains(s, "\n## "))
  }

  function ValidateText(value: string, max: nat, singleLine: bool): Result<string, ValidationError> {
    var text := ReplaceCr(ReplaceCrLf(Trim(value)));
    if AcceptableText(text, max, singleLine) then Success(text) else Failure(InvalidText)
  }

  function ValidateItems(values: seq<string>, max: nat): Result<seq<string>, ValidationError> {
    if values == [] then Success([])
    else
      var first :- ValidateText(values[0], max, true);
      var rest :- ValidateItems(values[1..], max);
      Success([first] + rest)
  }

  function ValidateList(values: seq<string>, max: nat): Result<seq<string>, ValidationError> {
    if |values| > LIST_LIMIT then Failure(InvalidListLength) else ValidateItems(values, max)
  }

  function ValidateSummary(s: StructuredSummary): Result<StructuredSummary, ValidationError> {
    var title :- ValidateText(s.title, TITLE_LIMIT, true);
    var goal :- ValidateText(s.goal, GOAL_LIMIT, false);
    var work :- ValidateList(s.workCompleted, ITEM_LIMIT);
    if work == [] then Failure(MissingListItems)
    else
      var decisions :- ValidateList(s.decisions, ITEM_LIMIT);
      var files :- ValidateList(s.filesChanged, ITEM_LIMIT);
      var commands :- ValidateList(s.commandsAndValidation, ITEM_LIMIT);
      var items :- ValidateList(s.openItems, ITEM_LIMIT);
      var tags :- ValidateList(s.tags, TAG_LIMIT);
      Success(StructuredSummary(title, goal, work, decisions, files, commands, items, tags))
  }

  // ----- what a validated text looks like

  /** The normal form that validation produces: nothing is left to trim or to fold. */
  predicate NormalText(s: string, max: nat, singleLine: bool) {
    AcceptableText(s, max, singleLine) && Trimmed(s) && '\r' !in s
  }

  predicate NormalList(values: seq<string>, max: nat) {
    |values| <= LIST_LIMIT && forall v :: v in values ==> NormalText(v, max, true)
  }

  predicate NormalSummary(s: StructuredSummary) {
    && NormalText(s.title, TITLE_LIMIT, true)
    && NormalText(s.goal, GOAL_LIMIT, false)
    && NormalList(s.workCompleted, ITEM_LIMIT) && s.workCompleted != []
    && NormalList(s.decisions, ITEM_LIMIT)
    && NormalList(s.filesChanged, ITEM_LIMIT)
    && NormalList(s.commandsAndValidation, ITEM_LIMIT)
    && NormalList(s.openItems, ITEM_LIMIT)
    && NormalList(s.tags, TAG_LIMIT)
  }

  lemma {:induction false} ReplaceCrLfEnds(s: string)
    requires s != []
    ensures ReplaceCrLf(s) != []
    ensures s[0] != '\r' ==> ReplaceCrLf(s)[0] == s[0]
    ensures s[|s| - 1] != '\n' ==> ReplaceCrLf(s)[|ReplaceCrLf(s)| - 1] == s[|s| - 1]
  {
    if |s| >= 2 && s[0] == '\r' && s[1] == '\n' {
      if |s| > 2 {
        ReplaceCrLfEnds(s[2..]);
      }
    } else if |s| > 1 {
      ReplaceCrLfEnds(s[1..]);
    }
  }

  lemma {:induction false} ReplaceCrLfFixed(s: string)
    requires '\r' !in s
    ensures ReplaceCrLf(s) == s
  {
    if s != [] {
      ReplaceCrLfFixed(s[1..]);
      assert [s[0]] + s[1..] == s;
    }
  }

  lemma {:induction false} ReplaceCrMaps(s: string)
    ensures |ReplaceCr(s)| == |s|
    ensures forall i :: 0 <= i < |s| ==> ReplaceCr(s)[i] == if s[i] == '\r' then '\n' else s[i]
    ensures '\r' !in ReplaceCr(s)
    ensures '\r' !in s ==> ReplaceCr(s) == s
  {
    if s != [] {
      ReplaceCrMaps(s[1..]);
      assert [s[0]] + s[1..] == s;
    }
  }

  /** Validation yields normal text, and normal text is what validation leaves alone. */
  lemma ValidatedTextIsNormal(value: string, max: nat, singleLine: bool)
    ensures ValidateText(value, max, singleLine).Success? ==>
              NormalText(ValidateText(value, max, singleLine).value, max, singleLine)
    ensures NormalText(value, max, singleLine) ==>
              ValidateText(value, max, singleLine) == Success(value)
  {
    TrimTrims(value);
    var trimmed := Trim(value);
    if trimmed != [] {
      ReplaceCrLfEnds(trimmed);
    }
    ReplaceCrMaps(ReplaceCrLf(trimmed));
    if NormalText(value, max, singleLine) {
      TrimmedIsFixed(value);
      ReplaceCrLfFixed(value);
      ReplaceCrMaps(value);
    }
  }

  lemma {:induction false} ValidatedItemsAreNormal(values: seq<string>, max: nat)
    ensures ValidateItems(values, max).Success? ==>
              var items := ValidateItems(values, max).value;
              |items| == |values| && forall v :: v in items ==> NormalText(v, max, true)
    ensures (forall v :: v in values ==> NormalText(v, max, true)) ==>
              ValidateItems(values, max) == Success(values)
  {
    if values != [] {
      ValidatedTextIsNormal(values[0], max, true);
      ValidatedItemsAreNormal(values[1..], max);
      assert [values[0]] + values[1..] == values;
    }
  }

  lemma ValidatedListIsNormal(values: seq<string>, max: nat)
    ensures ValidateList(values, max).Success? ==> NormalList(ValidateList(values, max).value, max)
    ensures NormalList(values, max) ==> ValidateList(values, max) == Success(values)
  {
    ValidatedItemsAreNormal(values, max);
  }

  /** Validation is idempotent: its results are exactly the summaries it returns unchanged. */
  lemma ValidatedSummaryIsNormal(s: StructuredSummary)
    ensures ValidateSummary(s).Success? ==> NormalSummary(ValidateSummary(s).value)
    ensures NormalSummary(s) <==> ValidateSummary(s) == Success(s)
  {
    ValidatedTextIsNormal(s.title, TITLE_LIMIT, true);
    ValidatedTextIsNormal(s.goal, GOAL_LIMIT, false);
    ValidatedListIsNormal(s.workCompleted, ITEM_LIMIT);
    ValidatedListIsNormal(s.decisions, ITEM_LIMIT);
    ValidatedListIsNormal(s.filesChanged, ITEM_LIMIT);
    ValidatedListIsNormal(s.commandsAndValidation, ITEM_LIMIT);
    ValidatedListIsNormal(s.openItems, ITEM_LIMIT);
    ValidatedListIsNormal(s.tags, TAG_LIMIT);
  }
}
