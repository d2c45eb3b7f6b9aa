/**
 * The filter panel (`components/StartupFilters.tsx`): when it counts the
 * filters as active, how it labels stage options, which chips it shows,
 * and the store patches its inputs send.
 */
module FilterPanel {
  import opened Wrappers
  import opened Types
  import opened CatalogStore

  /** A value of the filters object as `Object.values` lists it. */
  datatype FilterValue = Text(s: string) | Num(n: int)

  /** JavaScript truthiness of a filter value. */
  predicate IsTruthy(v: FilterValue)
  {
    match v
    case Text(s) => s != ""
    case Num(n) => n != 0
  }

  /** The callback given to `some`: truthy, not empty and not the number 1. */
  predicate Counts(v: FilterValue)
  {
    IsTruthy(v) && v != Text("") && v != Num(1)
  }

  /** The value of one optional text key, as `Object.values` lists it. */
  function TextPart(v: Option<string>): seq<FilterValue>
  {
    if v.Some? then [Text(v.value)] else []
  }

  /** The values of the keys the filters object holds, in key order. */
  function Values(f: StartupFilters): (vs: seq<FilterValue>)
    ensures |vs| <= 6
  {
    TextPart(f.q) + TextPart(f.industry) + TextPart(f.location) + TextPart(f.stage)
    + (if f.page.Some? then [Num(f.page.value)] else [])
    + TextPart(f.ordering)
  }

  /** Whether some value passes the `some` callback. */
  predicate AnyCounts(vs: seq<FilterValue>)
  {
    exists k :: 0 <= k < |vs| && Counts(vs[k])
  }

  /** `Object.values(filters).some(...)` */
  predicate HasActiveFilters(f: StartupFilters)
  {
    AnyCounts(Values(f))
  }

  lemma AnyCountsAppend(a: seq<FilterValue>, b: seq<FilterValue>)
    ensures AnyCounts(a + b) <==> AnyCounts(a) || AnyCounts(b)
  {
    if AnyCounts(b) {
      var k :| 0 <= k < |b| && Counts(b[k]);
      assert (a + b)[|a| + k] == b[k];
    }
    if AnyCounts(a) {
      var k :| 0 <= k < |a| && Counts(a[k]);
      assert (a + b)[k] == a[k];
    }
    if AnyCounts(a + b) {
      var k :| 0 <= k < |a + b| && Counts((a + b)[k]);
      if k >= |a| { assert (a + b)[k] == b[k - |a|]; } else { assert (a + b)[k] == a[k]; }
    }
  }

  lemma AnyCountsText(v: Option<string>)
    ensures AnyCounts(TextPart(v)) <==> Truthy(v)
  {
    if Truthy(v) { assert TextPart(v)[0] == Text(v.value); }
  }

  /** Active exactly when a text filter is non-empty or the page is neither absent, 0 nor 1. */
  lemma ActiveIff(f: StartupFilters)
    ensures HasActiveFilters(f) <==>
      Truthy(f.q) || Truthy(f.industry) || Truthy(f.location) || Truthy(f.stage) || Truthy(f.ordering)
      || (f.page.Some? && f.page.value != 0 && f.page.value != 1)
  {
    var one := TextPart(f.q);
    var two := one + TextPart(f.industry);
    var three := two + TextPart(f.location);
    var four := three + TextPart(f.stage);
    var pagePart := if f.page.Some? then [Num(f.page.value)] else [];
    var five := four + pagePart;
    assert Values(f) == five + TextPart(f.ordering);
    AnyCountsAppend(five, TextPart(f.ordering));
    AnyCountsAppend(four, pagePart);
    AnyCountsAppend(three, TextPart(f.stage));
    AnyCountsAppend(two, TextPart(f.location));
    AnyCountsAppend(one, TextPart(f.industry));
    AnyCountsText(f.q);
    AnyCountsText(f.industry);
    AnyCountsText(f.location);
    AnyCountsText(f.stage);
    AnyCountsText(f.ordering);
    if f.page.Some? && f.page.value != 0 && f.page.value != 1 { assert pagePart[0] == Num(f.page.value); }
  }

  /** Page 1 alone never counts as a filter; page 2 alone does. */
  lemma PageOneIsNotAFilter()
    ensures !HasActiveFilters(NoFilters.(page := Some(1)))
    ensures HasActiveFilters(NoFilters.(page := Some(2)))
  {
    ActiveIff(NoFilters.(page := Some(1)));
    ActiveIff(NoFilters.(page := Some(2)));
  }

  /** The initial filters already count as active, through their default ordering, and so do cleared ones. */
  lemma InitialFiltersActive(f: StartupFilters)
    ensures HasActiveFilters(InitialFilters)
    ensures HasActiveFilters(Apply(f, ClearFilters))
  {
    ActiveIff(InitialFilters);
  }

  /** ASCII upper case of one character; other characters are kept. */
  function UpperChar(c: char): char
  {
    if 'a' <= c <= 'z' then (c as int - 32) as char else c
  }

  /** `toUpperCase()`, on ASCII letters. */
  function Upper(s: string): (r: string)
    ensures |r| == |s| && forall k :: 0 <= k < |s| ==> r[k] == UpperChar(s[k])
  {
    seq(|s|, k requires 0 <= k < |s| => UpperChar(s[k]))
  }

  /** Where the first `'_'` is, if anywhere. */
  function FirstUnderscore(s: string): (r: Option<nat>)
    ensures r.None? <==> '_' !in s
    ensures r.Some? ==> r.value < |s| && s[r.value] == '_' && '_' !in s[..r.value]
  {
    if s == [] then None
    else if s[0] == '_' then Some(0)
    else
      var rest := FirstUnderscore(s[1..]);
      if rest.Some? then
        assert s[..rest.value + 1] == [s[0]] + s[1..][..rest.value];
        Some(rest.value + 1)
      else None
  }

  /** `stage.replace('_', ' ')`: only the first underscore becomes a space. */
  function ReplaceFirstUnderscore(s: string): (r: string)
    ensures |r| == |s|
    ensures FirstUnderscore(s).None? ==> r == s
    ensures FirstUnderscore(s).Some? ==>
      forall k :: 0 <= k < |s| ==> r[k] == if k == FirstUnderscore(s).value then ' ' else s[k]
  {
    match FirstUnderscore(s)
    case None => s
    case Some(i) => s[..i] + " " + s[i + 1..]
  }

  /** The label of a stage option and of the stage chip. */
  function StageLabel(stage: string): (caption: string)
    ensures |caption| == |stage|
  {
    Upper(ReplaceFirstUnderscore(stage))
  }

  /** A value without an underscore is only upper-cased. */
  lemma PlainLabel(stage: string)
    requires '_' !in stage
    ensures StageLabel(stage) == Upper(stage)
  {
  }

  /** `series_x` reads `SERIES X`. */
  lemma SeriesLabel(round: char)
    requires 'a' <= round <= 'z'
    ensures StageLabel("series_" + [round]) == "SERIES " + [UpperChar(round)]
  {
    var s := "series_" + [round];
    assert s[6] == '_' && forall k :: 0 <= k < 6 ==> s[k] != '_';
    assert FirstUnderscore(s) == Some(6);
    assert ReplaceFirstUnderscore(s) == "series " + [round];
  }

  /** Upper-casing that agrees character by character. */
  lemma UpperIs(s: string, t: string)
    requires |s| == |t| && forall k :: 0 <= k < |s| ==> UpperChar(s[k]) == t[k]
    ensures Upper(s) == t
  {
  }

  lemma LabelIdea()
    ensures StageLabel("idea") == "IDEA"
  {
    var s, t := "idea", "IDEA";
    PlainLabel(s);
    assert s[0] == 'i' && s[1] == 'd' && s[2] == 'e' && s[3] == 'a';
    assert t[0] == 'I' && t[1] == 'D' && t[2] == 'E' && t[3] == 'A';
    UpperIs(s, t);
  }

  lemma LabelMvp()
    ensures StageLabel("mvp") == "MVP"
  {
    var s, t := "mvp", "MVP";
    PlainLabel(s);
    assert s[0] == 'm' && s[1] == 'v' && s[2] == 'p';
    assert t[0] == 'M' && t[1] == 'V' && t[2] == 'P';
    UpperIs(s, t);
  }

  lemma LabelSeed()
    ensures StageLabel("seed") == "SEED"
  {
    var s, t := "seed", "SEED";
    PlainLabel(s);
    assert s[0] == 's' && s[1] == 'e' && s[2] == 'e' && s[3] == 'd';
    assert t[0] == 'S' && t[1] == 'E' && t[2] == 'E' && t[3] == 'D';
    UpperIs(s, t);
  }

  lemma LabelGrowth()
    ensures StageLabel("growth") == "GROWTH"
  {
    var s, t := "growth", "GROWTH";
    PlainLabel(s);
    assert s[0] == 'g' && s[1] == 'r' && s[2] == 'o' && s[3] == 'w' && s[4] == 't' && s[5] == 'h';
    assert t[0] == 'G' && t[1] == 'R' && t[2] == 'O' && t[3] == 'W' && t[4] == 'T' && t[5] == 'H';
    UpperIs(s, t);
  }

  lemma LabelIpo()
    ensures StageLabel("ipo") == "IPO"
  {
    var s, t := "ipo", "IPO";
    PlainLabel(s);
    assert s[0] == 'i' && s[1] == 'p' && s[2] == 'o';
    assert t[0] == 'I' && t[1] == 'P' && t[2] == 'O';
    UpperIs(s, t);
  }

  /** The labels of the stages without an underscore. */
  lemma PlainStageLabels()
    ensures StageLabel("idea") == "IDEA" && StageLabel("mvp") == "MVP" && StageLabel("seed") == "SEED"
    ensures StageLabel("growth") == "GROWTH" && StageLabel("ipo") == "IPO"
  {
    LabelIdea();
    LabelMvp();
    LabelSeed();
    LabelGrowth();
    LabelIpo();
  }

  /** The label of `series_x` for a round letter. */
  lemma RoundLabel(stage: string, caption: string)
    requires |stage| == 8 && stage[..7] == "series_" && 'a' <= stage[7] <= 'z'
    requires caption == "SERIES " + [UpperChar(stage[7])]
    ensures StageLabel(stage) == caption
  {
    assert stage == "series_" + [stage[7]];
    SeriesLabel(stage[7]);
  }

  lemma LabelSeriesA()
    ensures StageLabel("series_a") == "SERIES A"
  {
    var s, t := "series_a", "SERIES A";
    assert s[..7] == "series_" && s[7] == 'a' && UpperChar('a') == 'A';
    assert t == "SERIES " + ['A'];
    RoundLabel(s, t);
  }

  lemma LabelSeriesB()
    ensures StageLabel("series_b") == "SERIES B"
  {
    var s, t := "series_b", "SERIES B";
    assert s[..7] == "series_" && s[7] == 'b' && UpperChar('b') == 'B';
    assert t == "SERIES " + ['B'];
    RoundLabel(s, t);
  }

  lemma LabelSeriesC()
    ensures StageLabel("series_c") == "SERIES C"
  {
    var s, t := "series_c", "SERIES C";
    assert s[..7] == "series_" && s[7] == 'c' && UpperChar('c') == 'C';
    assert t == "SERIES " + ['C'];
    RoundLabel(s, t);
  }

  /** The labels of the funding rounds. */
  lemma SeriesStageLabels()
    ensures StageLabel("series_a") == "SERIES A" && StageLabel("series_b") == "SERIES B"
    ensures StageLabel("series_c") == "SERIES C"
  {
    LabelSeriesA();
    LabelSeriesB();
    LabelSeriesC();
  }

  /** Only the first underscore turns into a space. */
  lemma LaterUnderscoresKept()
    ensures StageLabel("a_b_c") == "A B_C"
  {
    assert FirstUnderscore("a_b_c") == Some(1);
  }

  datatype SelectOption = SelectOption(value: string, caption: string)

  /** Industry and location options: one per value, in order, labelled by the value. */
  function PlainOptions(values: seq<string>): (opts: seq<SelectOption>)
    ensures |opts| == |values|
    ensures forall k :: 0 <= k < |values| ==> opts[k] == SelectOption(values[k], values[k])
  {
    seq(|values|, k requires 0 <= k < |values| => SelectOption(values[k], values[k]))
  }

  /** Stage options: one per stage, in order, labelled by `StageLabel`. */
  function StageOptions(stages: seq<string>): (opts: seq<SelectOption>)
    ensures |opts| == |stages|
    ensures forall k :: 0 <= k < |stages| ==> opts[k] == SelectOption(stages[k], StageLabel(stages[k]))
  {
    seq(|stages|, k requires 0 <= k < |stages| => SelectOption(stages[k], StageLabel(stages[k])))
  }

  /** The four fields the panel edits and shows chips for. */
  datatype Field = Search | Industry | Location | Stage

  function Get(f: StartupFilters, field: Field): Option<string>
  {
    match field
    case Search => f.q
    case Industry => f.industry
    case Location => f.location
    case Stage => f.stage
  }

  /** A patch that sets one field. */
  function PatchOf(field: Field, value: string): (p: StartupFilters)
    ensures Get(p, field) == Some(value)
    ensures forall other :: other != field ==> Get(p, other) == None
    ensures p.page == None && p.ordering == None
  {
    match field
    case Search => NoFilters.(q := Some(value))
    case Industry => NoFilters.(industry := Some(value))
    case Location => NoFilters.(location := Some(value))
    case Stage => NoFilters.(stage := Some(value))
  }

  /** The chips shown, in display order: one per non-empty field. */
  function Chips(f: StartupFilters): (chips: seq<Field>)
    ensures forall field :: field in chips <==> Truthy(Get(f, field))
  {
    (if Truthy(f.q) then [Search] else [])
    + (if Truthy(f.industry) then [Industry] else [])
    + (if Truthy(f.location) then [Location] else [])
    + (if Truthy(f.stage) then [Stage] else [])
  }

  /** A chip implies the filters are active, so the chip row is shown whenever a chip exists. */
  lemma ChipImpliesActive(f: StartupFilters)
    requires Chips(f) != []
    ensures HasActiveFilters(f)
  {
    ActiveIff(f);
  }

  /** What the user does in the panel. */
  datatype PanelEvent = SearchTyped(text: string) | Selected(field: Field, value: string) | ChipRemoved(field: Field)

  /** The patch each event hands to `setFilters`. */
  function EventPatch(e: PanelEvent): StartupFilters
  {
    match e
    case SearchTyped(text) => PatchOf(Search, text)
    case Selected(field, value) => PatchOf(field, value)
    case ChipRemoved(field) => PatchOf(field, "")
  }

  /**
   * Every event goes through `setFilters`: it returns to page 1, sets its
   * own field, and keeps the other fields and the ordering.
   */
  lemma EventsReturnToFirstPage(f: StartupFilters, e: PanelEvent)
    ensures var after := Apply(f, FilterAction.SetFilters(EventPatch(e)));
      && after.page == Some(1)
      && after.ordering == f.ordering
      && (e.SearchTyped? ==> after.q == Some(e.text) && after.industry == f.industry
                               && after.location == f.location && after.stage == f.stage)
      && (e.Selected? ==> Get(after, e.field) == Some(e.value))
      && (!e.SearchTyped? ==> forall other :: other != e.field ==> Get(after, other) == Get(f, other))
  {
  }

  /** Removing a chip hides that chip and no other. */
  lemma ChipRemovalHidesOnlyIt(f: StartupFilters, field: Field)
    ensures var after := Apply(f, FilterAction.SetFilters(EventPatch(ChipRemoved(field))));
      && field !in Chips(after)
      && forall other :: other != field ==> (other in Chips(after) <==> other in Chips(f))
  {
  }
}
