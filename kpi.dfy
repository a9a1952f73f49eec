/**
 * The KPI card: the selected indicator's value in the first row of
 * `filtered_df`, or the "No data available" warning when no row is selected.
 */
module Kpi {
  import opened Wrappers
  import opened Frame
  import opened Filter
  import opened Indicators

  /**
   * The value the KPI card shows: `None` stands for the warning branch.
   * The indicator's cell is read from the view's first row, as
   * `filtered_df[indicator].values[0]` does.
   */
  function IndicatorValue(view: Table, indicator: string): (v: Option<Value>)
    requires view != [] ==> indicator in view[0].values
    ensures v.None? <==> view == []
    ensures v.Some? ==> v.value == view[0].values[indicator]
  {
    if view == [] then None else Some(view[0].values[indicator])
  }

  /** The position of the first row of `df` that passes the mask, if any. */
  function FirstMatch(df: Table, tests: seq<Test>): (k: Option<nat>)
    ensures k.Some? ==> k.value < |df| && Holds(df[k.value], tests)
    ensures k.Some? ==> forall j :: 0 <= j < k.value ==> !Holds(df[j], tests)
    ensures k.None? ==> forall j :: 0 <= j < |df| ==> !Holds(df[j], tests)
  {
    if df == [] then None
    else if Holds(df[0], tests) then Some(0)
    else match FirstMatch(df[1..], tests)
      case None => None
      case Some(k) => Some(k + 1)
  }

  /** `df[mask]` is empty exactly when no row passes, and otherwise starts with the first row that does. */
  lemma {:induction false} WhereHead(df: Table, tests: seq<Test>)
    ensures Where(df, tests) == [] <==> FirstMatch(df, tests).None?
    ensures FirstMatch(df, tests).Some? ==> Where(df, tests)[0] == df[FirstMatch(df, tests).value]
  {
    if df != [] && !Holds(df[0], tests) {
      WhereHead(df[1..], tests);
    }
  }

  /**
   * The KPI card shows the indicator's value in the first row of the whole
   * table that matches the state, survey and area; it shows the warning
   * exactly when no row matches.
   */
  lemma KpiIsFirstMatchingRow(df: Table, state: string, survey: string, area: string, indicator: string)
    requires HasColumn(df, indicator)
    ensures FilteredDf(df, state, survey, area) != [] ==> FilteredDf(df, state, survey, area)[0] in df
    ensures IndicatorValue(FilteredDf(df, state, survey, area), indicator) ==
              match FirstMatch(df, Selection(state, survey, area))
              case None => None
              case Some(i) => Some(df[i].values[indicator])
  {
    WhereHead(df, Selection(state, survey, area));
  }

  /** The KPI card never shows a non-number: the indicator is an int or float column of a well-typed table. */
  lemma KpiIsNumber(schema: seq<Column>, df: Table, state: string, survey: string, area: string, indicator: string)
    requires WellTyped(schema, df)
    requires indicator in IndicatorOptions(schema)
    ensures HasColumn(df, indicator)
    ensures FilteredDf(df, state, survey, area) != [] ==> FilteredDf(df, state, survey, area)[0] in df
    ensures IndicatorValue(FilteredDf(df, state, survey, area), indicator).Some? ==>
              IsNumber(IndicatorValue(FilteredDf(df, state, survey, area), indicator).value)
  {
    var c :| c in schema && c.name == indicator && IsNumeric(c.dtype);
    KpiIsFirstMatchingRow(df, state, survey, area, indicator);
  }
}
