/**
 * The dashboard's views on small concrete tables: a selection whose three
 * choices each come from the option lists and still selects no row, and a
 * three-row table run through every view.
 */
module Dashboard {
  import opened Wrappers
  import opened Frame
  import opened Filter
  import opened Selectors
  import opened Kpi

  /**
   * The option lists are built per column, so a state, a survey and an area
   * picked from them can match no row together; the KPI card then takes the
   * warning branch.
   */
  lemma EmptySelectionReachable()
    ensures exists df: Table, state, survey, area ::
              && state in Options(df, State)
              && survey in Options(df, Survey)
              && area in Options(df, Area)
              && FilteredDf(df, state, survey, area) == []
              && IndicatorValue(FilteredDf(df, state, survey, area), "Ind1") == None
  {
    var a := Record("A", "R1", "Urban", map["Ind1" := FloatValue(10.2)]);
    var b := Record("B", "R2", "Urban", map["Ind1" := FloatValue(9.1)]);
    var df := [a, b];
    assert Get(df[0], State) == "A";
    assert Get(df[1], Survey) == "R2";
    assert Get(df[0], Area) == "Urban";
    assert FilteredDf(df, "A", "R2", "Urban") == [];
  }

  /** A three-row table: two surveys of state A and one of state B, all urban. */
  const RowA1 := Record("A", "R1", "Urban", map["Ind1" := FloatValue(10.2)])
  const RowA2 := Record("A", "R2", "Urban", map["Ind1" := FloatValue(12.7)])
  const RowB1 := Record("B", "R1", "Urban", map["Ind1" := FloatValue(9.1)])
  const Example: Table := [RowA1, RowA2, RowB1]

  lemma ExampleTails()
    ensures Example[1..] == [RowA2, RowB1]
    ensures Example[1..][1..] == [RowB1]
    ensures Example[1..][1..][1..] == []
  {
  }

  /** The full selection picks the one matching row, and the KPI card shows its value. */
  lemma ExampleFullSelection()
    ensures FilteredDf(Example, "A", "R1", "Urban") == [RowA1]
    ensures IndicatorValue(FilteredDf(Example, "A", "R1", "Urban"), "Ind1") == Some(FloatValue(10.2))
    ensures FilteredDf(Example, "Z", "R1", "Urban") == []
    ensures IndicatorValue(FilteredDf(Example, "Z", "R1", "Urban"), "Ind1") == None
  {
    ExampleTails();
    var t := Selection("A", "R1", "Urban");
    HoldsSelection(RowA1, "A", "R1", "Urban");
    HoldsSelection(RowA2, "A", "R1", "Urban");
    HoldsSelection(RowB1, "A", "R1", "Urban");
    assert Where(Example, t) == [RowA1] + Where([RowA2, RowB1], t);
    var z := Selection("Z", "R1", "Urban");
    HoldsSelection(RowA1, "Z", "R1", "Urban");
    HoldsSelection(RowA2, "Z", "R1", "Urban");
    HoldsSelection(RowB1, "Z", "R1", "Urban");
    assert Where(Example, z) == Where([RowA2, RowB1], z);
  }

  /** The comparison keeps both R1 rows, in table order. */
  lemma ExampleComparison()
    ensures ComparisonDf(Example, "R1", "Urban") == [RowA1, RowB1]
  {
    ExampleTails();
    var c := [Eq(Survey, "R1"), Eq(Area, "Urban")];
    HoldsPair(RowA1, Survey, "R1", Area, "Urban");
    HoldsPair(RowA2, Survey, "R1", Area, "Urban");
    HoldsPair(RowB1, Survey, "R1", Area, "Urban");
    assert Where([RowB1], c) == [RowB1] + Where([], c);
    assert Where([RowA2, RowB1], c) == Where([RowB1], c);
    assert Where(Example, c) == [RowA1] + Where([RowA2, RowB1], c);
  }

  /** The trend keeps both rows of state A, in survey order as the table lists them. */
  lemma ExampleTrend()
    ensures TrendDf(Example, "A", "Urban") == [RowA1, RowA2]
  {
    ExampleTails();
    var t := [Eq(State, "A"), Eq(Area, "Urban")];
    HoldsPair(RowA1, State, "A", Area, "Urban");
    HoldsPair(RowA2, State, "A", Area, "Urban");
    HoldsPair(RowB1, State, "A", Area, "Urban");
    assert Where([RowB1], t) == [];
    assert Where([RowA2, RowB1], t) == [RowA2] + Where([RowB1], t);
    assert Where(Example, t) == [RowA1] + Where([RowA2, RowB1], t);
  }
}
