# NFHS dashboard query layer in Dafny

The NFHS dashboard (`app.py`) loads a National Family Health Survey table,
lets the user pick a state/UT, a survey round and an area (urban, rural or
total), and shows four things derived from that choice:

- the value of one health indicator,
- a bar chart comparing states,
- a trend line across surveys,
- the raw rows.

This project models the query layer behind those views as pure functions over
a table. The table is a `seq<Record>`. Each record carries the three
categorical columns ("India/States/UTs", "Survey", "Area") as strings, plus a
map from every other column name to its cell. Each of those columns has a
dtype tag (`Int64`, `Float64` or `Object`).

Modules:

- `Frame` (`frame.dfy`): the data model: records, cells, dtype tags, and a well-typed table.
- `Sequences` (`sequences.dfy`): order-preserving subsequences, repeat-free lists, and the first index of a value.
- `Filter` (`filter.dfy`): boolean-mask filtering. A mask `(df[col] == v) & …` is a list of equality tests, and `df[mask]` is `Where`. The three views are built on it:
  - `filtered_df` is `FilteredDf`, which tests state, survey and area;
  - `comparison_df` is `ComparisonDf`, which tests survey and area;
  - `trend_df` is `TrendDf`, which tests state and area.
- `Selectors` (`selectors.dfy`): `Series.unique()` and the three sidebar option lists.
- `Indicators` (`indicators.dfy`): `select_dtypes(include=["float64", "int64"])` followed by `sorted`, using Python's string order.
- `Kpi` (`kpi.dfy`): the KPI card. It reads the first row's value, or takes the "No data available" branch when no row is selected.
- `Dashboard` (`dashboard.dfy`): two things on concrete tables. A selection built from the option lists that matches no row, and a three-row table run through every view.

Two facts about the code shape the model:

- `unique()` lists values in first-appearance order, and `Unique` keeps and proves that order.
- Numeric columns are picked by pandas dtype, so the dtype tags are given.

## Model

| member | source | states |
|---|---|---|
| Filter.Where | app.py:44-48 | `df[mask]` is no longer than `df`, and every row it keeps passes every equality test of the mask |
| Filter.WhereCounts | app.py:44-48 | a row that passes the mask occurs in `df[mask]` as often as in `df`; any other row does not occur |
| Filter.WhereIsSubsequence | app.py:44-48 | `df[mask]` keeps its rows in their original relative order |
| Filter.WhereIsTheOnly | app.py:44-48 | any order-preserving subsequence of `df` with those row counts is `df[mask]`, so the filter is exactly that subsequence |
| Filter.WhereAppend | app.py:44-48 | filtering a concatenation of tables is the concatenation of the filtered parts |
| Filter.HoldsConcat | app.py:45-47 | joining masks with `&` is the conjunction of their equality tests |
| Filter.WhereCongruent | app.py:44-48 | two masks that agree on every row select the same rows |
| Filter.WhereWhere | app.py:44-48 | filtering an already filtered table is filtering once with both masks joined by `&` |
| Filter.HoldsSelection | app.py:45-47 | the full mask holds exactly when state, survey and area all equal the selection |
| Filter.FilteredDf | app.py:44-48 | `filtered_df` is an ordered subsequence of `df`, no longer than `df`; every row has the selected state, survey and area; every such row of `df` is kept, with its multiplicity |
| Filter.ComparisonDf | app.py:76-79 | `comparison_df` is the ordered subsequence of `df` with the selected survey and area, taking every such row with its multiplicity; it does not depend on the state |
| Filter.TrendDf | app.py:95-98 | `trend_df` is the ordered subsequence of `df` with the selected state and area, taking every such row with its multiplicity; it does not depend on the survey |
| Filter.ComparisonThenState | app.py:76-79 | narrowing `comparison_df` to the selected state gives `filtered_df` |
| Filter.TrendThenSurvey | app.py:95-98 | narrowing `trend_df` to the selected survey gives `filtered_df` |
| Filter.FilteredWithinPartialViews | app.py:44-48 | `filtered_df` is an ordered subsequence of both `comparison_df` and `trend_df` |
| Filter.FilteredIdempotent | app.py:44-48 | applying the full selection again to `filtered_df` returns it unchanged |
| Selectors.Unique | app.py:30 | `unique()` has no repeated value and holds exactly the values of the column |
| Selectors.UniqueFirstAppearance | app.py:30 | `unique()` lists the values in the order of their first appearance in the column |
| Selectors.UniqueIsTheOnly | app.py:30 | a repeat-free list with the same values, in first-appearance order, is `unique()`, so those three properties determine it |
| Selectors.Options | app.py:28-41 | each sidebar option list has no repeats, and holds a value exactly when some row of `df` has it in that column |
| Indicators.NumericColumns | app.py:53 | `numeric_columns` holds a name exactly when the schema has a column of that name tagged int64 or float64; it keeps the schema's column order; with distinct column names, each appears once |
| Indicators.StrLeqAntisymmetric | app.py:57 | Python's string order: two strings that are each `<=` the other are equal |
| Indicators.StrLeqTransitive | app.py:57 | Python's string order is transitive |
| Indicators.StrLeqTotal | app.py:57 | any two strings are comparable in Python's string order |
| Indicators.Insert | app.py:57 | inserting a name into a sorted list keeps it sorted and adds exactly that name |
| Indicators.Sort | app.py:57 | `sorted` returns an ascending permutation of its input |
| Indicators.SortedUnique | app.py:57 | two ascending lists with the same names are equal, so any sort gives `sorted`'s answer |
| Indicators.IndicatorOptions | app.py:53-57 | the indicator options are ascending, are a permutation of `numeric_columns`, and hold exactly the int and float column names |
| Indicators.IndicatorOptionsDistinct | app.py:53-57 | with distinct column names, the indicator drop-down lists no name twice |
| Kpi.IndicatorValue | app.py:65-69 | the KPI is absent exactly when the view is empty; otherwise it is the indicator's cell in the view's first row |
| Kpi.FirstMatch | app.py:65-66 | the first matching row of `df` passes the mask and no earlier row does; with no match, no row passes |
| Kpi.WhereHead | app.py:65-66 | `df[mask]` is empty exactly when no row passes, and otherwise starts with the first row that does |
| Kpi.KpiIsFirstMatchingRow | app.py:65-69 | the KPI card shows the indicator's value from the first row of `df` matching state, survey and area, and the warning exactly when no row matches |
| Kpi.KpiIsNumber | app.py:53-67 | in a well-typed table, an indicator picked from the options always has a cell in every row, and the KPI value is a number (int, float or NaN) |
| Dashboard.EmptySelectionReachable | app.py:28-69 | a state, survey and area each taken from its own option list can select no row, and the KPI then takes the warning branch |
| Dashboard.ExampleFullSelection | app.py:44-69 | on a three-row table, selecting (A, R1, Urban) gives one row with KPI 10.2; selecting state Z gives no row and no KPI |
| Dashboard.ExampleComparison | app.py:76-79 | on the same table, the R1/Urban comparison holds the rows of A and B, in table order |
| Dashboard.ExampleTrend | app.py:95-98 | on the same table, the A/Urban trend holds the R1 and R2 rows of A, in table order |

## Left out

- Loading the table (`pd.read_excel` in `load_data`, memoised by `@st.cache_data`) is file I/O and process-wide caching. The table is a parameter of every function.
- Streamlit page setup and widgets (`set_page_config`, `title`, `sidebar.selectbox`, `selectbox`, `subheader`, `metric`, `warning`, `dataframe`) are presentation. Only the values the select boxes return matter, and they are parameters.
- Plotly charts (`px.bar`, `px.line`, `st.plotly_chart`) render through a foreign library. The model stops at the tables passed to them, `comparison_df` and `trend_df`. It does not model their projection onto the x and y columns.
- Kpi.IndicatorValue: does not model `round(value, 2)`, because that is floating-point display rounding. The KPI is the raw cell value.
- Floating point is modelled by `real`. NaN is a separate cell value that is never compared.
- pandas dtype inference is not modelled: the dtype tags are given. NaN in a categorical column is not modelled either: those columns are plain strings compared exactly.
- Kpi.IndicatorValue: requires the indicator to have a cell in the first selected row. pandas raises `KeyError` for a missing column. When the table has at least one int or float column, the indicator comes from the table's own columns (see Kpi.KpiIsNumber).
- Kpi.KpiIsNumber: excludes a table with no int or float column. There `sorted(numeric_columns)` is empty, the select box returns `None`, and `filtered_df[None]` raises `KeyError` whenever `filtered_df` is non-empty. The model does not represent that error.
- Indicators.Sort: is an insertion sort, not CPython's Timsort. Indicators.SortedUnique shows that every ascending permutation is the same list, so the result is the same.
- Column names are assumed to be plain strings. Duplicate column names, which pandas allows, are not treated specially.
