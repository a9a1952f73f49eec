/**
 * The in-memory survey table that the dashboard queries.
 *
 * Each row carries the three categorical columns the sidebar filters on
 * ("India/States/UTs", "Survey", "Area") as fields, and the remaining
 * columns as a map from column name to cell. The table's schema gives every
 * map column a dtype tag, as pandas infers it on load.
 */
module Frame {

  /** One cell of a non-categorical column. Floating point is modelled by `real`. */
  datatype Value = IntValue(i: int) | FloatValue(x: real) | NaN | Text(s: string)

  /** The dtype tag pandas gives a whole column. */
  datatype DType = Int64 | Float64 | Object

  datatype Column = Column(name: string, dtype: DType)

  /** One row of the survey table. */
  datatype Record = Record(state: string, survey: string, area: string, values: map<string, Value>)

  /** The table: its rows in file order. */
  type Table = seq<Record>

  /** The three categorical columns a selection is made on. */
  datatype Field = State | Survey | Area

  /** The cell of a categorical column in a row (`df["Survey"]` at one row, say). */
  function Get(r: Record, f: Field): string
  {
    match f
    case State => r.state
    case Survey => r.survey
    case Area => r.area
  }

  /** A categorical column as a series, one entry per row, in row order. */
  function ColumnOf(df: Table, f: Field): (c: seq<string>)
    ensures |c| == |df|
    ensures forall i :: 0 <= i < |df| ==> c[i] == Get(df[i], f)
  {
    seq(|df|, i requires 0 <= i < |df| => Get(df[i], f))
  }

  /** Every row has a cell for the given column. */
  predicate HasColumn(df: Table, name: string)
  {
    forall r :: r in df ==> name in r.values
  }

  /** A cell fits the dtype tag of its column. */
  predicate Fits(v: Value, t: DType)
  {
    match t
    case Int64 => v.IntValue?
    case Float64 => v.FloatValue? || v.NaN?
    case Object => true
  }

  /** A value `round` and `st.metric` accept as a number. */
  predicate IsNumber(v: Value)
  {
    v.IntValue? || v.FloatValue? || v.NaN?
  }

  /** Every row has a cell for every column of the schema, and the cell fits its dtype. */
  predicate WellTyped(schema: seq<Column>, df: Table)
  {
    forall r, c :: r in df && c in schema ==> c.name in r.values && Fits(r.values[c.name], c.dtype)
  }
}
