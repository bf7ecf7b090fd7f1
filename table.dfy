/** The abstract table the pipeline works on: named, typed columns of optional cells. */
module Table {
  import opened Basics

  /** A cell value. Strings, numbers (booleans included, as 0 and 1) and points in time. */
  datatype Value = Num(x: real) | Str(s: string) | Time(t: int)

  /** A missing cell (NaN, None, NaT) is `None`. */
  type Cell = Option<Value>

  /** The storage types of pandas that the pipeline tells apart. */
  datatype DType =
    | Datetime64 | DatetimeTz
    | Int64 | Float64 | Bool | Complex128
    | ObjectDType | CategoryDType | StringDType

  /** `pd.api.types.is_datetime64_any_dtype`. */
  predicate IsDatetimeDType(d: DType)
  {
    d == Datetime64 || d == DatetimeTz
  }

  /** `pd.api.types.is_numeric_dtype`: integers, floats, complex numbers and booleans. */
  predicate IsNumericDType(d: DType)
  {
    d == Int64 || d == Float64 || d == Bool || d == Complex128
  }

  /** The semantic types the schema extractor and the canonical schemas speak of. */
  datatype SemanticType = Numeric | Categorical | Date

  datatype Column = Column(name: string, dtype: DType, cells: seq<Cell>)

  datatype Table = Table(rows: nat, columns: seq<Column>)

  /** Every column of a data frame has one cell per row. */
  predicate Valid(t: Table)
  {
    forall k :: 0 <= k < |t.columns| ==> |t.columns[k].cells| == t.rows
  }

  function Names(cols: seq<Column>): (r: seq<string>)
    ensures |r| == |cols|
    ensures forall k :: 0 <= k < |cols| ==> r[k] == cols[k].name
  {
    if cols == [] then [] else [cols[0].name] + Names(cols[1..])
  }

  /** `k` is the first column called `name`. */
  predicate FirstNamed(cols: seq<Column>, name: string, k: int)
  {
    0 <= k < |cols| && cols[k].name == name && forall j :: 0 <= j < k ==> cols[j].name != name
  }

  /** The position of the first column called `name`, if there is one. */
  function IndexOfName(cols: seq<Column>, name: string): (r: Option<nat>)
    ensures r.None? <==> name !in Names(cols)
    ensures r.Some? ==> FirstNamed(cols, name, r.value)
  {
    if cols == [] then None
    else if cols[0].name == name then Some(0)
    else
      match IndexOfName(cols[1..], name)
      case None => None
      case Some(k) => Some(k + 1)
  }

  /** `df[name]`: the (first) column called `name`, if there is one. */
  function FindColumn(cols: seq<Column>, name: string): (r: Option<Column>)
    ensures r.None? <==> name !in Names(cols)
    ensures r.Some? ==> IndexOfName(cols, name).Some? && r.value == cols[IndexOfName(cols, name).value] && r.value.name == name
  {
    match IndexOfName(cols, name)
    case None => None
    case Some(k) => Some(cols[k])
  }

  /** The non-missing values of a column, in row order (`series.dropna()`). */
  function Present(cells: seq<Cell>): (r: seq<Value>)
    ensures |r| <= |cells|
    ensures forall v :: v in r <==> Some(v) in cells
  {
    if cells == [] then []
    else
      var rest := Present(cells[1..]);
      assert forall c :: c in cells <==> c == cells[0] || c in cells[1..];
      match cells[0]
      case None => rest
      case Some(v) => [v] + rest
  }

  /** `series.isna().sum()`. */
  function MissingCount(cells: seq<Cell>): (n: nat)
    ensures n <= |cells|
    ensures n == 0 <==> None !in cells
  {
    if cells == [] then 0
    else (if cells[0].None? then 1 else 0) + MissingCount(cells[1..])
  }

  lemma {:induction false} MissingPlusPresent(cells: seq<Cell>)
    ensures MissingCount(cells) + |Present(cells)| == |cells|
  {
    if cells != [] {
      MissingPlusPresent(cells[1..]);
    }
  }

  /** `series.isna().all()`. */
  predicate AllMissing(cells: seq<Cell>)
  {
    forall k :: 0 <= k < |cells| ==> cells[k].None?
  }

  /** `series.nunique()`: the number of distinct non-missing values. */
  function Nunique(cells: seq<Cell>): nat
  {
    |Elements(Present(cells))|
  }
}
