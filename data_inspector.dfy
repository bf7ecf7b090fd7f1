/**
 * The data inspector: shape, per-column missing values, duplicate rows and keys, and the
 * revenue consistency check, gathered into one inspection report.
 */
module DataInspector {
  import opened Basics
  import opened Table

  datatype ShapeReport = ShapeReport(rows: nat, columns: nat)

  /** One entry of the missing-values report; the dictionary becomes a sequence in column order. */
  datatype MissingEntry = MissingEntry(column: string, missingCount: nat, missingPercent: real)

  datatype DuplicateReport = DuplicateReport(totalDuplicateRows: nat, duplicateByKey: Option<nat>)

  /** The values of `revenue_consistency`. */
  datatype RevenueCheck = Pass | Fail | NotApplicable

  /**
   * An inspection report. Every section is optional, since the consumers of a report read each
   * one with a default; `numericChecks` is the value of its `revenue_consistency` key.
   */
  datatype InspectionReport = InspectionReport(
    shape: Option<ShapeReport>,
    missingValues: Option<seq<MissingEntry>>,
    duplicates: Option<DuplicateReport>,
    numericChecks: Option<RevenueCheck>)

  /** `inspect_shape`. */
  function InspectShape(df: Table): (r: ShapeReport)
    ensures r.rows == df.rows && r.columns == |Names(df.columns)|
  {
    ShapeReport(df.rows, |df.columns|)
  }

  /** The report entry of one column of a table with `rows` rows (the percentage before rounding). */
  function EntryFor(rows: nat, c: Column): MissingEntry
  {
    var count := MissingCount(c.cells);
    MissingEntry(c.name, count, if rows > 0 then (count as real / rows as real) * 100.0 else 0.0)
  }

  /** What `inspect_missing_values` returns: one entry per column, in column order. */
  function MissingReport(df: Table): seq<MissingEntry>
  {
    seq(|df.columns|, k requires 0 <= k < |df.columns| => EntryFor(df.rows, df.columns[k]))
  }

  /** `inspect_missing_values`: the loop over the columns filling the report. */
  method InspectMissingValues(df: Table) returns (report: seq<MissingEntry>)
    ensures report == MissingReport(df)
  {
    var totalRows := df.rows;
    report := [];
    for k := 0 to |df.columns|
      invariant |report| == k
      invariant forall j :: 0 <= j < k ==> report[j] == EntryFor(df.rows, df.columns[j])
    {
      var column := df.columns[k];
      var missingCount := MissingCount(column.cells);
      var missingPercent := if totalRows > 0 then (missingCount as real / totalRows as real) * 100.0 else 0.0;
      report := report + [MissingEntry(column.name, missingCount, missingPercent)];
    }
  }

  lemma {:induction false} MissingCountAll(cells: seq<Cell>)
    ensures MissingCount(cells) == |cells| <==> AllMissing(cells)
  {
    if cells != [] {
      MissingCountAll(cells[1..]);
      assert AllMissing(cells) <==> cells[0].None? && AllMissing(cells[1..]) by {
        assert forall k :: 0 < k < |cells| ==> cells[1..][k - 1] == cells[k];
      }
    }
  }

  /**
   * Each entry names its column and counts its missing cells; the percentage is 0 for a table
   * without rows, lies between 0 and 100, and is 100 exactly when every cell is missing.
   */
  lemma MissingReportMeaning(df: Table, k: nat)
    requires Valid(df) && k < |df.columns|
    ensures |MissingReport(df)| == |df.columns|
    ensures MissingReport(df)[k].column == df.columns[k].name
    ensures MissingReport(df)[k].missingCount == MissingCount(df.columns[k].cells)
    ensures df.rows == 0 ==> MissingReport(df)[k].missingPercent == 0.0
    ensures 0.0 <= MissingReport(df)[k].missingPercent <= 100.0
    ensures df.rows > 0 ==> (MissingReport(df)[k].missingPercent == 100.0 <==> AllMissing(df.columns[k].cells))
  {
    var cells := df.columns[k].cells;
    MissingCountAll(cells);
    if df.rows > 0 {
      PercentBounds(MissingCount(cells), df.rows);
    }
  }

  lemma PercentBounds(c: nat, n: nat)
    requires c <= n && n > 0
    ensures 0.0 <= (c as real / n as real) * 100.0 <= 100.0
    ensures (c as real / n as real) * 100.0 == 100.0 <==> c == n
  {
    var q := c as real / n as real;
    assert q * n as real == c as real;
    assert 0.0 <= q;
    ScaleByPositive(q, n as real);
  }

  /** Multiplying by a positive number keeps the comparison with 1. */
  lemma ScaleByPositive(x: real, n: real)
    requires n > 0.0
    ensures x * n < n <==> x < 1.0
    ensures x * n > n <==> x > 1.0
  {
    assert x * n - n == (x - 1.0) * n;
  }

  /** `series.duplicated().sum()`: the number of elements equal to an earlier one. */
  function DuplicateCount<T(==)>(s: seq<T>): (r: nat)
    ensures r <= |s| && (s != [] ==> r < |s|)
    decreases |s|
  {
    if s == [] then 0
    else DuplicateCount(s[..|s| - 1]) + (if s[|s| - 1] in s[..|s| - 1] then 1 else 0)
  }

  /** The duplicates and the distinct values together make up the whole sequence. */
  lemma {:induction false} DuplicateCountElements<T>(s: seq<T>)
    ensures DuplicateCount(s) + |Elements(s)| == |s|
    decreases |s|
  {
    if s != [] {
      var init, last := s[..|s| - 1], s[|s| - 1];
      DuplicateCountElements(init);
      assert s == init + [last];
      assert Elements(s) == Elements(init) + {last};
      if last in init {
        assert Elements(s) == Elements(init);
      } else {
        assert last !in Elements(init);
      }
    }
  }

  /** There are no duplicates exactly when the elements are pairwise distinct. */
  lemma {:induction false} DuplicateCountZero<T>(s: seq<T>)
    ensures DuplicateCount(s) == 0 <==> Distinct(s)
    decreases |s|
  {
    if s != [] {
      var init, last := s[..|s| - 1], s[|s| - 1];
      DuplicateCountZero(init);
      assert forall i :: 0 <= i < |init| ==> init[i] == s[i];
      if Distinct(s) {
        assert Distinct(init);
        assert last !in init;
      }
    }
  }

  /** Row `i` of a table: the cell of each column at that row. */
  function Row(df: Table, i: nat): seq<Cell>
    requires Valid(df) && i < df.rows
  {
    seq(|df.columns|, k requires 0 <= k < |df.columns| => df.columns[k].cells[i])
  }

  function Rows(df: Table): seq<seq<Cell>>
    requires Valid(df)
  {
    seq(df.rows, i requires 0 <= i < df.rows => Row(df, i))
  }

  /** The key column is used only when it is given, non-empty (truthy) and a column of the table. */
  predicate KeyUsable(df: Table, keyColumn: Option<string>)
  {
    keyColumn.Some? && keyColumn.value != "" && keyColumn.value in Names(df.columns)
  }

  /**
   * `inspect_duplicates`. `DataFrame.duplicated` returns an empty series for an empty frame, and a
   * frame without columns is empty whatever its row count, so such a table reports no duplicates.
   */
  function InspectDuplicates(df: Table, keyColumn: Option<string>): (r: DuplicateReport)
    requires Valid(df)
    ensures |df.columns| == 0 ==> r.totalDuplicateRows == 0
    ensures r.totalDuplicateRows <= df.rows && (df.rows > 0 ==> r.totalDuplicateRows < df.rows)
    ensures r.duplicateByKey.None? <==> !KeyUsable(df, keyColumn)
    ensures r.duplicateByKey.Some? ==> r.duplicateByKey.value <= df.rows && (df.rows > 0 ==> r.duplicateByKey.value < df.rows)
  {
    DuplicateReport(
      if |df.columns| == 0 then 0 else DuplicateCount(Rows(df)),
      if KeyUsable(df, keyColumn) then Some(DuplicateCount(FindColumn(df.columns, keyColumn.value).value.cells)) else None)
  }

  /**
   * With at least one column, the duplicate row count is the number of rows minus the number of
   * distinct rows, 0 exactly when the rows are pairwise distinct; without columns it is 0. The key
   * count is absent unless the key is usable and then counts the key values repeating an earlier one.
   */
  lemma DuplicatesMeaning(df: Table, keyColumn: Option<string>)
    requires Valid(df)
    ensures |df.columns| > 0 ==> InspectDuplicates(df, keyColumn).totalDuplicateRows + |Elements(Rows(df))| == df.rows
    ensures |df.columns| > 0 ==> (InspectDuplicates(df, keyColumn).totalDuplicateRows == 0 <==> Distinct(Rows(df)))
    ensures |df.columns| == 0 ==> InspectDuplicates(df, keyColumn).totalDuplicateRows == 0
    ensures InspectDuplicates(df, keyColumn).duplicateByKey.None? <==> !KeyUsable(df, keyColumn)
    ensures KeyUsable(df, keyColumn) ==>
      var cells := FindColumn(df.columns, keyColumn.value).value.cells;
      InspectDuplicates(df, keyColumn).duplicateByKey == Some(|cells| - |Elements(cells)|)
  {
    DuplicateCountElements(Rows(df));
    DuplicateCountZero(Rows(df));
    if KeyUsable(df, keyColumn) {
      DuplicateCountElements(FindColumn(df.columns, keyColumn.value).value.cells);
    }
  }

  /** A row fails the check when its three values are numbers and revenue is off by more than 0.01. */
  predicate Inconsistent(units: Cell, price: Cell, revenue: Cell)
  {
    units.Some? && units.value.Num? && price.Some? && price.value.Num? && revenue.Some? && revenue.value.Num?
    && var d := revenue.value.x - units.value.x * price.value.x;
    (if d < 0.0 then -d else d) > 0.01
  }

  /** `(difference > 0.01).any()` over the aligned series; a missing value compares false. */
  function AnyInconsistent(us: seq<Cell>, ps: seq<Cell>, rs: seq<Cell>): bool
    decreases |us|
  {
    if us == [] || ps == [] || rs == [] then false
    else Inconsistent(us[0], ps[0], rs[0]) || AnyInconsistent(us[1..], ps[1..], rs[1..])
  }

  lemma {:induction false} AnyInconsistentMeaning(us: seq<Cell>, ps: seq<Cell>, rs: seq<Cell>)
    ensures AnyInconsistent(us, ps, rs) <==>
      exists i :: 0 <= i < |us| && i < |ps| && i < |rs| && Inconsistent(us[i], ps[i], rs[i])
    decreases |us|
  {
    if us != [] && ps != [] && rs != [] {
      AnyInconsistentMeaning(us[1..], ps[1..], rs[1..]);
      if exists i :: 0 <= i < |us| && i < |ps| && i < |rs| && Inconsistent(us[i], ps[i], rs[i]) {
        var i :| 0 <= i < |us| && i < |ps| && i < |rs| && Inconsistent(us[i], ps[i], rs[i]);
        if i > 0 {
          assert Inconsistent(us[1..][i - 1], ps[1..][i - 1], rs[1..][i - 1]);
        }
      }
      if AnyInconsistent(us[1..], ps[1..], rs[1..]) {
        var i :| 0 <= i < |us[1..]| && i < |ps[1..]| && i < |rs[1..]| && Inconsistent(us[1..][i], ps[1..][i], rs[1..][i]);
        assert Inconsistent(us[i + 1], ps[i + 1], rs[i + 1]);
      }
    }
  }

  /** The three columns the revenue check needs are all present. */
  predicate HasRevenueColumns(df: Table)
  {
    var names := Names(df.columns);
    "units_sold" in names && "unit_price" in names && "revenue" in names
  }

  /** Row `i` of the revenue check is inconsistent. */
  predicate RowInconsistent(df: Table, i: nat)
    requires HasRevenueColumns(df)
  {
    var us := FindColumn(df.columns, "units_sold").value.cells;
    var ps := FindColumn(df.columns, "unit_price").value.cells;
    var rs := FindColumn(df.columns, "revenue").value.cells;
    i < |us| && i < |ps| && i < |rs| && Inconsistent(us[i], ps[i], rs[i])
  }

  /** `inspect_numeric_sanity`. */
  function InspectNumericSanity(df: Table): (r: RevenueCheck)
    ensures r == NotApplicable <==> !HasRevenueColumns(df)
    ensures Valid(df) && df.rows == 0 ==> r != Fail
  {
    if HasRevenueColumns(df) then
      if AnyInconsistent(FindColumn(df.columns, "units_sold").value.cells,
                         FindColumn(df.columns, "unit_price").value.cells,
                         FindColumn(df.columns, "revenue").value.cells)
      then Fail else Pass
    else NotApplicable
  }

  /** NOT_APPLICABLE unless the three columns exist; then FAIL exactly when some row is inconsistent. */
  lemma NumericSanityMeaning(df: Table)
    requires Valid(df)
    ensures InspectNumericSanity(df) == NotApplicable <==> !HasRevenueColumns(df)
    ensures InspectNumericSanity(df) == Fail <==>
      HasRevenueColumns(df) && exists i :: 0 <= i < df.rows && RowInconsistent(df, i)
    ensures InspectNumericSanity(df) == Pass <==>
      HasRevenueColumns(df) && forall i :: 0 <= i < df.rows ==> !RowInconsistent(df, i)
  {
    if HasRevenueColumns(df) {
      var us := FindColumn(df.columns, "units_sold").value.cells;
      var ps := FindColumn(df.columns, "unit_price").value.cells;
      var rs := FindColumn(df.columns, "revenue").value.cells;
      AnyInconsistentMeaning(us, ps, rs);
      if AnyInconsistent(us, ps, rs) {
        var i :| 0 <= i < |us| && i < |ps| && i < |rs| && Inconsistent(us[i], ps[i], rs[i]);
        assert RowInconsistent(df, i);
      } else {
        forall i | 0 <= i < df.rows ensures !RowInconsistent(df, i) {
        }
      }
    }
  }

  /** `inspect_dataset`. */
  function InspectDataset(df: Table, keyColumn: Option<string>): (r: InspectionReport)
    requires Valid(df)
    ensures r.shape.Some? && r.missingValues.Some? && r.duplicates.Some? && r.numericChecks.Some?
    ensures r.shape.value.rows == df.rows && r.shape.value.columns == |df.columns|
    ensures |r.missingValues.value| == r.shape.value.columns
    ensures forall k :: 0 <= k < |df.columns| ==> r.missingValues.value[k].column == df.columns[k].name
  {
    InspectionReport(
      Some(InspectShape(df)),
      Some(MissingReport(df)),
      Some(InspectDuplicates(df, keyColumn)),
      Some(InspectNumericSanity(df)))
  }
}
