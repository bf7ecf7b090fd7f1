/**
 * The v3 schema extractor: a semantic type per column read off its storage type,
 * a missing-value count, and behavioural signals for numeric and categorical columns.
 */
module V3SchemaExtractor {
  import opened Basics
  import opened Table

  /** `infer_column_type`: datetime storage is a date, numeric storage is numeric, anything else categorical. */
  function InferColumnType(d: DType): (t: SemanticType)
    ensures t == Date <==> IsDatetimeDType(d)
    ensures t == Numeric <==> IsNumericDType(d)
    ensures t == Categorical <==> !IsDatetimeDType(d) && !IsNumericDType(d)
  {
    if IsDatetimeDType(d) then Date
    else if IsNumericDType(d) then Numeric
    else Categorical
  }

  /** A column of numeric storage holds numbers only. */
  predicate NumericCells(cells: seq<Cell>)
  {
    forall k :: 0 <= k < |cells| && cells[k].Some? ==> cells[k].value.Num?
  }

  /** What pandas itself guarantees of every column: numeric storage holds numbers. */
  predicate WellTyped(t: Table)
  {
    forall k :: 0 <= k < |t.columns| && IsNumericDType(t.columns[k].dtype) ==> NumericCells(t.columns[k].cells)
  }

  /** The numbers of a sequence of values (every value of a numeric column is one). */
  function Numbers(vs: seq<Value>): (r: seq<real>)
    ensures |r| <= |vs|
    ensures (forall k :: 0 <= k < |vs| ==> vs[k].Num?) ==> |r| == |vs| && forall k :: 0 <= k < |vs| ==> r[k] == vs[k].x
  {
    if vs == [] then []
    else if vs[0].Num? then [vs[0].x] + Numbers(vs[1..])
    else Numbers(vs[1..])
  }

  function MinOf(xs: seq<real>): (m: real)
    requires |xs| > 0
    ensures m in xs
    ensures forall k :: 0 <= k < |xs| ==> m <= xs[k]
  {
    if |xs| == 1 then xs[0]
    else
      var rest := MinOf(xs[1..]);
      if xs[0] <= rest then xs[0] else rest
  }

  function MaxOf(xs: seq<real>): (m: real)
    requires |xs| > 0
    ensures m in xs
    ensures forall k :: 0 <= k < |xs| ==> xs[k] <= m
  {
    if |xs| == 1 then xs[0]
    else
      var rest := MaxOf(xs[1..]);
      if xs[0] >= rest then xs[0] else rest
  }

  function Sum(xs: seq<real>): real
  {
    if xs == [] then 0.0 else xs[0] + Sum(xs[1..])
  }

  /** The sum of `n` numbers lies between `n` times their least and `n` times their greatest. */
  lemma {:induction false} SumBounds(xs: seq<real>, lo: real, hi: real)
    requires forall k :: 0 <= k < |xs| ==> lo <= xs[k] <= hi
    ensures lo * |xs| as real <= Sum(xs) <= hi * |xs| as real
  {
    if xs != [] {
      SumBounds(xs[1..], lo, hi);
      assert lo * |xs| as real == lo + lo * |xs[1..]| as real;
      assert hi * |xs| as real == hi + hi * |xs[1..]| as real;
    }
  }

  function Mean(xs: seq<real>): real
    requires |xs| > 0
  {
    Sum(xs) / |xs| as real
  }

  /** Dividing both sides of `lo * n <= s <= hi * n` by a positive `n`. */
  lemma DivideBounds(s: real, n: nat, lo: real, hi: real)
    requires n > 0 && lo * n as real <= s <= hi * n as real
    ensures lo <= s / n as real <= hi
  {
    var q := s / n as real;
    assert q * n as real == s;
    assert (q - lo) * n as real >= 0.0;
    assert (hi - q) * n as real >= 0.0;
  }

  /** The mean of the non-missing values lies between their minimum and their maximum. */
  lemma MeanBetween(xs: seq<real>)
    requires |xs| > 0
    ensures MinOf(xs) <= Mean(xs) <= MaxOf(xs)
  {
    MeanWithin(xs, MinOf(xs), MaxOf(xs));
  }

  lemma MeanWithin(xs: seq<real>, lo: real, hi: real)
    requires |xs| > 0
    requires forall k :: 0 <= k < |xs| ==> lo <= xs[k] <= hi
    ensures lo <= Mean(xs) <= hi
  {
    SumBounds(xs, lo, hi);
    DivideBounds(Sum(xs), |xs|, lo, hi);
  }

  /** `x % 1 == 0`. */
  predicate IsWhole(x: real)
  {
    x == x.Floor as real
  }

  /** `(clean % 1 == 0).all()`, computed from the first value on. */
  function AllWhole(xs: seq<real>): (b: bool)
    ensures b <==> forall k :: 0 <= k < |xs| ==> IsWhole(xs[k])
  {
    if xs == [] then true else IsWhole(xs[0]) && AllWhole(xs[1..])
  }

  /** `unique()`: the values of `s` without repetitions, in order of first appearance. */
  function Unique(s: seq<Value>): (r: seq<Value>)
    ensures Distinct(r)
    ensures forall x :: x in r <==> x in s
    ensures |r| <= |s|
    decreases |s|
  {
    if s == [] then []
    else
      var u := Unique(s[..|s| - 1]);
      var x := s[|s| - 1];
      assert forall y :: y in s <==> y in s[..|s| - 1] || y == x by {
        assert s == s[..|s| - 1] + [x];
      }
      if x in u then u else u + [x]
  }

  /** The unique values of a prefix of `s` are a prefix of the unique values of `s`: first-seen order. */
  lemma {:induction false} UniquePrefix(s: seq<Value>, k: nat)
    requires k <= |s|
    ensures Unique(s[..k]) <= Unique(s)
    decreases |s|
  {
    if k < |s| {
      assert s[..|s| - 1][..k] == s[..k];
      UniquePrefix(s[..|s| - 1], k);
    } else {
      assert s[..k] == s;
    }
  }

  lemma UniqueCount(s: seq<Value>)
    ensures |Unique(s)| == |Elements(s)|
  {
    DistinctCardinality(Unique(s));
    assert Elements(Unique(s)) == Elements(s);
  }

  /** The signals of a column. An all-missing numeric column has NaN (here `None`) for min, max and mean. */
  datatype Signals =
    | NumericSignals(min: Option<real>, max: Option<real>, mean: Option<real>, isIntegerLike: bool, uniqueCount: nat)
    | CategoricalSignals(uniqueCount: nat, sampleValues: seq<Value>)

  /** `signals.get("max", 0)`: categorical signals have no `max` key; a NaN is `None`. */
  function MaxOrZero(s: Signals): Option<real>
  {
    if s.NumericSignals? then s.max else Some(0.0)
  }

  /** `signals.get("mean", 0)`. */
  function MeanOrZero(s: Signals): Option<real>
  {
    if s.NumericSignals? then s.mean else Some(0.0)
  }

  /** `a > b` on floats: false whenever either side is NaN. */
  predicate Greater(a: Option<real>, b: Option<real>)
  {
    a.Some? && b.Some? && a.value > b.value
  }

  /** `numeric_signals` over the cells of a numeric column. */
  function NumericSignalsOf(cells: seq<Cell>): (r: Signals)
    requires NumericCells(cells)
    ensures r.NumericSignals?
    ensures r.uniqueCount == Nunique(cells)
    ensures var xs := Numbers(Present(cells));
      && |xs| == |Present(cells)|
      && (r.isIntegerLike <==> forall k :: 0 <= k < |xs| ==> IsWhole(xs[k]))
      && (r.min.None? <==> AllMissing(cells))
      && (r.min.None? <==> r.max.None?) && (r.min.None? <==> r.mean.None?)
      && (r.min.Some? ==> r.min.value in xs && r.max.value in xs && r.min.value <= r.mean.value <= r.max.value)
      && (r.min.Some? ==> forall k :: 0 <= k < |xs| ==> r.min.value <= xs[k] <= r.max.value)
  {
    var vs := Present(cells);
    assert forall k :: 0 <= k < |vs| ==> vs[k].Num? by {
      forall k | 0 <= k < |vs| ensures vs[k].Num? {
        assert vs[k] in vs;
        assert Some(vs[k]) in cells;
      }
    }
    var xs := Numbers(vs);
    AllMissingIffNoPresent(cells);
    if xs == [] then
      NumericSignals(None, None, None, true, Nunique(cells))
    else
      MeanBetween(xs);
      NumericSignals(Some(MinOf(xs)), Some(MaxOf(xs)), Some(Mean(xs)), AllWhole(xs), Nunique(cells))
  }

  lemma AllMissingIffNoPresent(cells: seq<Cell>)
    ensures AllMissing(cells) <==> Present(cells) == []
  {
    if !AllMissing(cells) {
      var k :| 0 <= k < |cells| && cells[k].Some?;
      assert cells[k] in cells;
      assert cells[k].value in Present(cells);
    }
  }

  /** `categorical_signals`: the distinct count and the first five distinct values, in first-seen order. */
  function CategoricalSignalsOf(cells: seq<Cell>): (r: Signals)
    ensures r.CategoricalSignals?
    ensures r.uniqueCount == Nunique(cells)
    ensures |r.sampleValues| <= 5 && Distinct(r.sampleValues)
    ensures r.sampleValues <= Unique(Present(cells))
    ensures |r.sampleValues| == if Nunique(cells) < 5 then Nunique(cells) else 5
    ensures forall v :: v in r.sampleValues ==> Some(v) in cells
  {
    var u := Unique(Present(cells));
    UniqueCount(Present(cells));
    var sample := if |u| <= 5 then u else u[..5];
    assert forall v :: v in sample ==> v in u;
    CategoricalSignals(Nunique(cells), sample)
  }

  /** One entry of the schema: `signals` is absent for a date column. */
  datatype SchemaEntry = SchemaEntry(column: string, kind: SemanticType, missingCount: nat, signals: Option<Signals>)

  /** The entry `extract_schema` records for one column. */
  function EntryFor(c: Column): (e: SchemaEntry)
    requires IsNumericDType(c.dtype) ==> NumericCells(c.cells)
    ensures e.column == c.name && e.kind == InferColumnType(c.dtype)
    ensures e.missingCount == MissingCount(c.cells)
    ensures e.signals.None? <==> e.kind == Date
    ensures e.kind == Numeric ==> e.signals == Some(NumericSignalsOf(c.cells))
    ensures e.kind == Categorical ==> e.signals == Some(CategoricalSignalsOf(c.cells))
  {
    var kind := InferColumnType(c.dtype);
    var signals :=
      match kind
      case Numeric => Some(NumericSignalsOf(c.cells))
      case Categorical => Some(CategoricalSignalsOf(c.cells))
      case Date => None;
    SchemaEntry(c.name, kind, MissingCount(c.cells), signals)
  }

  /** `extract_schema`: one entry per column, in column order. */
  method ExtractSchema(t: Table) returns (schema: seq<SchemaEntry>)
    requires WellTyped(t)
    ensures |schema| == |t.columns|
    ensures forall k :: 0 <= k < |t.columns| ==> schema[k] == EntryFor(t.columns[k])
  {
    schema := [];
    var k := 0;
    while k < |t.columns|
      invariant 0 <= k <= |t.columns|
      invariant |schema| == k
      invariant forall j :: 0 <= j < k ==> schema[j] == EntryFor(t.columns[j])
    {
      var column := t.columns[k];
      assert IsNumericDType(column.dtype) ==> NumericCells(column.cells);
      var entry := EntryFor(column);
      schema := schema + [entry];
      k := k + 1;
    }
  }
}
