/**
 * The v4 schema adapter: from a raw table and a confirmed mapping, a canonical table with one
 * `measure` column (the active measure), an optional `entity` and `time`, and
 * `dimension_1`..`dimension_N`. Measures are validated first; a referenced column that the raw
 * table lacks fails as a lookup (`KeyError`), never as a validation error.
 */
module V4SchemaAdapter {
  import opened Basics
  import opened Text
  import opened Table
  import V4SemanticMapper

  /**
   * The keys the adapter reads from the confirmed mapping: `measures` and `dimensions` default
   * to the empty list when absent, `entity` and `time` to `None`.
   */
  datatype MappingDict = MappingDict(measures: seq<string>, entity: Option<string>, time: Option<string>, dimensions: seq<string>)

  datatype ValidationReason = NoMeasures | ActiveNotConfirmed(active: string, measures: seq<string>) | AllNullMeasure

  datatype AdapterError = SchemaValidationError(reason: ValidationReason) | KeyError(column: string)

  /** Python's `repr` of a list of strings, for elements without quotes or escapes. */
  function ListRepr(items: seq<string>): string
  {
    "[" + Join(seq(|items|, i requires 0 <= i < |items| => "'" + items[i] + "'"), ", ") + "]"
  }

  /**
   * The text of the `SchemaValidationError` each reason raises. The longer messages are written as
   * pieces, since the verifier reads the characters of short literals only.
   */
  function Message(reason: ValidationReason): (s: string)
    ensures |s| > 16
    ensures s[0] == 'N' <==> reason.NoMeasures?
    ensures s[15] == '\'' <==> reason.ActiveNotConfirmed?
    ensures reason.ActiveNotConfirmed? ==> |s| > 16 + |reason.active| && s[16..16 + |reason.active|] == reason.active
  {
    match reason
    case NoMeasures =>
      var head := "No measures confirmed. ";
      assert head[0] == 'N';
      head + "At least one numeric " + "measure is required."
    case ActiveNotConfirmed(active, measures) =>
      var head := "Active measure '";
      assert head[0] == 'A' && head[15] == '\'' && |head| == 16;
      var r := head + active + "' is not in " + "confirmed measures: " + ListRepr(measures);
      assert r[16..16 + |active|] == active;
      r
    case AllNullMeasure =>
      var head := "Active measure column ";
      assert head[0] == 'A' && head[15] == 'c';
      head + "contains only null values."
  }

  /** `if col:` on a looked-up mapping value: absent and empty both skip. */
  predicate Truthy(col: Option<string>)
  {
    col.Some? && col.value != ""
  }

  /** `pd.to_datetime(series, errors="coerce")`, cell by cell, with the parser as a parameter. */
  function ParseCells(cells: seq<Cell>, parse: Value -> Option<int>): (r: seq<Cell>)
    ensures |r| == |cells|
    ensures forall k :: 0 <= k < |cells| ==>
      r[k] == if cells[k].None? then None else match parse(cells[k].value) case None => None case Some(t) => Some(Time(t))
  {
    seq(|cells|, k requires 0 <= k < |cells| =>
      if cells[k].None? then None else match parse(cells[k].value) case None => None case Some(t) => Some(Time(t)))
  }

  /** The name of the `k`-th dimension column, counting from 1. */
  function DimensionName(k: nat): string
  {
    "dimension_" + NatToString(k)
  }

  /** A copy of `c` under the name `name` (`canonical_df[name] = df[col]`). */
  function Renamed(c: Column, name: string): (r: Column)
    ensures r.name == name && r.dtype == c.dtype && r.cells == c.cells
  {
    Column(name, c.dtype, c.cells)
  }

  /** The dimension columns for `ds`, in list order, or the `KeyError` of the first one the table lacks. */
  function DimensionColumns(cols: seq<Column>, ds: seq<string>): (r: Result<seq<Column>, AdapterError>)
    ensures r.Ok? ==> |r.value| == |ds|
    decreases |ds|
  {
    if ds == [] then Ok([])
    else
      match DimensionColumns(cols, ds[..|ds| - 1])
      case Err(e) => Err(e)
      case Ok(cs) =>
        match FindColumn(cols, ds[|ds| - 1])
        case None => Err(KeyError(ds[|ds| - 1]))
        case Some(c) => Ok(cs + [Renamed(c, DimensionName(|ds|))])
  }

  /** The `entity` and `time` columns, each present when its mapping value is truthy. */
  function OptionalColumns(cols: seq<Column>, m: MappingDict, parse: Value -> Option<int>): Result<seq<Column>, AdapterError>
  {
    var entity: Result<seq<Column>, AdapterError> :=
      if !Truthy(m.entity) then Ok([])
      else match FindColumn(cols, m.entity.value)
        case None => Err(KeyError(m.entity.value))
        case Some(c) => Ok([Renamed(c, "entity")]);
    if entity.Err? then entity
    else if !Truthy(m.time) then entity
    else match FindColumn(cols, m.time.value)
      case None => Err(KeyError(m.time.value))
      case Some(c) => Ok(entity.value + [Column("time", Datetime64, ParseCells(c.cells, parse))])
  }

  /** `build_canonical_dataframe`, as a value: the canonical table or the error it raises. */
  function CanonicalFrame(df: Table, m: MappingDict, active: string, parse: Value -> Option<int>): Result<Table, AdapterError>
  {
    if m.measures == [] then Err(SchemaValidationError(NoMeasures))
    else if active !in m.measures then Err(SchemaValidationError(ActiveNotConfirmed(active, m.measures)))
    else match FindColumn(df.columns, active)
      case None => Err(KeyError(active))
      case Some(mc) =>
        match OptionalColumns(df.columns, m, parse)
        case Err(e) => Err(e)
        case Ok(opt) =>
          match DimensionColumns(df.columns, m.dimensions)
          case Err(e) => Err(e)
          case Ok(dims) =>
            if AllMissing(mc.cells) then Err(SchemaValidationError(AllNullMeasure))
            else Ok(Table(df.rows, [Renamed(mc, "measure")] + opt + dims))
  }

  /** The dimension loop: one `dimension_{idx + 1}` column per dimension, in list order. */
  method AddDimensions(df: Table, ds: seq<string>, cols0: seq<Column>) returns (r: Result<seq<Column>, AdapterError>)
    ensures r == match DimensionColumns(df.columns, ds) case Err(e) => Err(e) case Ok(dims) => Ok(cols0 + dims)
  {
    var cols := cols0;
    assert ds[..0] == [];
    for idx := 0 to |ds|
      invariant DimensionColumns(df.columns, ds[..idx]).Ok?
      invariant cols == cols0 + DimensionColumns(df.columns, ds[..idx]).value
    {
      assert ds[..idx + 1][..idx] == ds[..idx] && ds[..idx + 1][idx] == ds[idx];
      var c := FindColumn(df.columns, ds[idx]);
      if c.None? {
        DimensionErrorPropagates(df.columns, ds, idx + 1);
        return Err(KeyError(ds[idx]));
      }
      cols := cols + [Renamed(c.value, DimensionName(idx + 1))];
    }
    assert ds[..|ds|] == ds;
    r := Ok(cols);
  }

  /** A lookup failure among the first `n` dimensions is the failure of the whole list. */
  lemma {:induction false} DimensionErrorPropagates(cols: seq<Column>, ds: seq<string>, n: nat)
    requires n <= |ds| && DimensionColumns(cols, ds[..n]).Err?
    ensures DimensionColumns(cols, ds) == DimensionColumns(cols, ds[..n])
    decreases |ds|
  {
    if n < |ds| {
      assert ds[..|ds| - 1][..n] == ds[..n];
      DimensionErrorPropagates(cols, ds[..|ds| - 1], n);
    } else {
      assert ds[..n] == ds;
    }
  }

  /** The `entity` and `time` assignments, after the measure column `cols0`. */
  method AddOptional(df: Table, m: MappingDict, parse: Value -> Option<int>, cols0: seq<Column>)
    returns (r: Result<seq<Column>, AdapterError>)
    ensures r == match OptionalColumns(df.columns, m, parse) case Err(e) => Err(e) case Ok(opt) => Ok(cols0 + opt)
  {
    var cols := cols0;
    ghost var opt: seq<Column> := [];
    assert cols == cols0 + opt;
    if Truthy(m.entity) {
      var c := FindColumn(df.columns, m.entity.value);
      if c.None? {
        assert OptionalColumns(df.columns, m, parse) == Err(KeyError(m.entity.value));
        return Err(KeyError(m.entity.value));
      }
      cols := cols + [Renamed(c.value, "entity")];
      opt := [Renamed(c.value, "entity")];
    }
    if Truthy(m.time) {
      var c := FindColumn(df.columns, m.time.value);
      if c.None? {
        assert OptionalColumns(df.columns, m, parse) == Err(KeyError(m.time.value));
        return Err(KeyError(m.time.value));
      }
      var time := Column("time", Datetime64, ParseCells(c.value.cells, parse));
      assert cols + [time] == cols0 + (opt + [time]);
      cols := cols + [time];
      opt := opt + [time];
    }
    assert OptionalColumns(df.columns, m, parse) == Ok(opt);
    r := Ok(cols);
  }

  /** `build_canonical_dataframe`: validate, assign the canonical columns one by one, then check the measure. */
  method BuildCanonicalDataframe(df: Table, m: MappingDict, active: string, parse: Value -> Option<int>)
    returns (r: Result<Table, AdapterError>)
    ensures r == CanonicalFrame(df, m, active, parse)
  {
    if m.measures == [] {
      return Err(SchemaValidationError(NoMeasures));
    }
    if active !in m.measures {
      return Err(SchemaValidationError(ActiveNotConfirmed(active, m.measures)));
    }
    var measure := FindColumn(df.columns, active);
    if measure.None? {
      return Err(KeyError(active));
    }
    var cols := [Renamed(measure.value, "measure")];
    var withOptional := AddOptional(df, m, parse, cols);
    if withOptional.Err? {
      return Err(withOptional.error);
    }
    cols := withOptional.value;
    var withDims := AddDimensions(df, m.dimensions, cols);
    if withDims.Err? {
      return Err(withDims.error);
    }
    if AllMissing(measure.value.cells) {
      return Err(SchemaValidationError(AllNullMeasure));
    }
    r := Ok(Table(df.rows, withDims.value));
  }

  /** One more dimension: its lookup runs after those of the earlier ones. */
  lemma DimensionColumnsSnoc(cols: seq<Column>, ds: seq<string>)
    requires ds != []
    ensures var init, last := ds[..|ds| - 1], ds[|ds| - 1];
      DimensionColumns(cols, ds) ==
        if DimensionColumns(cols, init).Err? then DimensionColumns(cols, init)
        else if FindColumn(cols, last).None? then Err(KeyError(last))
        else Ok(DimensionColumns(cols, init).value + [Renamed(FindColumn(cols, last).value, DimensionName(|ds|))])
  {
  }

  /** The dimension columns exist exactly when every listed column is in the table. */
  lemma {:induction false} DimensionColumnsOk(cols: seq<Column>, ds: seq<string>)
    ensures DimensionColumns(cols, ds).Ok? <==> forall k :: 0 <= k < |ds| ==> ds[k] in Names(cols)
    decreases |ds|
  {
    if ds != [] {
      var init := ds[..|ds| - 1];
      var last := ds[|ds| - 1];
      DimensionColumnsOk(cols, init);
      DimensionColumnsSnoc(cols, ds);
      AllInSnoc(ds, init, Names(cols));
    }
  }

  /** Every element of `ds` is in `names` exactly when those of its front and its last one are. */
  lemma AllInSnoc(ds: seq<string>, init: seq<string>, names: seq<string>)
    requires ds != [] && init == ds[..|ds| - 1]
    ensures (forall k :: 0 <= k < |ds| ==> ds[k] in names) <==>
      (forall k :: 0 <= k < |init| ==> init[k] in names) && ds[|ds| - 1] in names
  {
    if forall k :: 0 <= k < |ds| ==> ds[k] in names {
      forall k | 0 <= k < |init| ensures init[k] in names {
        assert init[k] == ds[k];
      }
    }
    if (forall k :: 0 <= k < |init| ==> init[k] in names) && ds[|ds| - 1] in names {
      forall k | 0 <= k < |ds| ensures ds[k] in names {
        if k < |init| {
          assert init[k] == ds[k];
        }
      }
    }
  }

  /** The `k`-th dimension column is a copy of the `k`-th listed column, named `dimension_{k+1}`. */
  lemma {:induction false} DimensionColumnsContents(cols: seq<Column>, ds: seq<string>, k: nat)
    requires DimensionColumns(cols, ds).Ok? && k < |ds|
    ensures FindColumn(cols, ds[k]).Some?
    ensures DimensionColumns(cols, ds).value[k] == Renamed(FindColumn(cols, ds[k]).value, DimensionName(k + 1))
    decreases |ds|
  {
    var init := ds[..|ds| - 1];
    DimensionColumnsSnoc(cols, ds);
    if k < |ds| - 1 {
      DimensionColumnsContents(cols, init, k);
      assert init[k] == ds[k];
    }
  }

  /** A failing dimension lookup names the first listed column the table lacks. */
  lemma {:induction false} DimensionColumnsError(cols: seq<Column>, ds: seq<string>)
    requires DimensionColumns(cols, ds).Err?
    ensures DimensionColumns(cols, ds).error.KeyError?
    ensures DimensionColumns(cols, ds).error.column in ds && DimensionColumns(cols, ds).error.column !in Names(cols)
    ensures exists k :: FirstMissing(cols, ds, k) && DimensionColumns(cols, ds).error == KeyError(ds[k])
    decreases |ds|
  {
    var init := ds[..|ds| - 1];
    DimensionColumnsSnoc(cols, ds);
    if DimensionColumns(cols, init).Err? {
      DimensionColumnsError(cols, init);
      var k :| FirstMissing(cols, init, k) && DimensionColumns(cols, init).error == KeyError(init[k]);
      assert forall j :: 0 <= j <= k ==> init[j] == ds[j];
      assert FirstMissing(cols, ds, k);
    } else {
      DimensionColumnsOk(cols, init);
      assert forall j :: 0 <= j < |init| ==> init[j] == ds[j];
      assert FirstMissing(cols, ds, |ds| - 1);
    }
  }

  /** `ds[k]` is the first listed column that the table lacks. */
  predicate FirstMissing(cols: seq<Column>, ds: seq<string>, k: int)
  {
    0 <= k < |ds| && ds[k] !in Names(cols) && forall j :: 0 <= j < k ==> ds[j] in Names(cols)
  }

  /** The columns a mapping makes the adapter look up, in lookup order. */
  function Referenced(m: MappingDict, active: string): seq<string>
  {
    [active] + (if Truthy(m.entity) then [m.entity.value] else [])
    + (if Truthy(m.time) then [m.time.value] else []) + m.dimensions
  }

  /** The `entity` column, when the entity mapping is truthy. */
  function EntityPart(cols: seq<Column>, m: MappingDict): seq<Column>
    requires Truthy(m.entity) ==> m.entity.value in Names(cols)
  {
    if Truthy(m.entity) then [Renamed(FindColumn(cols, m.entity.value).value, "entity")] else []
  }

  /** The `time` column, when the time mapping is truthy. */
  function TimePart(cols: seq<Column>, m: MappingDict, parse: Value -> Option<int>): seq<Column>
    requires Truthy(m.time) ==> m.time.value in Names(cols)
  {
    if Truthy(m.time) then [Column("time", Datetime64, ParseCells(FindColumn(cols, m.time.value).value.cells, parse))] else []
  }

  /** The optional columns fail exactly on a truthy mapping to a missing column, entity first. */
  lemma OptionalColumnsMeaning(cols: seq<Column>, m: MappingDict, parse: Value -> Option<int>)
    ensures var r := OptionalColumns(cols, m, parse);
      && (r.Ok? <==> (Truthy(m.entity) ==> m.entity.value in Names(cols)) && (Truthy(m.time) ==> m.time.value in Names(cols)))
      && (r.Ok? ==> r.value == EntityPart(cols, m) + TimePart(cols, m, parse))
      && (r.Err? && Truthy(m.entity) && m.entity.value !in Names(cols) ==> r.error == KeyError(m.entity.value))
      && (r.Err? && !(Truthy(m.entity) && m.entity.value !in Names(cols)) ==> r.error == KeyError(m.time.value) && Truthy(m.time) && m.time.value !in Names(cols))
  {
  }

  /** Every column the mapping makes the adapter look up is in the table. */
  predicate Buildable(cols: seq<Column>, m: MappingDict, active: string)
  {
    && active in Names(cols)
    && (Truthy(m.entity) ==> m.entity.value in Names(cols))
    && (Truthy(m.time) ==> m.time.value in Names(cols))
    && DimensionColumns(cols, m.dimensions).Ok?
  }

  /** The canonical columns of a buildable mapping: `measure`, the optional parts, then the dimensions. */
  function CanonicalColumns(cols: seq<Column>, m: MappingDict, active: string, parse: Value -> Option<int>): seq<Column>
    requires Buildable(cols, m, active)
  {
    [Renamed(FindColumn(cols, active).value, "measure")]
    + (EntityPart(cols, m) + TimePart(cols, m, parse))
    + DimensionColumns(cols, m.dimensions).value
  }

  /** A successful canonical table, spelled out by its parts. */
  lemma CanonicalFrameParts(df: Table, m: MappingDict, active: string, parse: Value -> Option<int>)
    requires CanonicalFrame(df, m, active, parse).Ok?
    ensures active in Names(df.columns)
    ensures Truthy(m.entity) ==> m.entity.value in Names(df.columns)
    ensures Truthy(m.time) ==> m.time.value in Names(df.columns)
    ensures DimensionColumns(df.columns, m.dimensions).Ok?
    ensures Buildable(df.columns, m, active)
    ensures !AllMissing(FindColumn(df.columns, active).value.cells)
    ensures CanonicalFrame(df, m, active, parse).value == Table(df.rows, CanonicalColumns(df.columns, m, active, parse))
  {
    OptionalColumnsMeaning(df.columns, m, parse);
  }

  /**
   * The errors, in the order they are raised: no measures, then an active measure not among them,
   * then a lookup of the active measure column; each can only come from its own condition.
   */
  lemma ValidationOrder(df: Table, m: MappingDict, active: string, parse: Value -> Option<int>)
    ensures m.measures == [] ==> CanonicalFrame(df, m, active, parse) == Err(SchemaValidationError(NoMeasures))
    ensures m.measures != [] && active !in m.measures ==>
      CanonicalFrame(df, m, active, parse) == Err(SchemaValidationError(ActiveNotConfirmed(active, m.measures)))
    ensures m.measures != [] && active in m.measures && active !in Names(df.columns) ==>
      CanonicalFrame(df, m, active, parse) == Err(KeyError(active))
    ensures CanonicalFrame(df, m, active, parse) == Err(SchemaValidationError(NoMeasures)) ==> m.measures == []
    ensures CanonicalFrame(df, m, active, parse) == Err(SchemaValidationError(ActiveNotConfirmed(active, m.measures))) ==>
      m.measures != [] && active !in m.measures
  {
    OptionalColumnsMeaning(df.columns, m, parse);
    if CanonicalFrame(df, m, active, parse).Err? && DimensionColumns(df.columns, m.dimensions).Err? {
      DimensionColumnsError(df.columns, m.dimensions);
    }
  }

  /** A `KeyError` names a column the adapter looks up and the table lacks: existence is never validated. */
  lemma KeyErrorMeaning(df: Table, m: MappingDict, active: string, parse: Value -> Option<int>)
    requires CanonicalFrame(df, m, active, parse).Err? && CanonicalFrame(df, m, active, parse).error.KeyError?
    ensures CanonicalFrame(df, m, active, parse).error.column in Referenced(m, active)
    ensures CanonicalFrame(df, m, active, parse).error.column !in Names(df.columns)
  {
    OptionalColumnsMeaning(df.columns, m, parse);
    if active in Names(df.columns) && OptionalColumns(df.columns, m, parse).Ok? {
      DimensionColumnsError(df.columns, m.dimensions);
    }
  }

  /** The all-missing check comes last: it fails only once every lookup has succeeded. */
  lemma AllNullMeasureMeaning(df: Table, m: MappingDict, active: string, parse: Value -> Option<int>)
    requires CanonicalFrame(df, m, active, parse) == Err(SchemaValidationError(AllNullMeasure))
    ensures ReferencedPresent(df.columns, m, active)
    ensures AllMissing(FindColumn(df.columns, active).value.cells)
  {
    OptionalColumnsMeaning(df.columns, m, parse);
    if DimensionColumns(df.columns, m.dimensions).Err? {
      DimensionColumnsError(df.columns, m.dimensions);
    }
    DimensionColumnsOk(df.columns, m.dimensions);
  }

  /** Every column the mapping makes the adapter look up is in the table. */
  predicate ReferencedPresent(cols: seq<Column>, m: MappingDict, active: string)
  {
    && active in Names(cols)
    && (Truthy(m.entity) ==> m.entity.value in Names(cols))
    && (Truthy(m.time) ==> m.time.value in Names(cols))
    && forall k :: 0 <= k < |m.dimensions| ==> m.dimensions[k] in Names(cols)
  }

  lemma ReferencedPresentMeaning(cols: seq<Column>, m: MappingDict, active: string)
    ensures ReferencedPresent(cols, m, active) <==> forall x :: x in Referenced(m, active) ==> x in Names(cols)
  {
    var refs := Referenced(m, active);
    assert active in refs;
    assert Truthy(m.entity) ==> m.entity.value in refs;
    assert Truthy(m.time) ==> m.time.value in refs;
    assert forall k :: 0 <= k < |m.dimensions| ==> m.dimensions[k] in refs;
  }

  /**
   * The adapter succeeds exactly when measures are confirmed, the active one is among them, every
   * referenced column exists and the active measure column has a value.
   */
  lemma CanonicalFrameOkIff(df: Table, m: MappingDict, active: string, parse: Value -> Option<int>)
    ensures CanonicalFrame(df, m, active, parse).Ok? <==>
      && m.measures != [] && active in m.measures
      && ReferencedPresent(df.columns, m, active)
      && !AllMissing(FindColumn(df.columns, active).value.cells)
  {
    OptionalColumnsMeaning(df.columns, m, parse);
    DimensionColumnsOk(df.columns, m.dimensions);
  }

  /** The position of `dimension_1`: after `measure` and whichever of `entity` and `time` are present. */
  function DimensionOffset(m: MappingDict): nat
  {
    1 + (if Truthy(m.entity) then 1 else 0) + (if Truthy(m.time) then 1 else 0)
  }

  /** Positions in a table laid out as a head column, two optional parts and a tail. */
  lemma Layout(cols: seq<Column>, first: Column, a: seq<Column>, b: seq<Column>, rest: seq<Column>)
    requires cols == [first] + (a + b) + rest
    ensures |cols| == 1 + |a| + |b| + |rest| && cols[0] == first
    ensures |a| > 0 ==> cols[1] == a[0]
    ensures |b| > 0 ==> cols[1 + |a|] == b[0]
    ensures forall k :: 0 <= k < |rest| ==> cols[1 + |a| + |b| + k] == rest[k]
  {
  }

  /**
   * On success the canonical table keeps the row count, has one column per canonical field, and
   * starts with `measure`, a copy of the active measure column holding at least one value.
   */
  lemma SuccessMeasure(df: Table, m: MappingDict, active: string, parse: Value -> Option<int>)
    requires CanonicalFrame(df, m, active, parse).Ok?
    ensures CanonicalFrame(df, m, active, parse).value.rows == df.rows
    ensures |CanonicalFrame(df, m, active, parse).value.columns| == DimensionOffset(m) + |m.dimensions|
    ensures FindColumn(df.columns, active).Some?
    ensures CanonicalFrame(df, m, active, parse).value.columns[0] == Renamed(FindColumn(df.columns, active).value, "measure")
    ensures exists k :: 0 <= k < |FindColumn(df.columns, active).value.cells| && FindColumn(df.columns, active).value.cells[k].Some?
  {
    CanonicalFrameParts(df, m, active, parse);
    ColumnsMeasure(df.columns, m, active, parse);
  }

  lemma ColumnsMeasure(cols: seq<Column>, m: MappingDict, active: string, parse: Value -> Option<int>)
    requires Buildable(cols, m, active)
    ensures |CanonicalColumns(cols, m, active, parse)| == DimensionOffset(m) + |m.dimensions|
    ensures CanonicalColumns(cols, m, active, parse)[0] == Renamed(FindColumn(cols, active).value, "measure")
  {
    Layout(CanonicalColumns(cols, m, active, parse), Renamed(FindColumn(cols, active).value, "measure"),
      EntityPart(cols, m), TimePart(cols, m, parse), DimensionColumns(cols, m.dimensions).value);
  }

  /**
   * On success `entity`, a copy of the entity column, follows `measure` exactly when the entity
   * mapping is truthy, and `time`, the time column parsed cell by cell, comes next exactly when the
   * time mapping is truthy.
   */
  lemma SuccessOptional(df: Table, m: MappingDict, active: string, parse: Value -> Option<int>)
    requires CanonicalFrame(df, m, active, parse).Ok?
    ensures Truthy(m.entity) ==>
      && FindColumn(df.columns, m.entity.value).Some?
      && CanonicalFrame(df, m, active, parse).value.columns[1] == Renamed(FindColumn(df.columns, m.entity.value).value, "entity")
    ensures Truthy(m.time) ==>
      && FindColumn(df.columns, m.time.value).Some?
      && |CanonicalFrame(df, m, active, parse).value.columns| >= DimensionOffset(m)
      && CanonicalFrame(df, m, active, parse).value.columns[DimensionOffset(m) - 1]
         == Column("time", Datetime64, ParseCells(FindColumn(df.columns, m.time.value).value.cells, parse))
  {
    CanonicalFrameParts(df, m, active, parse);
    ColumnsOptional(df.columns, m, active, parse);
  }

  lemma ColumnsOptional(cols: seq<Column>, m: MappingDict, active: string, parse: Value -> Option<int>)
    requires Buildable(cols, m, active)
    ensures Truthy(m.entity) ==>
      && FindColumn(cols, m.entity.value).Some?
      && CanonicalColumns(cols, m, active, parse)[1] == Renamed(FindColumn(cols, m.entity.value).value, "entity")
    ensures Truthy(m.time) ==>
      && FindColumn(cols, m.time.value).Some?
      && |CanonicalColumns(cols, m, active, parse)| >= DimensionOffset(m)
      && CanonicalColumns(cols, m, active, parse)[DimensionOffset(m) - 1]
         == Column("time", Datetime64, ParseCells(FindColumn(cols, m.time.value).value.cells, parse))
  {
    Layout(CanonicalColumns(cols, m, active, parse), Renamed(FindColumn(cols, active).value, "measure"),
      EntityPart(cols, m), TimePart(cols, m, parse), DimensionColumns(cols, m.dimensions).value);
  }

  /** On success `dimension_{k+1}` is a copy of the `k`-th dimension column, in list order, after the other fields. */
  lemma SuccessDimensions(df: Table, m: MappingDict, active: string, parse: Value -> Option<int>, k: nat)
    requires CanonicalFrame(df, m, active, parse).Ok? && k < |m.dimensions|
    ensures FindColumn(df.columns, m.dimensions[k]).Some?
    ensures DimensionOffset(m) + k < |CanonicalFrame(df, m, active, parse).value.columns|
    ensures CanonicalFrame(df, m, active, parse).value.columns[DimensionOffset(m) + k]
      == Renamed(FindColumn(df.columns, m.dimensions[k]).value, DimensionName(k + 1))
  {
    CanonicalFrameParts(df, m, active, parse);
    ColumnsDimension(df.columns, m, active, parse, k);
  }

  lemma ColumnsDimension(cols: seq<Column>, m: MappingDict, active: string, parse: Value -> Option<int>, k: nat)
    requires Buildable(cols, m, active) && k < |m.dimensions|
    ensures FindColumn(cols, m.dimensions[k]).Some?
    ensures DimensionOffset(m) + k < |CanonicalColumns(cols, m, active, parse)|
    ensures CanonicalColumns(cols, m, active, parse)[DimensionOffset(m) + k]
      == Renamed(FindColumn(cols, m.dimensions[k]).value, DimensionName(k + 1))
  {
    var head := [Renamed(FindColumn(cols, active).value, "measure")] + (EntityPart(cols, m) + TimePart(cols, m, parse));
    OptionalPartsSizes(cols, m, parse);
    DimensionColumnsContents(cols, m.dimensions, k);
    TailAt(head, DimensionColumns(cols, m.dimensions).value, k);
  }

  lemma OptionalPartsSizes(cols: seq<Column>, m: MappingDict, parse: Value -> Option<int>)
    requires Truthy(m.entity) ==> m.entity.value in Names(cols)
    requires Truthy(m.time) ==> m.time.value in Names(cols)
    ensures 1 + |EntityPart(cols, m)| + |TimePart(cols, m, parse)| == DimensionOffset(m)
  {
  }

  /** The `k`-th element of the tail of a concatenation. */
  lemma TailAt<T>(head: seq<T>, tail: seq<T>, k: nat)
    requires k < |tail|
    ensures |head + tail| == |head| + |tail| && (head + tail)[|head| + k] == tail[k]
  {
  }

  lemma DimensionNameInjective(a: nat, b: nat)
    requires a != b
    ensures DimensionName(a) != DimensionName(b)
  {
    NatToStringInjective(a, b);
    assert DimensionName(a)[10..] == NatToString(a) && DimensionName(b)[10..] == NatToString(b);
  }

  lemma DimensionNameHead(k: nat)
    ensures |DimensionName(k)| > 10 && DimensionName(k)[0] == 'd'
  {
  }

  /** Each dimension column is named after its position, counting from 1. */
  lemma DimensionNames(cols: seq<Column>, ds: seq<string>)
    requires DimensionColumns(cols, ds).Ok?
    ensures forall k :: 0 <= k < |DimensionColumns(cols, ds).value| ==> DimensionColumns(cols, ds).value[k].name == DimensionName(k + 1)
  {
    DimensionColumnsOk(cols, ds);
    forall k | 0 <= k < |DimensionColumns(cols, ds).value| ensures DimensionColumns(cols, ds).value[k].name == DimensionName(k + 1) {
      DimensionColumnsContents(cols, ds, k);
    }
  }

  /** Names laid out as `measure`, then at most one `entity` and one `time`, then `dimension_1`.. are all different. */
  lemma PartsNamesDistinct(first: Column, a: seq<Column>, b: seq<Column>, rest: seq<Column>)
    requires first.name == "measure" && |a| <= 1 && |b| <= 1
    requires |a| == 1 ==> a[0].name == "entity"
    requires |b| == 1 ==> b[0].name == "time"
    requires forall k :: 0 <= k < |rest| ==> rest[k].name == DimensionName(k + 1)
    ensures var cols := [first] + (a + b) + rest;
      forall i, j :: 0 <= i < j < |cols| ==> cols[i].name != cols[j].name
  {
    var prefix := [first] + (a + b);
    var cols := prefix + rest;
    assert |prefix| == 1 + |a| + |b| && prefix[0] == first;
    assert |a| == 1 ==> prefix[1] == a[0];
    assert |b| == 1 ==> prefix[1 + |a|] == b[0];
    DimensionPositions(cols, prefix, |a| + |b|, rest);
    IndexedNamesDistinct(cols, |a|, |b|);
  }

  /** Dimension `k` of the layout sits right after the prefix, at position `k + 1 + offset`. */
  lemma DimensionPositions(cols: seq<Column>, prefix: seq<Column>, offset: nat, rest: seq<Column>)
    requires cols == prefix + rest && |prefix| == 1 + offset
    requires forall k :: 0 <= k < |rest| ==> rest[k].name == DimensionName(k + 1)
    ensures |cols| == 1 + offset + |rest|
    ensures forall p :: 1 + offset <= p < |cols| ==> cols[p].name == DimensionName(p - offset)
  {
    forall p | 1 + offset <= p < |cols| ensures cols[p].name == DimensionName(p - offset) {
      assert cols[p] == rest[p - |prefix|];
    }
  }

  /** The same layout, stated position by position. */
  lemma IndexedNamesDistinct(cols: seq<Column>, na: nat, nb: nat)
    requires na <= 1 && nb <= 1 && |cols| >= 1 + na + nb
    requires cols[0].name == "measure"
    requires na == 1 ==> cols[1].name == "entity"
    requires nb == 1 ==> cols[1 + na].name == "time"
    requires forall p :: 1 + na + nb <= p < |cols| ==> cols[p].name == DimensionName(p - na - nb)
    ensures forall i, j :: 0 <= i < j < |cols| ==> cols[i].name != cols[j].name
  {
    var base := 1 + na + nb;
    forall i | 0 <= i < |cols|
      ensures cols[i].name != ""
      ensures cols[i].name[0] == HeadAt(i, na, nb)
    {
      if i >= base {
        DimensionNameHead(i - na - nb);
      }
    }
    forall i, j | base <= i < j < |cols| ensures cols[i].name != cols[j].name {
      DimensionNameInjective(i - na - nb, j - na - nb);
    }
    DistinctByHead(cols, na, nb);
  }

  /** The first letter of the canonical name at position `i`. */
  function HeadAt(i: nat, na: nat, nb: nat): char
  {
    if i == 0 then 'm' else if i < 1 + na then 'e' else if i < 1 + na + nb then 't' else 'd'
  }

  /** Names whose first letters differ by position, and which differ among the dimensions, all differ. */
  lemma DistinctByHead(cols: seq<Column>, na: nat, nb: nat)
    requires na <= 1 && nb <= 1
    requires forall i :: 0 <= i < |cols| ==> cols[i].name != "" && cols[i].name[0] == HeadAt(i, na, nb)
    requires forall i, j :: 1 + na + nb <= i < j < |cols| ==> cols[i].name != cols[j].name
    ensures forall i, j :: 0 <= i < j < |cols| ==> cols[i].name != cols[j].name
  {
    forall i, j | 0 <= i < j < |cols| && i < 1 + na + nb ensures cols[i].name != cols[j].name {
      assert HeadAt(i, na, nb) != HeadAt(j, na, nb);
    }
  }

  /** The canonical columns are named `measure`, `entity`, `time` and `dimension_k`, all different. */
  lemma CanonicalNamesDistinct(df: Table, m: MappingDict, active: string, parse: Value -> Option<int>)
    requires CanonicalFrame(df, m, active, parse).Ok?
    ensures var cols := CanonicalFrame(df, m, active, parse).value.columns;
      forall i, j :: 0 <= i < j < |cols| ==> cols[i].name != cols[j].name
  {
    CanonicalFrameParts(df, m, active, parse);
    ColumnsDistinct(df.columns, m, active, parse);
  }

  lemma ColumnsDistinct(cols: seq<Column>, m: MappingDict, active: string, parse: Value -> Option<int>)
    requires Buildable(cols, m, active)
    ensures var cs := CanonicalColumns(cols, m, active, parse);
      forall i, j :: 0 <= i < j < |cs| ==> cs[i].name != cs[j].name
  {
    DimensionNames(cols, m.dimensions);
    PartsNamesDistinct(Renamed(FindColumn(cols, active).value, "measure"),
      EntityPart(cols, m), TimePart(cols, m, parse), DimensionColumns(cols, m.dimensions).value);
  }

  /** In a data frame, the column found under a name has one cell per row. */
  lemma FoundColumnLength(df: Table, name: string)
    requires Valid(df) && name in Names(df.columns)
    ensures |FindColumn(df.columns, name).value.cells| == df.rows
  {
    var k := IndexOfName(df.columns, name).value;
    assert FindColumn(df.columns, name).value == df.columns[k];
  }

  /** A layout of columns with `n` cells each has `n` cells in every column. */
  lemma LayoutLengths(cols: seq<Column>, first: Column, a: seq<Column>, b: seq<Column>, rest: seq<Column>, n: nat)
    requires cols == [first] + (a + b) + rest
    requires |first.cells| == n
    requires forall c :: c in a ==> |c.cells| == n
    requires forall c :: c in b ==> |c.cells| == n
    requires forall k :: 0 <= k < |rest| ==> |rest[k].cells| == n
    ensures forall i :: 0 <= i < |cols| ==> |cols[i].cells| == n
  {
    forall i | 0 <= i < |cols| ensures |cols[i].cells| == n {
      if i >= 1 + |a| + |b| {
        assert cols[i] == rest[i - 1 - |a| - |b|];
      } else if i > 0 {
        assert cols[i] in a || cols[i] in b;
      }
    }
  }

  /** A successful canonical table is a data frame: every column has one cell per row. */
  lemma CanonicalFrameValid(df: Table, m: MappingDict, active: string, parse: Value -> Option<int>)
    requires Valid(df) && CanonicalFrame(df, m, active, parse).Ok?
    ensures Valid(CanonicalFrame(df, m, active, parse).value)
  {
    CanonicalFrameParts(df, m, active, parse);
    ColumnsLengths(df, m, active, parse);
  }

  lemma ColumnsLengths(df: Table, m: MappingDict, active: string, parse: Value -> Option<int>)
    requires Valid(df) && Buildable(df.columns, m, active)
    ensures var cs := CanonicalColumns(df.columns, m, active, parse);
      forall i :: 0 <= i < |cs| ==> |cs[i].cells| == df.rows
  {
    var dims := DimensionColumns(df.columns, m.dimensions).value;
    FoundColumnLength(df, active);
    if Truthy(m.entity) {
      FoundColumnLength(df, m.entity.value);
    }
    if Truthy(m.time) {
      FoundColumnLength(df, m.time.value);
    }
    forall k | 0 <= k < |dims| ensures |dims[k].cells| == df.rows {
      DimensionColumnsContents(df.columns, m.dimensions, k);
      FoundColumnLength(df, m.dimensions[k]);
    }
    LayoutLengths(CanonicalColumns(df.columns, m, active, parse), Renamed(FindColumn(df.columns, active).value, "measure"),
      EntityPart(df.columns, m), TimePart(df.columns, m, parse), dims, df.rows);
  }

  /** `dimension_1` .. `dimension_n`. */
  function DimensionNameList(n: nat): (r: seq<string>)
    ensures |r| == n && forall k :: 0 <= k < n ==> r[k] == DimensionName(k + 1)
  {
    seq(n, k requires 0 <= k < n => DimensionName(k + 1))
  }

  /** The column names a successful build produces, in order, read off the mapping alone. */
  function CanonicalNames(m: MappingDict): seq<string>
  {
    ["measure"] + ((if Truthy(m.entity) then ["entity"] else []) + (if Truthy(m.time) then ["time"] else []))
      + DimensionNameList(|m.dimensions|)
  }

  lemma {:induction false} NamesAppend(a: seq<Column>, b: seq<Column>)
    ensures Names(a + b) == Names(a) + Names(b)
  {
    if a != [] {
      assert (a + b)[1..] == a[1..] + b;
      NamesAppend(a[1..], b);
    }
  }

  /** The names of a head column, two optional parts and a tail. */
  lemma PartsNames(first: Column, a: seq<Column>, b: seq<Column>, rest: seq<Column>)
    ensures Names([first] + (a + b) + rest) == [first.name] + (Names(a) + Names(b)) + Names(rest)
  {
    NamesAppend(a, b);
    NamesAppend([first], a + b);
    NamesAppend([first] + (a + b), rest);
  }

  /** On success the columns are named `measure`, then `entity` and `time` when mapped, then the dimensions. */
  lemma CanonicalFrameNames(df: Table, m: MappingDict, active: string, parse: Value -> Option<int>)
    requires CanonicalFrame(df, m, active, parse).Ok?
    ensures Names(CanonicalFrame(df, m, active, parse).value.columns) == CanonicalNames(m)
  {
    CanonicalFrameParts(df, m, active, parse);
    ColumnsNames(df.columns, m, active, parse);
  }

  lemma ColumnsNames(cols: seq<Column>, m: MappingDict, active: string, parse: Value -> Option<int>)
    requires Buildable(cols, m, active)
    ensures Names(CanonicalColumns(cols, m, active, parse)) == CanonicalNames(m)
  {
    var dims := DimensionColumns(cols, m.dimensions).value;
    DimensionNameListOf(cols, m.dimensions);
    OptionalPartsNames(cols, m, parse);
    PartsNames(Renamed(FindColumn(cols, active).value, "measure"), EntityPart(cols, m), TimePart(cols, m, parse), dims);
  }

  lemma DimensionNameListOf(cols: seq<Column>, ds: seq<string>)
    requires DimensionColumns(cols, ds).Ok?
    ensures Names(DimensionColumns(cols, ds).value) == DimensionNameList(|ds|)
  {
    DimensionNames(cols, ds);
  }

  lemma OptionalPartsNames(cols: seq<Column>, m: MappingDict, parse: Value -> Option<int>)
    requires Truthy(m.entity) ==> m.entity.value in Names(cols)
    requires Truthy(m.time) ==> m.time.value in Names(cols)
    ensures Names(EntityPart(cols, m)) == if Truthy(m.entity) then ["entity"] else []
    ensures Names(TimePart(cols, m, parse)) == if Truthy(m.time) then ["time"] else []
  {
  }

  /**
   * The v4 confirmation writes its measure under the key `measure`, while the adapter reads
   * `measures`; read as the adapter reads it, a confirmed mapping therefore never has measures.
   */
  function FromConfirmed(c: V4SemanticMapper.Confirmed): (m: MappingDict)
    ensures m.measures == [] && m.entity == c.entity && m.time == c.time && m.dimensions == c.dimensions
  {
    MappingDict([], c.entity, c.time, c.dimensions)
  }

  /** Feeding the confirmation output straight to the adapter always fails validation. */
  lemma ConfirmedMappingAlwaysRejected(c: V4SemanticMapper.Confirmed, df: Table, active: string, parse: Value -> Option<int>)
    ensures CanonicalFrame(df, FromConfirmed(c), active, parse) == Err(SchemaValidationError(NoMeasures))
  {
  }
}
