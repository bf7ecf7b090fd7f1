/**
 * The v3 schema adapter: checks that the required canonical field is mapped, renames the
 * mapped raw columns to their canonical fields and keeps only the canonical columns.
 * The mapping is the confirmed field-to-column dictionary, a sequence of bindings in insertion order.
 */
module V3SchemaAdapter {
  import opened Basics
  import opened Text
  import opened Table
  import opened V3CanonicalSchema
  import opened V3SemanticMapper
  import opened V3HumanConfirmation

  datatype SchemaValidationError = SchemaValidationError(message: string)

  /** The keys of the mapping. */
  function MappedFields(m: seq<Binding>): set<string>
  {
    set b | b in m :: b.field
  }

  /**
   * `validate_mappings`: the required keys that are not mapped. The required tier has a single
   * key, so a non-empty set of missing keys is that whole tier and the message lists it.
   */
  function ValidateMappings(m: seq<Binding>): (r: Option<SchemaValidationError>)
    ensures r.Some? <==> "revenue" !in MappedFields(m)
    ensures r.Some? ==> r.value.message == "Missing required canonical fields: revenue"
  {
    assert KeySet(GetRequiredFields()) == {"revenue"} by {
      assert Keys(GetRequiredFields()) == ["revenue"];
    }
    var missing := KeySet(GetRequiredFields()) - MappedFields(m);
    assert "revenue" !in MappedFields(m) ==> "revenue" in missing;
    if missing != {} then
      Some(SchemaValidationError("Missing required canonical fields: " + Join(Keys(GetRequiredFields()), ", ")))
    else None
  }

  /** `rename_map[column]` for `{v: k for k, v in final_mapping.items()}`: the field of the last binding to `column`. */
  function RenameTarget(m: seq<Binding>, column: string): Option<string>
    decreases |m|
  {
    if m == [] then None
    else if m[|m| - 1].column == column then Some(m[|m| - 1].field)
    else RenameTarget(m[..|m| - 1], column)
  }

  /** Binding `i` is the last one whose column is `column`. */
  predicate LastBindingTo(m: seq<Binding>, column: string, i: int)
  {
    0 <= i < |m| && m[i].column == column && forall j :: i < j < |m| ==> m[j].column != column
  }

  /** The new name `df.rename` gives a column: its rename target, or its own name when it has none. */
  function NewName(m: seq<Binding>, name: string): string
  {
    match RenameTarget(m, name)
    case Some(f) => f
    case None => name
  }

  /** `df.rename(columns=rename_map)`: every column keeps its place and cells and takes its new name. */
  function RenameColumns(cols: seq<Column>, m: seq<Binding>): (r: seq<Column>)
    ensures |r| == |cols|
    ensures forall k :: 0 <= k < |cols| ==> r[k] == Column(NewName(m, cols[k].name), cols[k].dtype, cols[k].cells)
  {
    seq(|cols|, k requires 0 <= k < |cols| => Column(NewName(m, cols[k].name), cols[k].dtype, cols[k].cells))
  }

  /** `[col for col in canonical_df.columns if col in allowed_fields]`, as columns. */
  function FilterAllowed(cols: seq<Column>): (r: seq<Column>)
    ensures IsSubsequence(r, cols)
    ensures forall c :: c in r ==> c.name in AllowedFields()
    ensures forall c :: c in cols && c.name in AllowedFields() ==> c in r
    decreases |cols|
  {
    if cols == [] then []
    else
      var rest := FilterAllowed(cols[1..]);
      assert forall c :: c in cols <==> c == cols[0] || c in cols[1..];
      if cols[0].name in AllowedFields() then [cols[0]] + rest else rest
  }

  /** The columns called `name`, in table order. */
  function Named(cols: seq<Column>, name: string): (r: seq<Column>)
    ensures forall c :: c in r <==> c in cols && c.name == name
    decreases |cols|
  {
    if cols == [] then []
    else
      assert forall c :: c in cols <==> c == cols[0] || c in cols[1..];
      (if cols[0].name == name then [cols[0]] else []) + Named(cols[1..], name)
  }

  /**
   * `df[labels]`: for each label of the list, in list order, every column carrying that label,
   * so a label shared by several columns selects all of them, once per occurrence in the list.
   */
  function Select(cols: seq<Column>, labels: seq<string>): (r: seq<Column>)
    ensures forall c :: c in r <==> c in cols && c.name in labels
    decreases |labels|
  {
    if labels == [] then []
    else
      assert forall l :: l in labels <==> l == labels[0] || l in labels[1..];
      Named(cols, labels[0]) + Select(cols, labels[1..])
  }

  /**
   * `adapt_dataframe`: validation first, then rename, then `canonical_df[canonical_columns]` with
   * the canonical names in table order.
   */
  function AdaptDataframe(df: Table, m: seq<Binding>): (r: Result<Table, SchemaValidationError>)
    ensures r.Err? <==> "revenue" !in MappedFields(m)
    ensures r.Err? ==> r.error.message == "Missing required canonical fields: revenue"
    ensures r.Ok? ==> r.value.rows == df.rows
    ensures r.Ok? ==> forall c :: c in r.value.columns <==> c in RenameColumns(df.columns, m) && c.name in AllowedFields()
  {
    match ValidateMappings(m)
    case Some(e) => Err(e)
    case None =>
      var renamed := RenameColumns(df.columns, m);
      var kept := FilterAllowed(renamed);
      assert forall c :: c in renamed && c.name in AllowedFields() ==> c.name in Names(kept) by {
        forall c | c in renamed && c.name in AllowedFields() ensures c.name in Names(kept) {
          var i :| 0 <= i < |kept| && kept[i] == c;
          assert Names(kept)[i] == c.name;
        }
      }
      assert forall l :: l in Names(kept) ==> l in AllowedFields() by {
        forall l | l in Names(kept) ensures l in AllowedFields() {
          var i :| 0 <= i < |kept| && Names(kept)[i] == l;
          assert kept[i] in kept;
        }
      }
      Ok(Table(df.rows, Select(renamed, Names(kept))))
  }

  /** The rename target is the field of the last binding to the column, and absent when no binding names it. */
  lemma {:induction false} RenameTargetMeaning(m: seq<Binding>, column: string)
    ensures RenameTarget(m, column).None? <==> forall i :: 0 <= i < |m| ==> m[i].column != column
    ensures RenameTarget(m, column).Some? ==>
      exists i :: LastBindingTo(m, column, i) && m[i].field == RenameTarget(m, column).value
    decreases |m|
  {
    if m != [] {
      var init := m[..|m| - 1];
      RenameTargetMeaning(init, column);
      assert forall i :: 0 <= i < |init| ==> init[i] == m[i];
      if m[|m| - 1].column == column {
        assert LastBindingTo(m, column, |m| - 1);
      } else if RenameTarget(init, column).Some? {
        var i :| LastBindingTo(init, column, i) && init[i].field == RenameTarget(init, column).value;
        assert LastBindingTo(m, column, i);
      }
    }
  }

  /** When several fields are mapped to the same column, the last of them names it. */
  lemma LaterFieldWins(m: seq<Binding>, j: nat)
    requires j < |m| && LastBindingTo(m, m[j].column, j)
    ensures NewName(m, m[j].column) == m[j].field
  {
    RenameTargetMeaning(m, m[j].column);
    var i :| LastBindingTo(m, m[j].column, i) && m[i].field == RenameTarget(m, m[j].column).value;
    assert i == j;
  }

  /** Adapting fails exactly when "revenue" is not mapped, whatever the table holds. */
  lemma AdaptOkIff(df: Table, m: seq<Binding>)
    ensures AdaptDataframe(df, m).Ok? <==> "revenue" in MappedFields(m)
    ensures AdaptDataframe(df, m).Err? ==> AdaptDataframe(df, m).error.message == "Missing required canonical fields: revenue"
  {
  }

  /** On success the rows are kept and every column is a canonical field of one of the three tiers. */
  lemma AdaptOutputAllowed(df: Table, m: seq<Binding>)
    requires AdaptDataframe(df, m).Ok?
    ensures AdaptDataframe(df, m).value.rows == df.rows
    ensures forall c :: c in AdaptDataframe(df, m).value.columns ==> c.name in AllowedFields()
  {
  }

  /**
   * On success a renamed column is kept exactly when its new name is canonical. When the kept
   * names are pairwise distinct, the columns are exactly the kept renamed columns, in table order.
   */
  lemma AdaptKeepsOrder(df: Table, m: seq<Binding>, k: nat)
    requires AdaptDataframe(df, m).Ok? && k < |df.columns|
    ensures var kept := FilterAllowed(RenameColumns(df.columns, m));
      Distinct(Names(kept)) ==>
        AdaptDataframe(df, m).value.columns == kept && IsSubsequence(AdaptDataframe(df, m).value.columns, RenameColumns(df.columns, m))
    ensures RenameColumns(df.columns, m)[k] in AdaptDataframe(df, m).value.columns <==> NewName(m, df.columns[k].name) in AllowedFields()
  {
    var renamed := RenameColumns(df.columns, m);
    var kept := FilterAllowed(renamed);
    assert renamed[k] in renamed;
    if renamed[k].name in AllowedFields() {
      assert renamed[k] in kept;
      var i := NameOfMember(kept, renamed[k]);
    }
    if Distinct(Names(kept)) {
      SelectFromKept(renamed, Names(kept), 0);
      SelectDistinct(kept, 0);
      assert Names(kept)[0..] == Names(kept) && kept[0..] == kept;
    }
  }

  /**
   * When the rename gives two kept columns the same canonical name, `df[labels]` selects both of
   * them for each of the two labels, so the result has more columns than there are canonical labels.
   */
  lemma AdaptRepeatsCollidingColumns(df: Table, m: seq<Binding>, a: nat, b: nat)
    requires AdaptDataframe(df, m).Ok? && a < b < |df.columns|
    requires NewName(m, df.columns[a].name) == NewName(m, df.columns[b].name)
    requires NewName(m, df.columns[a].name) in AllowedFields()
    ensures |AdaptDataframe(df, m).value.columns| > |FilterAllowed(RenameColumns(df.columns, m))|
  {
    var renamed := RenameColumns(df.columns, m);
    var kept := FilterAllowed(renamed);
    var name := renamed[a].name;
    SelectFromKept(renamed, Names(kept), 0);
    assert Names(kept)[0..] == Names(kept);
    NamedTwo(renamed, name, a, b);
    NamedKept(renamed, name);
    assert renamed[a] in kept;
    var i := NameOfMember(kept, renamed[a]);
    EveryNamePicks(kept);
    SelectLonger(kept, Names(kept), i);
  }

  /** Each name of a sequence of columns picks at least its own column. */
  lemma EveryNamePicks(cols: seq<Column>)
    ensures forall j :: 0 <= j < |cols| ==> Named(cols, Names(cols)[j]) != []
  {
    forall j | 0 <= j < |cols|
      ensures Named(cols, Names(cols)[j]) != []
    {
      assert cols[j] in cols;
      assert cols[j] in Named(cols, Names(cols)[j]);
    }
  }

  /** A member of a sequence of columns lends its name to the sequence's names, at some position. */
  lemma NameOfMember(cols: seq<Column>, c: Column) returns (i: nat)
    requires c in cols
    ensures i < |cols| && cols[i] == c && Names(cols)[i] == c.name
  {
    i :| 0 <= i < |cols| && cols[i] == c;
  }

  /** Two columns with the same name are both picked by that name. */
  lemma {:induction false} NamedTwo(cols: seq<Column>, name: string, a: nat, b: nat)
    requires a < b < |cols| && cols[a].name == name && cols[b].name == name
    ensures |Named(cols, name)| >= 2
    decreases |cols|
  {
    if a == 0 {
      assert cols[b] in cols[1..];
      assert cols[b] in Named(cols[1..], name);
    } else {
      assert cols[1..][a - 1] == cols[a] && cols[1..][b - 1] == cols[b];
      NamedTwo(cols[1..], name, a - 1, b - 1);
    }
  }

  /** Each name picking at least one column, and label `i` at least two, gives more columns than labels. */
  lemma {:induction false} SelectLonger(cols: seq<Column>, labels: seq<string>, i: nat)
    requires i < |labels| && |Named(cols, labels[i])| >= 2
    requires forall j :: 0 <= j < |labels| ==> Named(cols, labels[j]) != []
    ensures |Select(cols, labels)| > |labels|
    decreases |labels|
  {
    var rest := labels[1..];
    assert forall j :: 0 <= j < |rest| ==> rest[j] == labels[j + 1];
    if i == 0 {
      SelectAtLeast(cols, rest);
    } else {
      SelectLonger(cols, rest, i - 1);
    }
  }

  /** Each label picking at least one column gives at least as many columns as labels. */
  lemma {:induction false} SelectAtLeast(cols: seq<Column>, labels: seq<string>)
    requires forall j :: 0 <= j < |labels| ==> Named(cols, labels[j]) != []
    ensures |Select(cols, labels)| >= |labels|
    decreases |labels|
  {
    if labels != [] {
      var rest := labels[1..];
      assert forall j :: 0 <= j < |rest| ==> rest[j] == labels[j + 1];
      SelectAtLeast(cols, rest);
    }
  }

  /** A canonical name picks the same columns before and after the filter. */
  lemma {:induction false} NamedKept(cols: seq<Column>, name: string)
    requires name in AllowedFields()
    ensures Named(cols, name) == Named(FilterAllowed(cols), name)
    decreases |cols|
  {
    if cols != [] {
      NamedKept(cols[1..], name);
    }
  }

  /** Canonical labels select the same columns from the renamed table as from its filtered columns. */
  lemma {:induction false} SelectFromKept(cols: seq<Column>, labels: seq<string>, i: nat)
    requires i <= |labels| && forall j :: 0 <= j < |labels| ==> labels[j] in AllowedFields()
    ensures Select(cols, labels[i..]) == Select(FilterAllowed(cols), labels[i..])
    decreases |labels| - i
  {
    if i < |labels| {
      assert labels[i..][0] == labels[i] && labels[i..][1..] == labels[i + 1..];
      NamedKept(cols, labels[i]);
      SelectFromKept(cols, labels, i + 1);
    }
  }

  /** A name no column carries picks nothing. */
  lemma {:induction false} NamedAbsent(cols: seq<Column>, name: string)
    requires name !in Names(cols)
    ensures Named(cols, name) == []
    decreases |cols|
  {
    if cols != [] {
      assert Names(cols) == [cols[0].name] + Names(cols[1..]);
      NamedAbsent(cols[1..], name);
    }
  }

  /** In columns with pairwise distinct names, each name picks its own column alone. */
  lemma {:induction false} NamedUnique(cols: seq<Column>, j: nat)
    requires j < |cols| && Distinct(Names(cols))
    ensures Named(cols, cols[j].name) == [cols[j]]
    decreases |cols|
  {
    var tail := cols[1..];
    assert Names(cols) == [cols[0].name] + Names(tail);
    assert forall x :: 0 <= x < |tail| ==> Names(tail)[x] == Names(cols)[x + 1];
    if j == 0 {
      assert cols[0].name !in Names(tail) by {
        forall x | 0 <= x < |tail|
          ensures Names(tail)[x] != cols[0].name
        {
          assert Names(cols)[0] != Names(cols)[x + 1];
        }
      }
      NamedAbsent(tail, cols[0].name);
    } else {
      assert Names(cols)[0] != Names(cols)[j];
      assert tail[j - 1] == cols[j];
      NamedUnique(tail, j - 1);
    }
  }

  /** Selecting columns with pairwise distinct names by their own names gives them back in order. */
  lemma {:induction false} SelectDistinct(cols: seq<Column>, i: nat)
    requires i <= |cols| && Distinct(Names(cols))
    ensures Select(cols, Names(cols)[i..]) == cols[i..]
    decreases |cols| - i
  {
    if i < |cols| {
      SuffixCons(Names(cols), i);
      SelectCons(cols, cols[i].name, Names(cols)[i + 1..]);
      NamedUnique(cols, i);
      SelectDistinct(cols, i + 1);
      SuffixCons(cols, i);
    }
  }

  /** Selecting by a list that starts with `name` picks the columns called `name` first. */
  lemma SelectCons(cols: seq<Column>, name: string, rest: seq<string>)
    ensures Select(cols, [name] + rest) == Named(cols, name) + Select(cols, rest)
  {
    assert ([name] + rest)[1..] == rest;
  }

  /** A column that no binding names keeps its own name, and survives only if that name is canonical. */
  lemma UnmappedColumn(df: Table, m: seq<Binding>, k: nat)
    requires AdaptDataframe(df, m).Ok? && k < |df.columns|
    requires forall i :: 0 <= i < |m| ==> m[i].column != df.columns[k].name
    ensures RenameColumns(df.columns, m)[k] == df.columns[k]
    ensures df.columns[k] in AdaptDataframe(df, m).value.columns <==> df.columns[k].name in AllowedFields()
  {
    RenameTargetMeaning(m, df.columns[k].name);
    AdaptKeepsOrder(df, m, k);
  }

  /** A field with a confirmed column is a key of the confirmed dictionary. */
  lemma {:induction false} LookupMapped(bs: seq<Binding>, field: string)
    requires Lookup(bs, field).Some?
    ensures field in MappedFields(bs)
    decreases |bs|
  {
    if bs[|bs| - 1].field == field {
      assert bs[|bs| - 1] in bs;
    } else {
      LookupMapped(bs[..|bs| - 1], field);
      assert forall b :: b in bs[..|bs| - 1] ==> b in bs;
    }
  }

  /**
   * Confirming the revenue proposal, by accepting it or by typing a column, is enough for the
   * adapter to succeed, whatever the other answers and whether or not the columns exist.
   */
  lemma ConfirmedRevenueAdapts(df: Table, ps: seq<V3Proposal>, responses: seq<string>, i: nat)
    requires |responses| >= |ps| && Distinct(FieldNames(ps))
    requires i < |ps| && ps[i].field == "revenue"
    requires Decide(responses[i]).Accept? || Decide(responses[i]).Custom?
    ensures AdaptDataframe(df, ConfirmedOver(ps, responses)).Ok?
  {
    var bs := ConfirmedOver(ps, responses);
    ConfirmedLookup(ps, responses, i);
    BindingForSome(ps[i], responses[i]);
    LookupMapped(bs, "revenue");
    AdaptOkIff(df, bs);
  }
}
