/** The three-tier canonical schema of the v3 pipeline (src/v3/canonical_schema.py). */
module V3CanonicalSchema {
  import opened Basics
  import opened Table

  /** One entry of a field-to-type dictionary; a dictionary is a sequence of these in insertion order. */
  datatype FieldEntry = FieldEntry(name: string, expected: SemanticType)

  function Keys(d: seq<FieldEntry>): (r: seq<string>)
    ensures |r| == |d|
    ensures forall i {:trigger r[i]} :: 0 <= i < |d| ==> r[i] == d[i].name
  {
    if d == [] then [] else [d[0].name] + Keys(d[1..])
  }

  lemma KeysAppend(a: seq<FieldEntry>, b: seq<FieldEntry>)
    ensures Keys(a + b) == Keys(a) + Keys(b)
  {
  }

  function KeySet(d: seq<FieldEntry>): set<string>
  {
    set k | k in Keys(d)
  }

  /** No key occurs twice, as in a dictionary. */
  predicate DistinctKeys(d: seq<FieldEntry>)
  {
    forall i, j :: 0 <= i < j < |d| ==> d[i].name != d[j].name
  }

  function GetRequiredFields(): seq<FieldEntry>
  {
    [FieldEntry("revenue", Numeric)]
  }

  function GetSemiRequiredFields(): seq<FieldEntry>
  {
    [FieldEntry("order_date", Date), FieldEntry("category", Categorical)]
  }

  function GetOptionalFields(): seq<FieldEntry>
  {
    [FieldEntry("units_sold", Numeric), FieldEntry("unit_price", Numeric), FieldEntry("entity_name", Categorical)]
  }

  /** `k` is a key of the dictionary `d`. */
  predicate HasKey(d: seq<FieldEntry>, k: string)
  {
    exists j :: 0 <= j < |d| && d[j].name == k
  }

  /** `d[x.name] = x.expected`: an existing key keeps its position and takes the new type; a new key goes last. */
  function Put(d: seq<FieldEntry>, x: FieldEntry): (r: seq<FieldEntry>)
    ensures !HasKey(d, x.name) ==> r == d + [x]
  {
    if d == [] then [x]
    else if d[0].name == x.name then [x] + d[1..]
    else
      var rest := Put(d[1..], x);
      assert HasKey(d[1..], x.name) ==> HasKey(d, x.name) by {
        if HasKey(d[1..], x.name) {
          var j :| 0 <= j < |d[1..]| && d[1..][j].name == x.name;
          assert d[j + 1].name == x.name;
        }
      }
      [d[0]] + rest
  }

  /** `d.update(e)`. */
  function DictUpdate(d: seq<FieldEntry>, e: seq<FieldEntry>): seq<FieldEntry>
    decreases |e|
  {
    if e == [] then d else DictUpdate(Put(d, e[0]), e[1..])
  }

  /** No key of `e` is a key of `d`. */
  predicate FreshKeys(d: seq<FieldEntry>, e: seq<FieldEntry>)
  {
    forall i, j :: 0 <= i < |e| && 0 <= j < |d| ==> e[i].name != d[j].name
  }

  /** Updating with fresh, distinct keys appends them in order: nothing is overridden. */
  lemma {:induction false} UpdateWithFreshKeys(d: seq<FieldEntry>, e: seq<FieldEntry>)
    requires DistinctKeys(e)
    requires FreshKeys(d, e)
    ensures DictUpdate(d, e) == d + e
    decreases |e|
  {
    if e != [] {
      assert !HasKey(d, e[0].name);
      var p := Put(d, e[0]);
      assert p == d + [e[0]];
      var tl := e[1..];
      assert DictUpdate(d, e) == DictUpdate(p, tl);
      FreshKeysStep(d, e);
      UpdateWithFreshKeys(p, tl);
      assert d + [e[0]] + tl == d + e;
    }
  }

  /** After moving the first entry of `e` into `d`, the rest of `e` is still distinct and fresh. */
  lemma FreshKeysStep(d: seq<FieldEntry>, e: seq<FieldEntry>)
    requires e != [] && DistinctKeys(e) && FreshKeys(d, e)
    ensures FreshKeys(d + [e[0]], e[1..]) && DistinctKeys(e[1..])
  {
    var p, tl := d + [e[0]], e[1..];
    forall i, j | 0 <= i < |tl| && 0 <= j < |p| ensures tl[i].name != p[j].name {
      assert tl[i] == e[i + 1];
      if j == |d| {
        assert p[j] == e[0];
      } else {
        assert p[j] == d[j];
      }
    }
    forall i, j | 0 <= i < j < |tl| ensures tl[i].name != tl[j].name {
      assert tl[i] == e[i + 1] && tl[j] == e[j + 1];
    }
  }

  /** A dictionary with distinct keys splits into two with distinct keys and no key in common. */
  lemma DistinctSplit(a: seq<FieldEntry>, b: seq<FieldEntry>)
    requires DistinctKeys(a + b)
    ensures DistinctKeys(a) && DistinctKeys(b) && FreshKeys(a, b)
  {
    forall i, j | 0 <= i < |b| && 0 <= j < |a| ensures b[i].name != a[j].name {
      assert (a + b)[|a| + i] == b[i] && (a + b)[j] == a[j];
    }
    forall i, j | 0 <= i < j < |b| ensures b[i].name != b[j].name {
      assert (a + b)[|a| + i] == b[i] && (a + b)[|a| + j] == b[j];
    }
    forall i, j | 0 <= i < j < |a| ensures a[i].name != a[j].name {
      assert (a + b)[i] == a[i] && (a + b)[j] == a[j];
    }
  }

  /** Merging three tiers whose keys are all distinct concatenates them. */
  lemma MergeTiers(r: seq<FieldEntry>, s: seq<FieldEntry>, o: seq<FieldEntry>)
    requires DistinctKeys(r + s + o)
    ensures DictUpdate(DictUpdate(DictUpdate([], r), s), o) == r + s + o
  {
    DistinctSplit(r + s, o);
    DistinctSplit(r, s);
    assert FreshKeys([], r);
    UpdateWithFreshKeys([], r);
    assert [] + r == r;
    UpdateWithFreshKeys(r, s);
    UpdateWithFreshKeys(r + s, o);
  }

  /** The tiers one after the other: required, then semi-required, then optional. */
  function AllFields(): seq<FieldEntry>
  {
    GetRequiredFields() + GetSemiRequiredFields() + GetOptionalFields()
  }

  /** `get_all_fields`: the three tiers merged by successive `update` calls. */
  method GetAllFields() returns (all: seq<FieldEntry>)
    ensures all == AllFields()
    ensures |all| == 6 && DistinctKeys(all)
  {
    var r, s, o := GetRequiredFields(), GetSemiRequiredFields(), GetOptionalFields();
    assert DistinctKeys(r + s + o);
    MergeTiers(r, s, o);
    all := [];
    all := DictUpdate(all, r);
    all := DictUpdate(all, s);
    all := DictUpdate(all, o);
  }

  /** The names of every tier, as the v3 adapter collects them. */
  function AllowedFields(): (r: set<string>)
    ensures r == {"revenue", "order_date", "category", "units_sold", "unit_price", "entity_name"}
  {
    assert Keys(GetRequiredFields()) == ["revenue"];
    assert Keys(GetSemiRequiredFields()) == ["order_date", "category"];
    assert Keys(GetOptionalFields()) == ["units_sold", "unit_price", "entity_name"];
    KeySet(GetRequiredFields()) + KeySet(GetSemiRequiredFields()) + KeySet(GetOptionalFields())
  }
}
