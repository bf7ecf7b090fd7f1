/**
 * The v3 semantic mapper: for every canonical field, a best-of-N search over the columns
 * of the schema report. Each column scores on three layers (name keywords, type, numeric
 * behaviour); the first column reaching the strictly greatest positive score is proposed,
 * with the score clamped at 1.0 and the evidence collected over every column scanned.
 *
 * Scores are integer hundredths (0.6 is 60).
 */
module V3SemanticMapper {
  import opened Basics
  import opened Text
  import opened Table
  import opened V3SchemaExtractor
  import opened V3CanonicalSchema

  /** `KEYWORD_HINTS.get(canonical_field, [])`. */
  function KeywordHints(field: string): seq<string>
  {
    if field == "revenue" then ["revenue", "sales", "amount", "total"]
    else if field == "units_sold" then ["units", "qty", "quantity", "count"]
    else if field == "unit_price" then ["price", "cost", "rate"]
    else if field == "order_date" then ["date", "time"]
    else if field == "category" then ["region", "area", "category", "segment"]
    else if field == "entity_name" then ["product", "item", "salesperson", "rep", "agent"]
    else []
  }

  /** `score_column_name`. */
  function ScoreColumnName(column: string, field: string): nat
  {
    if AnyKeywordIn(Lower(column), KeywordHints(field)) then 60 else 0
  }

  /** The name layer is 0.6 exactly when a keyword of the field occurs in the lower-cased name, else 0. */
  lemma ScoreColumnNameMeaning(column: string, field: string)
    ensures ScoreColumnName(column, field) == 0 || ScoreColumnName(column, field) == 60
    ensures ScoreColumnName(column, field) == 60 <==> HasKeyword(Lower(column), KeywordHints(field))
  {
    AnyKeywordInMeaning(Lower(column), KeywordHints(field));
  }

  /** `score_type_match`: 0.2 exactly when the inferred type is the expected one. */
  function ScoreTypeMatch(kind: SemanticType, expected: SemanticType): (r: nat)
    ensures r == 0 || r == 20
    ensures r == 20 <==> kind == expected
  {
    if kind == expected then 20 else 0
  }

  /** `signals.get("is_integer_like")`: categorical signals have no such key, which is falsy. */
  predicate IntegerLike(s: Signals)
  {
    s.NumericSignals? && s.isIntegerLike
  }

  /** `score_numeric_behavior`: 0.3 for a field-specific pattern of the signals, 0 for any other field. */
  function ScoreNumericBehavior(signals: Option<Signals>, field: string): (r: nat)
    ensures r == 0 || r == 30
    ensures signals.None? ==> r == 0
    ensures field != "units_sold" && field != "unit_price" && field != "revenue" ==> r == 0
    ensures signals.Some? ==>
      (field == "units_sold" ==> (r == 30 <==> IntegerLike(signals.value) && Greater(Some(1000.0), MaxOrZero(signals.value))))
      && (field == "unit_price" ==> (r == 30 <==> Greater(MaxOrZero(signals.value), Some(10.0))))
      && (field == "revenue" ==> (r == 30 <==> Greater(MaxOrZero(signals.value), Some(100.0))))
  {
    match signals
    case None => 0
    case Some(s) =>
      var mx := MaxOrZero(s);
      (if field == "units_sold" && IntegerLike(s) && Greater(Some(1000.0), mx) then 30 else 0)
      + (if field == "unit_price" && Greater(mx, Some(10.0)) then 30 else 0)
      + (if field == "revenue" && Greater(mx, Some(100.0)) then 30 else 0)
  }

  datatype Tag = ColumnNameMatch | TypeMatchTag | NumericBehaviorTag

  /** The score of one column for one canonical field: the sum of its three layers. */
  function Score(f: FieldEntry, e: SchemaEntry): nat
  {
    ScoreColumnName(e.column, f.name) + ScoreTypeMatch(e.kind, f.expected) + ScoreNumericBehavior(e.signals, f.name)
  }

  /** The evidence tags one column contributes: one per layer that scored. */
  function Tags(f: FieldEntry, e: SchemaEntry): seq<Evidence>
  {
    (if ScoreColumnName(e.column, f.name) > 0 then [ColumnNameMatch] else [])
    + (if ScoreTypeMatch(e.kind, f.expected) > 0 then [TypeMatchTag] else [])
    + (if ScoreNumericBehavior(e.signals, f.name) > 0 then [NumericBehaviorTag] else [])
  }

  type Evidence = Tag

  /** The evidence list after scanning the columns of `s`, with repetitions. */
  function EvidenceOver(s: seq<SchemaEntry>, f: FieldEntry): seq<Evidence>
    decreases |s|
  {
    if s == [] then [] else EvidenceOver(s[..|s| - 1], f) + Tags(f, s[|s| - 1])
  }

  /** Column `i` is the first to reach the greatest score, and that score is positive. */
  predicate IsFirstBest(s: seq<SchemaEntry>, f: FieldEntry, i: int)
  {
    && 0 <= i < |s|
    && Score(f, s[i]) > 0
    && (forall j :: 0 <= j < |s| ==> Score(f, s[j]) <= Score(f, s[i]))
    && (forall j :: 0 <= j < i ==> Score(f, s[j]) < Score(f, s[i]))
  }

  /** `best_score` and the position of `best_candidate` after scanning `s`: a strictly greater score replaces. */
  function BestSoFar(s: seq<SchemaEntry>, f: FieldEntry): (r: (nat, Option<nat>))
    ensures r.1.Some? ==> r.1.value < |s|
    decreases |s|
  {
    if s == [] then (0, None)
    else
      var prev := BestSoFar(s[..|s| - 1], f);
      var sc := Score(f, s[|s| - 1]);
      if sc > prev.0 then (sc, Some(|s| - 1)) else prev
  }

  /** The best score bounds every column's score, and is the score of the best column when there is one. */
  lemma {:induction false} BestScoreBound(s: seq<SchemaEntry>, f: FieldEntry)
    ensures forall j :: 0 <= j < |s| ==> Score(f, s[j]) <= BestSoFar(s, f).0
    ensures BestSoFar(s, f).1.None? <==> BestSoFar(s, f).0 == 0
    ensures BestSoFar(s, f).1.Some? ==> BestSoFar(s, f).0 == Score(f, s[BestSoFar(s, f).1.value])
    decreases |s|
  {
    if s != [] {
      var init := s[..|s| - 1];
      BestScoreBound(init, f);
      assert forall j :: 0 <= j < |init| ==> init[j] == s[j];
    }
  }

  /** The scan finds the first strictly best column, or none when every column scores 0. */
  lemma {:induction false} BestSoFarMeaning(s: seq<SchemaEntry>, f: FieldEntry)
    ensures BestSoFar(s, f).1.None? <==> BestSoFar(s, f).0 == 0
    ensures BestSoFar(s, f).1.None? <==> forall j :: 0 <= j < |s| ==> Score(f, s[j]) == 0
    ensures BestSoFar(s, f).1.Some? ==>
      IsFirstBest(s, f, BestSoFar(s, f).1.value) && BestSoFar(s, f).0 == Score(f, s[BestSoFar(s, f).1.value])
    decreases |s|
  {
    BestScoreBound(s, f);
    if s != [] {
      var init := s[..|s| - 1];
      BestSoFarMeaning(init, f);
      BestScoreBound(init, f);
      var prev := BestSoFar(init, f);
      assert forall j :: 0 <= j < |init| ==> init[j] == s[j];
      if Score(f, s[|s| - 1]) <= prev.0 {
        assert BestSoFar(s, f) == prev;
      }
    }
  }

  /** At most one column is the first strictly best. */
  lemma FirstBestUnique(s: seq<SchemaEntry>, f: FieldEntry, i: int, j: int)
    requires IsFirstBest(s, f, i) && IsFirstBest(s, f, j)
    ensures i == j
  {
  }

  /** One proposal of `propose_mappings`; the evidence is the set of tags, without order. */
  datatype V3Proposal = V3Proposal(field: string, column: string, confidence: nat, evidence: set<Evidence>)

  function Min(a: nat, b: nat): nat
  {
    if a <= b then a else b
  }

  /**
   * The proposal for field `f`: the best column when it exists, its score is positive and its name
   * is non-empty (`if best_candidate and best_score > 0`).
   */
  function ProposalFor(s: seq<SchemaEntry>, f: FieldEntry): Option<V3Proposal>
  {
    var best := BestSoFar(s, f);
    if best.1.Some? && s[best.1.value].column != "" && best.0 > 0 then
      Some(V3Proposal(f.name, s[best.1.value].column, Min(best.0, 100), Elements(EvidenceOver(s, f))))
    else None
  }

  /** The proposals for the fields `fields`, in field order, skipping fields without one. */
  function ProposalsFor(s: seq<SchemaEntry>, fields: seq<FieldEntry>): seq<V3Proposal>
    decreases |fields|
  {
    if fields == [] then []
    else
      var last := fields[|fields| - 1];
      ProposalsFor(s, fields[..|fields| - 1])
      + (match ProposalFor(s, last) case None => [] case Some(p) => [p])
  }

  /** One column of the inner loop: each layer that scores adds its score and appends its tag. */
  method ScoreColumn(f: FieldEntry, e: SchemaEntry) returns (score: nat, tags: seq<Evidence>)
    ensures score == Score(f, e) && tags == Tags(f, e)
  {
    score := 0;
    tags := [];
    var nameScore := ScoreColumnName(e.column, f.name);
    if nameScore > 0 {
      score := score + nameScore;
      tags := tags + [ColumnNameMatch];
    }
    var typeScore := ScoreTypeMatch(e.kind, f.expected);
    if typeScore > 0 {
      score := score + typeScore;
      tags := tags + [TypeMatchTag];
    }
    var behaviorScore := ScoreNumericBehavior(e.signals, f.name);
    if behaviorScore > 0 {
      score := score + behaviorScore;
      tags := tags + [NumericBehaviorTag];
    }
  }

  /** The inner loop of `propose_mappings`: the best-of-N search for one field. */
  method ProposeField(schema: seq<SchemaEntry>, f: FieldEntry) returns (p: Option<V3Proposal>)
    ensures p == ProposalFor(schema, f)
  {
    var bestCandidate: Option<string> := None;
    var bestScore := 0;
    var evidence: seq<Evidence> := [];
    ghost var bestIndex: Option<nat> := None;
    assert schema[..0] == [];
    for k := 0 to |schema|
      invariant (bestScore, bestIndex) == BestSoFar(schema[..k], f)
      invariant bestIndex.None? ==> bestCandidate.None?
      invariant bestIndex.Some? ==> bestIndex.value < k && bestCandidate == Some(schema[bestIndex.value].column)
      invariant evidence == EvidenceOver(schema[..k], f)
    {
      var e := schema[k];
      assert schema[..k + 1][..k] == schema[..k] && schema[..k + 1][k] == e;
      var score, tags := ScoreColumn(f, e);
      evidence := evidence + tags;
      if score > bestScore {
        bestScore := score;
        bestCandidate := Some(e.column);
        bestIndex := Some(k);
      }
    }
    assert schema[..|schema|] == schema;
    if bestCandidate.Some? && bestCandidate.value != "" && bestScore > 0 {
      p := Some(V3Proposal(f.name, bestCandidate.value, Min(bestScore, 100), Elements(evidence)));
    } else {
      p := None;
    }
  }

  lemma ProposalsForStep(s: seq<SchemaEntry>, fields: seq<FieldEntry>, n: nat)
    requires n < |fields|
    ensures ProposalsFor(s, fields[..n + 1]) ==
      ProposalsFor(s, fields[..n]) + (match ProposalFor(s, fields[n]) case None => [] case Some(p) => [p])
  {
    assert fields[..n + 1][..n] == fields[..n];
  }

  /** `propose_mappings`: the fields of `get_all_fields()`, in order, each with its best column if any. */
  method ProposeMappings(schema: seq<SchemaEntry>) returns (proposals: seq<V3Proposal>)
    ensures proposals == ProposalsFor(schema, AllFields())
  {
    proposals := [];
    var fields := GetAllFields();
    assert fields[..0] == [];
    for n := 0 to |fields|
      invariant proposals == ProposalsFor(schema, fields[..n])
    {
      var p := ProposeField(schema, fields[n]);
      ProposalsForStep(schema, fields, n);
      if p.Some? {
        proposals := proposals + [p.value];
      }
    }
    assert fields[..|fields|] == fields;
  }

  /**
   * A field is proposed exactly when the first strictly best column exists and has a non-empty
   * name; the proposal names that column with its score clamped at 1.0, hence in (0, 1].
   */
  lemma ProposalForMeaning(s: seq<SchemaEntry>, f: FieldEntry)
    ensures ProposalFor(s, f).Some? <==> exists i :: IsFirstBest(s, f, i) && s[i].column != ""
    ensures forall i :: IsFirstBest(s, f, i) && s[i].column != "" ==>
      ProposalFor(s, f) == Some(V3Proposal(f.name, s[i].column, Min(Score(f, s[i]), 100), Elements(EvidenceOver(s, f))))
    ensures ProposalFor(s, f).Some? ==> 0 < ProposalFor(s, f).value.confidence <= 100
  {
    BestSoFarMeaning(s, f);
    forall i | IsFirstBest(s, f, i) && s[i].column != ""
      ensures ProposalFor(s, f) == Some(V3Proposal(f.name, s[i].column, Min(Score(f, s[i]), 100), Elements(EvidenceOver(s, f))))
    {
      assert BestSoFar(s, f).1.Some?;
      FirstBestUnique(s, f, i, BestSoFar(s, f).1.value);
    }
  }

  /** A field gets no proposal when every column scores 0 for it. */
  lemma NoProposalWhenAllZero(s: seq<SchemaEntry>, f: FieldEntry)
    requires forall j :: 0 <= j < |s| ==> Score(f, s[j]) == 0
    ensures ProposalFor(s, f).None?
  {
    BestSoFarMeaning(s, f);
  }

  /** A column contributes a tag exactly for each layer that scores; a column scoring 0 contributes none. */
  lemma TagsMeaning(f: FieldEntry, e: SchemaEntry)
    ensures ColumnNameMatch in Tags(f, e) <==> HasKeyword(Lower(e.column), KeywordHints(f.name))
    ensures TypeMatchTag in Tags(f, e) <==> e.kind == f.expected
    ensures NumericBehaviorTag in Tags(f, e) <==> ScoreNumericBehavior(e.signals, f.name) == 30
    ensures Tags(f, e) == [] <==> Score(f, e) == 0
  {
    ScoreColumnNameMeaning(e.column, f.name);
  }

  /** Column `j` of `s` contributes tag `t` to the evidence for field `f`. */
  predicate Contributes(s: seq<SchemaEntry>, f: FieldEntry, t: Evidence, j: int)
  {
    0 <= j < |s| && t in Tags(f, s[j])
  }

  /** The evidence holds a tag exactly when some scanned column contributed it, winner or not. */
  lemma EvidenceOverMeaning(s: seq<SchemaEntry>, f: FieldEntry, t: Evidence)
    ensures t in EvidenceOver(s, f) <==> exists j :: Contributes(s, f, t, j)
  {
    if t in EvidenceOver(s, f) {
      var j := EvidenceSource(s, f, t);
    }
    if exists j :: Contributes(s, f, t, j) {
      var j :| Contributes(s, f, t, j);
      EvidenceFromColumn(s, f, t, j);
    }
  }

  /** A tag in the evidence names the column that contributed it. */
  lemma {:induction false} EvidenceSource(s: seq<SchemaEntry>, f: FieldEntry, t: Evidence) returns (j: int)
    requires t in EvidenceOver(s, f)
    ensures Contributes(s, f, t, j)
    decreases |s|
  {
    var init, last := s[..|s| - 1], s[|s| - 1];
    assert EvidenceOver(s, f) == EvidenceOver(init, f) + Tags(f, last);
    if t in EvidenceOver(init, f) {
      j := EvidenceSource(init, f, t);
      assert s[j] == init[j];
    } else {
      j := |s| - 1;
    }
  }

  /** Every tag a scanned column contributes is in the evidence. */
  lemma {:induction false} EvidenceFromColumn(s: seq<SchemaEntry>, f: FieldEntry, t: Evidence, j: int)
    requires Contributes(s, f, t, j)
    ensures t in EvidenceOver(s, f)
    decreases |s|
  {
    var init, last := s[..|s| - 1], s[|s| - 1];
    assert EvidenceOver(s, f) == EvidenceOver(init, f) + Tags(f, last);
    if j < |init| {
      assert s[j] == init[j];
      EvidenceFromColumn(init, f, t, j);
      assert t in EvidenceOver(init, f);
    } else {
      assert t in Tags(f, last);
    }
  }

  /** The fields named by a sequence of proposals. */
  function FieldNames(ps: seq<V3Proposal>): (r: seq<string>)
    ensures |r| == |ps| && forall i :: 0 <= i < |ps| ==> r[i] == ps[i].field
  {
    seq(|ps|, i requires 0 <= i < |ps| => ps[i].field)
  }

  /** Appending a proposal appends its field. */
  lemma FieldNamesSnoc(ps: seq<V3Proposal>, p: V3Proposal)
    ensures FieldNames(ps + [p]) == FieldNames(ps) + [p.field]
  {
  }

  /** Proposals come in field order, at most one per field: their fields are a subsequence of the field names. */
  lemma {:induction false} ProposedFieldsInOrder(s: seq<SchemaEntry>, fields: seq<FieldEntry>)
    ensures IsSubsequence(FieldNames(ProposalsFor(s, fields)), Keys(fields))
    decreases |fields|
  {
    if fields != [] {
      var init, last := fields[..|fields| - 1], fields[|fields| - 1];
      ProposedFieldsInOrder(s, init);
      assert fields == init + [last];
      KeysAppend(init, [last]);
      assert Keys(fields) == Keys(init) + [last.name];
      var before := ProposalsFor(s, init);
      SubsequenceAppend(FieldNames(before), Keys(init), last.name);
      match ProposalFor(s, last)
      case None =>
        assert ProposalsFor(s, fields) == before;
      case Some(p) =>
        assert ProposalsFor(s, fields) == before + [p];
        assert p.field == last.name;
        FieldNamesSnoc(before, p);
    }
  }

  /** Each proposal is the proposal of one of the fields. */
  lemma {:induction false} ProposalsComeFromFields(s: seq<SchemaEntry>, fields: seq<FieldEntry>)
    ensures forall p :: p in ProposalsFor(s, fields) ==> exists f :: f in fields && ProposalFor(s, f) == Some(p)
    decreases |fields|
  {
    if fields != [] {
      var init, last := fields[..|fields| - 1], fields[|fields| - 1];
      ProposalsComeFromFields(s, init);
      assert fields == init + [last];
      var before := ProposalsFor(s, init);
      match ProposalFor(s, last)
      case None =>
        assert ProposalsFor(s, fields) == before;
      case Some(p) =>
        assert ProposalsFor(s, fields) == before + [p];
    }
  }

  /** Every field that has a proposal is proposed. */
  lemma {:induction false} ProposedFieldsIncluded(s: seq<SchemaEntry>, fields: seq<FieldEntry>)
    ensures forall f :: f in fields && ProposalFor(s, f).Some? ==> ProposalFor(s, f).value in ProposalsFor(s, fields)
    decreases |fields|
  {
    if fields != [] {
      var init, last := fields[..|fields| - 1], fields[|fields| - 1];
      ProposedFieldsIncluded(s, init);
      assert fields == init + [last];
      var before := ProposalsFor(s, init);
      match ProposalFor(s, last)
      case None =>
        assert ProposalsFor(s, fields) == before;
      case Some(p) =>
        assert ProposalsFor(s, fields) == before + [p];
    }
  }

  /** Every proposal is for one of the given fields. */
  lemma ProposalFieldsAreKeys(s: seq<SchemaEntry>, fields: seq<FieldEntry>)
    ensures forall p :: p in ProposalsFor(s, fields) ==> p.field in Keys(fields)
  {
    ProposalsComeFromFields(s, fields);
    forall p | p in ProposalsFor(s, fields) ensures p.field in Keys(fields) {
      var f :| f in fields && ProposalFor(s, f) == Some(p);
      var j :| 0 <= j < |fields| && fields[j] == f;
      assert Keys(fields)[j] == p.field;
    }
  }

  /** Every proposal of `propose_mappings` is for one of the six canonical fields. */
  lemma ProposalKeysAllowed(s: seq<SchemaEntry>)
    ensures forall p :: p in ProposalsFor(s, AllFields()) ==> p.field in AllowedFields()
  {
    var fields := AllFields();
    ProposalFieldsAreKeys(s, fields);
    KeysAppend(GetRequiredFields() + GetSemiRequiredFields(), GetOptionalFields());
    KeysAppend(GetRequiredFields(), GetSemiRequiredFields());
    assert Keys(fields) == ["revenue", "order_date", "category", "units_sold", "unit_price", "entity_name"];
  }

  /**
   * Nothing stops one column from winning several fields: a lone numeric column with a non-empty
   * name is proposed for every numeric field.
   */
  lemma LoneNumericColumnWinsEveryNumericField(e: SchemaEntry, f: FieldEntry)
    requires e.kind == Numeric && e.column != "" && f.expected == Numeric
    ensures ProposalFor([e], f).Some? && ProposalFor([e], f).value.column == e.column
  {
    var s := [e];
    assert Score(f, s[0]) >= 20;
    assert IsFirstBest(s, f, 0);
    ProposalForMeaning(s, f);
  }
}
