/**
 * The v4 semantic mapper: one pass over the schema report, in column order, proposing
 * a measure, a time, an entity and any number of dimensions from fixed keyword hints,
 * the column's semantic type and its numeric signals; then the human confirmation of
 * those proposals, driven by one response per prompt.
 *
 * Scores are integer hundredths (0.4 is 40), so every threshold decision is exact.
 */
module V4SemanticMapper {
  import opened Basics
  import opened Text
  import opened Table
  import opened V3SchemaExtractor

  /** `KEYWORD_HINTS.get(target, [])`. */
  function KeywordHints(target: string): seq<string>
  {
    if target == "measure" then ["total", "amount", "score", "marks", "value", "sum", "points"]
    else if target == "entity" then ["name", "id", "student", "employee", "customer", "user", "person"]
    else if target == "time" then ["date", "time", "year", "month", "day"]
    else if target == "dimension" then ["region", "category", "type", "subject", "department", "class", "group"]
    else []
  }

  /** `score_name_match`. */
  function ScoreNameMatch(column: string, target: string): nat
  {
    if AnyKeywordIn(Lower(column), KeywordHints(target)) then 40 else 0
  }

  /** The name score is 0.4 exactly when a keyword of the role occurs in the lower-cased name, and 0 otherwise and for a role without hints. */
  lemma ScoreNameMatchMeaning(column: string, target: string)
    ensures ScoreNameMatch(column, target) == 0 || ScoreNameMatch(column, target) == 40
    ensures ScoreNameMatch(column, target) == 40 <==> HasKeyword(Lower(column), KeywordHints(target))
    ensures target != "measure" && target != "entity" && target != "time" && target != "dimension" ==> ScoreNameMatch(column, target) == 0
  {
    AnyKeywordInMeaning(Lower(column), KeywordHints(target));
  }

  /** `score_type_match`. */
  function ScoreTypeMatch(kind: SemanticType, target: string): (r: nat)
    ensures r == 40 <==> (target == "measure" && kind == Numeric) || (target == "time" && kind == Date)
    ensures r == 30 <==> (target == "entity" || target == "dimension") && kind == Categorical
    ensures r == 0 || r == 30 || r == 40
  {
    if target == "measure" && kind == Numeric then 40
    else if (target == "entity" || target == "dimension") && kind == Categorical then 30
    else if target == "time" && kind == Date then 40
    else 0
  }

  /** `score_numeric_behavior`: 0.2 for a maximum above the mean, 0.2 for more than three distinct values. */
  function ScoreNumericBehavior(signals: Option<Signals>): (r: nat)
    ensures r == 0 || r == 20 || r == 40
    ensures signals.None? ==> r == 0
    ensures r == 40 <==> signals.Some? && Greater(MaxOrZero(signals.value), MeanOrZero(signals.value)) && signals.value.uniqueCount > 3
  {
    match signals
    case None => 0
    case Some(s) =>
      (if Greater(MaxOrZero(s), MeanOrZero(s)) then 20 else 0) + (if s.uniqueCount > 3 then 20 else 0)
  }

  datatype Evidence = NameSignal | TypeMatch | NumericBehavior | DateType | EntityNameSignal | CategoricalGrouping

  /** One proposal: the column, its confidence in hundredths, the evidence behind it. */
  datatype Proposal = Proposal(column: string, confidence: nat, evidence: seq<Evidence>)

  datatype Mappings = Mappings(measure: Option<Proposal>, dimensions: seq<Proposal>, entity: Option<Proposal>, time: Option<Proposal>)

  /** `initialize_mapping_output`: nothing proposed yet. */
  function InitializeMappingOutput(): (m: Mappings)
    ensures m.measure.None? && m.entity.None? && m.time.None? && m.dimensions == []
  {
    Mappings(None, [], None, None)
  }

  function MeasureScore(e: SchemaEntry): nat
  {
    ScoreNameMatch(e.column, "measure") + ScoreTypeMatch(e.kind, "measure") + ScoreNumericBehavior(e.signals)
  }

  /** The tags of the measure scorers that gave a non-zero score, in scoring order. */
  function MeasureEvidence(e: SchemaEntry): seq<Evidence>
  {
    (if ScoreNameMatch(e.column, "measure") != 0 then [NameSignal] else [])
    + (if ScoreTypeMatch(e.kind, "measure") != 0 then [TypeMatch] else [])
    + (if ScoreNumericBehavior(e.signals) != 0 then [NumericBehavior] else [])
  }

  function TimeScore(e: SchemaEntry): nat
  {
    ScoreTypeMatch(e.kind, "time") + ScoreNameMatch(e.column, "time")
  }

  function EntityScore(e: SchemaEntry): nat
  {
    ScoreNameMatch(e.column, "entity") + ScoreTypeMatch(e.kind, "entity")
  }

  function DimensionScore(e: SchemaEntry): nat
  {
    ScoreNameMatch(e.column, "dimension") + ScoreTypeMatch(e.kind, "dimension")
  }

  predicate IsMeasureCandidate(e: SchemaEntry)
  {
    e.kind == Numeric && MeasureScore(e) >= 60
  }

  predicate IsTimeCandidate(e: SchemaEntry)
  {
    e.kind == Date && TimeScore(e) >= 40
  }

  predicate IsEntityCandidate(e: SchemaEntry)
  {
    e.kind == Categorical && EntityScore(e) >= 40
  }

  function MeasureProposal(e: SchemaEntry): Proposal
  {
    Proposal(e.column, MeasureScore(e), MeasureEvidence(e))
  }

  function TimeProposal(e: SchemaEntry): Proposal
  {
    Proposal(e.column, TimeScore(e), [DateType])
  }

  function EntityProposal(e: SchemaEntry): Proposal
  {
    Proposal(e.column, EntityScore(e), [EntityNameSignal])
  }

  function DimensionProposal(e: SchemaEntry): Proposal
  {
    Proposal(e.column, DimensionScore(e), [CategoricalGrouping])
  }

  /** The proposal built from the first column satisfying `p`, if any. */
  function FirstProposal(s: seq<SchemaEntry>, p: SchemaEntry -> bool, f: SchemaEntry -> Proposal): Option<Proposal>
  {
    match FirstIndex(s, p)
    case None => None
    case Some(i) => Some(f(s[i]))
  }

  /** Every categorical column except the one at position `entity`, in column order. */
  function Dimensions(s: seq<SchemaEntry>, entity: Option<nat>): seq<Proposal>
    decreases |s|
  {
    if s == [] then []
    else
      var last := s[|s| - 1];
      Dimensions(s[..|s| - 1], entity)
      + (if last.kind == Categorical && entity != Some(|s| - 1) then [DimensionProposal(last)] else [])
  }

  /** What `propose_mappings` proposes for the schema report `s`, described role by role. */
  function ProposalsFor(s: seq<SchemaEntry>): Mappings
  {
    Mappings(
      FirstProposal(s, IsMeasureCandidate, MeasureProposal),
      Dimensions(s, FirstIndex(s, IsEntityCandidate)),
      FirstProposal(s, IsEntityCandidate, EntityProposal),
      FirstProposal(s, IsTimeCandidate, TimeProposal))
  }

  /** An entity position at or beyond the end of `s` excludes nothing. */
  lemma {:induction false} DimensionsIgnoreLaterEntity(s: seq<SchemaEntry>, a: Option<nat>, b: Option<nat>)
    requires a.Some? ==> a.value >= |s|
    requires b.Some? ==> b.value >= |s|
    ensures Dimensions(s, a) == Dimensions(s, b)
    decreases |s|
  {
    if s != [] {
      DimensionsIgnoreLaterEntity(s[..|s| - 1], a, b);
    }
  }

  lemma FirstProposalSnoc(s: seq<SchemaEntry>, e: SchemaEntry, p: SchemaEntry -> bool, f: SchemaEntry -> Proposal)
    ensures FirstProposal(s + [e], p, f) ==
      if FirstProposal(s, p, f).Some? then FirstProposal(s, p, f) else if p(e) then Some(f(e)) else None
  {
    FirstIndexSnoc(s, e, p);
    var t := s + [e];
    if FirstIndex(s, p).Some? {
      assert t[FirstIndex(s, p).value] == s[FirstIndex(s, p).value];
    } else if p(e) {
      assert t[|s|] == e;
    }
  }

  /** One column of `propose_mappings`: the first role block, in the order measure, time, entity, dimension, that takes it. */
  function Step(m: Mappings, e: SchemaEntry): Mappings
  {
    if e.kind == Numeric && m.measure.None? && MeasureScore(e) >= 60 then m.(measure := Some(MeasureProposal(e)))
    else if e.kind == Date && m.time.None? && TimeScore(e) >= 40 then m.(time := Some(TimeProposal(e)))
    else if e.kind == Categorical && m.entity.None? && EntityScore(e) >= 40 then m.(entity := Some(EntityProposal(e)))
    else if e.kind == Categorical && DimensionScore(e) >= 30 then m.(dimensions := m.dimensions + [DimensionProposal(e)])
    else m
  }

  /** The role-by-role description agrees with scanning the columns one at a time. */
  lemma ProposalsSnoc(s: seq<SchemaEntry>, e: SchemaEntry)
    ensures ProposalsFor(s + [e]) == Step(ProposalsFor(s), e)
  {
    var t := s + [e];
    FirstProposalSnoc(s, e, IsMeasureCandidate, MeasureProposal);
    FirstProposalSnoc(s, e, IsTimeCandidate, TimeProposal);
    FirstProposalSnoc(s, e, IsEntityCandidate, EntityProposal);
    FirstIndexSnoc(s, e, IsEntityCandidate);
    var ent, ent' := FirstIndex(s, IsEntityCandidate), FirstIndex(t, IsEntityCandidate);
    assert t[..|t| - 1] == s;
    assert t[|t| - 1] == e;
    assert Dimensions(t, ent') == Dimensions(s, ent')
      + (if e.kind == Categorical && ent' != Some(|s|) then [DimensionProposal(e)] else []);
    if ent.None? {
      DimensionsIgnoreLaterEntity(s, ent', ent);
    }
    var m, mt := ProposalsFor(s), ProposalsFor(t);
    var dims := if e.kind == Categorical && !(m.entity.None? && IsEntityCandidate(e)) then [DimensionProposal(e)] else [];
    assert mt.dimensions == m.dimensions + dims;
    if e.kind == Numeric {
      assert mt == (if m.measure.None? && IsMeasureCandidate(e) then m.(measure := Some(MeasureProposal(e))) else m);
    } else if e.kind == Date {
      assert mt == (if m.time.None? && IsTimeCandidate(e) then m.(time := Some(TimeProposal(e))) else m);
    } else if m.entity.None? && IsEntityCandidate(e) {
      assert mt == m.(entity := Some(EntityProposal(e)));
    } else {
      assert mt == m.(dimensions := m.dimensions + [DimensionProposal(e)]);
    }
  }

  lemma ProposalsPrefixStep(s: seq<SchemaEntry>, k: nat)
    requires k < |s|
    ensures ProposalsFor(s[..k + 1]) == Step(ProposalsFor(s[..k]), s[k])
  {
    assert s[..k + 1] == s[..k] + [s[k]];
    ProposalsSnoc(s[..k], s[k]);
  }

  /** The measure block of `propose_mappings`: each non-zero scorer adds its score and its tag. */
  method ScoreMeasure(e: SchemaEntry) returns (score: nat, evidence: seq<Evidence>)
    ensures score == MeasureScore(e) && evidence == MeasureEvidence(e)
  {
    score := 0;
    evidence := [];
    var s := ScoreNameMatch(e.column, "measure");
    if s != 0 {
      score := score + s;
      evidence := evidence + [NameSignal];
    }
    s := ScoreTypeMatch(e.kind, "measure");
    if s != 0 {
      score := score + s;
      evidence := evidence + [TypeMatch];
    }
    s := ScoreNumericBehavior(e.signals);
    if s != 0 {
      score := score + s;
      evidence := evidence + [NumericBehavior];
    }
  }

  /** The body of the loop of `propose_mappings` for one column; each `return` is the source's `continue`. */
  method ScanColumn(m0: Mappings, e: SchemaEntry) returns (m: Mappings)
    ensures m == Step(m0, e)
  {
    m := m0;

    // Measure
    if e.kind == Numeric && m.measure.None? {
      var score, evidence := ScoreMeasure(e);
      if score >= 60 {
        m := m.(measure := Some(Proposal(e.column, score, evidence)));
        return;
      }
    }

    // Time
    if e.kind == Date && m.time.None? {
      var score := ScoreTypeMatch(e.kind, "time") + ScoreNameMatch(e.column, "time");
      if score >= 40 {
        m := m.(time := Some(Proposal(e.column, score, [DateType])));
        return;
      }
    }

    // Entity
    if e.kind == Categorical && m.entity.None? {
      var score := ScoreNameMatch(e.column, "entity") + ScoreTypeMatch(e.kind, "entity");
      if score >= 40 {
        m := m.(entity := Some(Proposal(e.column, score, [EntityNameSignal])));
        return;
      }
    }

    // Dimensions
    if e.kind == Categorical {
      var score := ScoreNameMatch(e.column, "dimension") + ScoreTypeMatch(e.kind, "dimension");
      if score >= 30 {
        m := m.(dimensions := m.dimensions + [Proposal(e.column, score, [CategoricalGrouping])]);
      }
    }
  }

  /** `propose_mappings`: a single pass over the columns in order, each going to the first role that takes it. */
  method ProposeMappings(schema: seq<SchemaEntry>) returns (m: Mappings)
    ensures m == ProposalsFor(schema)
  {
    m := InitializeMappingOutput();
    assert schema[..0] == [];
    for k := 0 to |schema|
      invariant m == ProposalsFor(schema[..k])
    {
      ProposalsPrefixStep(schema, k);
      m := ScanColumn(m, schema[k]);
    }
    assert schema[..|schema|] == schema;
  }

  /** The keys of a schema report are distinct. */
  predicate DistinctColumns(s: seq<SchemaEntry>)
  {
    forall i, j :: 0 <= i < j < |s| ==> s[i].column != s[j].column
  }

  /** A measure proposal scores 0.6, 0.8, 1.0 or 1.2 (never clamped) and always carries the type tag. */
  lemma MeasureConfidence(e: SchemaEntry)
    requires IsMeasureCandidate(e)
    ensures var c := MeasureProposal(e).confidence; c == 60 || c == 80 || c == 100 || c == 120
    ensures TypeMatch in MeasureEvidence(e)
    ensures (NameSignal in MeasureEvidence(e)) <==> HasKeyword(Lower(e.column), KeywordHints("measure"))
  {
    ScoreNameMatchMeaning(e.column, "measure");
  }

  /** The measure goes to the first numeric column scoring at least 0.6, and to no column when none does. */
  lemma MeasureIsFirstEligible(s: seq<SchemaEntry>)
    ensures ProposalsFor(s).measure.None? <==> forall i :: 0 <= i < |s| && s[i].kind == Numeric ==> MeasureScore(s[i]) < 60
    ensures ProposalsFor(s).measure.Some? ==>
      exists i :: 0 <= i < |s| && IsMeasureCandidate(s[i]) && ProposalsFor(s).measure.value == MeasureProposal(s[i])
        && forall j :: 0 <= j < i ==> !IsMeasureCandidate(s[j])
  {
  }

  /** A column called "total", numeric, with a maximum above its mean and four distinct values: confidence 1.2. */
  lemma MeasureConfidenceReaches120()
    ensures var e := SchemaEntry("total", Numeric, 0, Some(NumericSignals(Some(1.0), Some(9.0), Some(3.0), true, 4)));
      MeasureProposal(e).confidence == 120 && MeasureProposal(e).evidence == [NameSignal, TypeMatch, NumericBehavior]
  {
    var e := SchemaEntry("total", Numeric, 0, Some(NumericSignals(Some(1.0), Some(9.0), Some(3.0), true, 4)));
    assert Lower("total") == "total";
    assert MatchesAt("total", KeywordHints("measure")[0], 0);
    ScoreNameMatchMeaning(e.column, "measure");
  }

  /** Every date column is eligible as time, scoring 0.4, or 0.8 with a time keyword in its name. */
  lemma TimeConfidence(e: SchemaEntry)
    ensures IsTimeCandidate(e) <==> e.kind == Date
    ensures e.kind == Date ==> TimeScore(e) == 40 || TimeScore(e) == 80
    ensures e.kind == Date ==> (TimeScore(e) == 80 <==> HasKeyword(Lower(e.column), KeywordHints("time")))
  {
    ScoreNameMatchMeaning(e.column, "time");
  }

  /** Time goes to the first date column, and a report with any date column always gets one. */
  lemma TimeIsFirstDate(s: seq<SchemaEntry>)
    ensures ProposalsFor(s).time.None? <==> forall i :: 0 <= i < |s| ==> s[i].kind != Date
    ensures ProposalsFor(s).time.Some? ==>
      exists i :: 0 <= i < |s| && s[i].kind == Date && ProposalsFor(s).time.value == TimeProposal(s[i])
        && forall j :: 0 <= j < i ==> s[j].kind != Date
  {
    forall e | true ensures IsTimeCandidate(e) <==> e.kind == Date {
      TimeConfidence(e);
    }
  }

  /** An entity needs an entity keyword: a bare categorical column scores 0.3 and is rejected; an accepted one scores 0.7. */
  lemma EntityConfidence(e: SchemaEntry)
    ensures IsEntityCandidate(e) <==> e.kind == Categorical && HasKeyword(Lower(e.column), KeywordHints("entity"))
    ensures IsEntityCandidate(e) ==> EntityProposal(e).confidence == 70
    ensures e.kind == Categorical && !IsEntityCandidate(e) ==> EntityScore(e) == 30
  {
    ScoreNameMatchMeaning(e.column, "entity");
  }

  /** The entity goes to the first categorical column whose name holds an entity keyword. */
  lemma EntityIsFirstEligible(s: seq<SchemaEntry>)
    ensures ProposalsFor(s).entity.None? <==> forall i :: 0 <= i < |s| ==> !IsEntityCandidate(s[i])
    ensures ProposalsFor(s).entity.Some? ==>
      exists i :: 0 <= i < |s| && IsEntityCandidate(s[i]) && ProposalsFor(s).entity.value == EntityProposal(s[i])
        && forall j :: 0 <= j < i ==> !IsEntityCandidate(s[j])
  {
  }

  /** Column `i` of `s` is categorical, is not the entity's column, and proposes `p` as a dimension. */
  predicate DimensionAt(s: seq<SchemaEntry>, entity: Option<nat>, p: Proposal, i: int)
  {
    0 <= i < |s| && s[i].kind == Categorical && entity != Some(i) && p == DimensionProposal(s[i])
  }

  /** The dimensions are exactly the categorical columns other than the entity's, each scoring 0.3 or 0.7. */
  lemma {:induction false} DimensionsMembers(s: seq<SchemaEntry>, entity: Option<nat>, p: Proposal)
    ensures p in Dimensions(s, entity) <==> exists i :: DimensionAt(s, entity, p, i)
    decreases |s|
  {
    if s != [] {
      var init, last := s[..|s| - 1], s[|s| - 1];
      DimensionsMembers(init, entity, p);
      assert Dimensions(s, entity) == Dimensions(init, entity)
        + (if last.kind == Categorical && entity != Some(|s| - 1) then [DimensionProposal(last)] else []);
      if exists i :: DimensionAt(init, entity, p, i) {
        var i :| DimensionAt(init, entity, p, i);
        assert DimensionAt(s, entity, p, i);
      }
      if last.kind == Categorical && entity != Some(|s| - 1) && p == DimensionProposal(last) {
        assert DimensionAt(s, entity, p, |s| - 1);
      }
      if exists i :: DimensionAt(s, entity, p, i) {
        var i :| DimensionAt(s, entity, p, i);
        if i < |init| {
          assert DimensionAt(init, entity, p, i);
        }
      }
    }
  }

  lemma DimensionConfidence(e: SchemaEntry)
    requires e.kind == Categorical
    ensures DimensionProposal(e).confidence == 30 || DimensionProposal(e).confidence == 70
  {
    ScoreNameMatchMeaning(e.column, "dimension");
  }

  /** With distinct column names, no column proposed as measure, time or entity is also proposed as a dimension. */
  lemma DimensionsExcludeOtherRoles(s: seq<SchemaEntry>, p: Proposal)
    requires DistinctColumns(s)
    requires p in ProposalsFor(s).dimensions
    ensures ProposalsFor(s).measure.Some? ==> p.column != ProposalsFor(s).measure.value.column
    ensures ProposalsFor(s).time.Some? ==> p.column != ProposalsFor(s).time.value.column
    ensures ProposalsFor(s).entity.Some? ==> p.column != ProposalsFor(s).entity.value.column
  {
    var ent := FirstIndex(s, IsEntityCandidate);
    DimensionsMembers(s, ent, p);
    var i :| DimensionAt(s, ent, p, i);
    OtherColumn(s, i, FirstIndex(s, IsMeasureCandidate), IsMeasureCandidate, MeasureProposal);
    OtherColumn(s, i, FirstIndex(s, IsTimeCandidate), IsTimeCandidate, TimeProposal);
    OtherColumn(s, i, ent, IsEntityCandidate, EntityProposal);
  }

  /**
   * A role filled from column `j` other than the categorical column `i`: a measure or time column is
   * never categorical, and the entity's column is excluded from the dimensions.
   */
  lemma OtherColumn(s: seq<SchemaEntry>, i: nat, j: Option<nat>, p: SchemaEntry -> bool, f: SchemaEntry -> Proposal)
    requires DistinctColumns(s) && i < |s| && s[i].kind == Categorical
    requires j == FirstIndex(s, p) && j != Some(i)
    requires forall e :: f(e).column == e.column
    ensures FirstProposal(s, p, f).Some? ==> s[i].column != FirstProposal(s, p, f).value.column
  {
    if j.Some? {
      Distinct2(s, i, j.value);
    }
  }

  lemma Distinct2(s: seq<SchemaEntry>, i: nat, j: nat)
    requires DistinctColumns(s) && i < |s| && j < |s| && i != j
    ensures s[i].column != s[j].column
  {
    if j < i {
      assert s[j].column != s[i].column;
    }
  }

  // ---- Human confirmation ----

  /** The single-valued keys `confirm_mappings` prompts for, in prompting order. */
  datatype Key = MeasureKey | EntityKey | TimeKey

  function PromptKeys(): seq<Key>
  {
    [MeasureKey, EntityKey, TimeKey]
  }

  function ProposalOf(p: Mappings, k: Key): Option<Proposal>
  {
    match k
    case MeasureKey => p.measure
    case EntityKey => p.entity
    case TimeKey => p.time
  }

  /** What `confirm_mappings` returns: column names only. The key is `measure`, singular. */
  datatype Confirmed = Confirmed(measure: Option<string>, dimensions: seq<string>, entity: Option<string>, time: Option<string>)

  function Get(c: Confirmed, k: Key): Option<string>
  {
    match k
    case MeasureKey => c.measure
    case EntityKey => c.entity
    case TimeKey => c.time
  }

  function Set(c: Confirmed, k: Key, v: Option<string>): (r: Confirmed)
    ensures Get(r, k) == v && r.dimensions == c.dimensions
    ensures forall k' :: k' != k ==> Get(r, k') == Get(c, k')
  {
    match k
    case MeasureKey => c.(measure := v)
    case EntityKey => c.(entity := v)
    case TimeKey => c.(time := v)
  }

  /** `input(...).strip().lower() == "y"`. */
  predicate Accepts(response: string)
  {
    Lower(Strip(response)) == "y"
  }

  /** Only "y" or "Y", surrounded by any whitespace, accepts. */
  lemma AcceptsMeaning(response: string)
    ensures Accepts(response) <==> Strip(response) == "y" || Strip(response) == "Y"
  {
    var x := Strip(response);
    if |x| == 1 {
      assert Lower(x) == [LowerChar(x[0])];
      assert x == [x[0]];
    }
  }

  /** The number of prompts for the first `n` keys: one per key that has a proposal. */
  function PromptsBefore(p: Mappings, n: nat): (r: nat)
    requires n <= 3
    ensures r <= n
  {
    if n == 0 then 0 else PromptsBefore(p, n - 1) + (if ProposalOf(p, PromptKeys()[n - 1]).Some? then 1 else 0)
  }

  lemma PromptsMonotone(p: Mappings, a: nat, b: nat)
    requires a <= b <= 3
    ensures PromptsBefore(p, a) <= PromptsBefore(p, b)
    decreases b
  {
    if a < b {
      PromptsMonotone(p, a, b - 1);
    }
  }

  /** Prompts for the three single-valued keys, then one per proposed dimension. */
  function PromptCount(p: Mappings): nat
  {
    PromptsBefore(p, 3) + |p.dimensions|
  }

  /** The confirmed value of the `n`-th key: the proposed column when its own response accepts, else nothing. */
  function ConfirmedKey(p: Mappings, responses: seq<string>, n: nat): Option<string>
    requires n < 3 && |responses| >= PromptsBefore(p, 3)
  {
    var prop := ProposalOf(p, PromptKeys()[n]);
    assert prop.Some? ==> PromptsBefore(p, n) < PromptsBefore(p, 3) by {
      assert PromptsBefore(p, n + 1) <= PromptsBefore(p, 3);
    }
    if prop.Some? && Accepts(responses[PromptsBefore(p, n)]) then Some(prop.value.column) else None
  }

  /** The columns of the proposals in `ds` whose own response satisfies `accept`, in proposal order. */
  function AcceptedBy(ds: seq<Proposal>, responses: seq<string>, accept: string -> bool): seq<string>
    requires |responses| >= |ds|
    decreases |ds|
  {
    if ds == [] then []
    else
      AcceptedBy(ds[..|ds| - 1], responses, accept)
      + (if accept(responses[|ds| - 1]) then [ds[|ds| - 1].column] else [])
  }

  /** The confirmed dimensions: the proposed dimensions whose responses accept. */
  function AcceptedDimensions(ds: seq<Proposal>, responses: seq<string>): seq<string>
    requires |responses| >= |ds|
  {
    AcceptedBy(ds, responses, Accepts)
  }

  /** The first loop of `confirm_mappings`: measure, entity and time, one prompt each when proposed. */
  method ConfirmKeys(proposed: Mappings, responses: seq<string>) returns (c: Confirmed, next: nat)
    requires |responses| >= PromptsBefore(proposed, 3)
    ensures next == PromptsBefore(proposed, 3) && c.dimensions == []
    ensures c.measure == ConfirmedKey(proposed, responses, 0)
    ensures c.entity == ConfirmedKey(proposed, responses, 1)
    ensures c.time == ConfirmedKey(proposed, responses, 2)
  {
    c := Confirmed(None, [], None, None);
    next := 0;
    var keys := PromptKeys();
    for n := 0 to 3
      invariant next == PromptsBefore(proposed, n)
      invariant c.dimensions == []
      invariant c.measure == if n > 0 then ConfirmedKey(proposed, responses, 0) else None
      invariant c.entity == if n > 1 then ConfirmedKey(proposed, responses, 1) else None
      invariant c.time == if n > 2 then ConfirmedKey(proposed, responses, 2) else None
    {
      var proposal := ProposalOf(proposed, keys[n]);
      if proposal.None? {
        continue;
      }
      PromptsMonotone(proposed, n + 1, 3);
      var decision := Lower(Strip(responses[next]));
      next := next + 1;
      if decision == "y" {
        c := Set(c, keys[n], Some(proposal.value.column));
      }
    }
  }

  /** `confirm_mappings`, with `input()` replaced by the scripted `responses`, one per prompt, consumed in order. */
  method ConfirmMappings(proposed: Mappings, responses: seq<string>) returns (c: Confirmed)
    requires |responses| >= PromptCount(proposed)
    ensures c.measure == ConfirmedKey(proposed, responses, 0)
    ensures c.entity == ConfirmedKey(proposed, responses, 1)
    ensures c.time == ConfirmedKey(proposed, responses, 2)
    ensures c.dimensions == AcceptedDimensions(proposed.dimensions, responses[PromptsBefore(proposed, 3)..])
  {
    var next;
    c, next := ConfirmKeys(proposed, responses);
    var rest := responses[next..];
    var dims := proposed.dimensions;
    for i := 0 to |dims|
      invariant c.dimensions == AcceptedDimensions(dims[..i], rest)
      invariant c.measure == ConfirmedKey(proposed, responses, 0)
      invariant c.entity == ConfirmedKey(proposed, responses, 1)
      invariant c.time == ConfirmedKey(proposed, responses, 2)
    {
      var dim := dims[i];
      var decision := Lower(Strip(rest[i]));
      AcceptedDimensionsStep(dims, rest, i);
      if decision == "y" {
        c := c.(dimensions := c.dimensions + [dim.column]);
      }
    }
    assert dims[..|dims|] == dims;
  }

  /** One more dimension answered: its column is added exactly when its own response accepts. */
  lemma AcceptedDimensionsStep(ds: seq<Proposal>, responses: seq<string>, i: nat)
    requires i < |ds| <= |responses|
    ensures AcceptedDimensions(ds[..i + 1], responses)
      == AcceptedDimensions(ds[..i], responses) + (if Accepts(responses[i]) then [ds[i].column] else [])
  {
    assert ds[..i + 1][..i] == ds[..i];
  }

  /** The accepted dimensions keep proposal order: they form a subsequence of the proposed columns. */
  lemma {:induction false} AcceptedInOrder(ds: seq<Proposal>, responses: seq<string>, accept: string -> bool)
    requires |responses| >= |ds|
    ensures IsSubsequence(AcceptedBy(ds, responses, accept), ProposedColumns(ds))
    decreases |ds|
  {
    if ds != [] {
      var init := ds[..|ds| - 1];
      var x := ds[|ds| - 1].column;
      AcceptedInOrder(init, responses, accept);
      assert ProposedColumns(ds) == ProposedColumns(init) + [x];
      var a := AcceptedBy(init, responses, accept);
      SubsequenceAppend(a, ProposedColumns(init), x);
      if accept(responses[|ds| - 1]) {
        assert AcceptedBy(ds, responses, accept) == a + [x];
      } else {
        assert AcceptedBy(ds, responses, accept) == a + [];
        assert a + [] == a;
      }
    }
  }

  /** A column is accepted exactly when some proposal for it met an accepting response. */
  lemma {:induction false} AcceptedMembers(ds: seq<Proposal>, responses: seq<string>, accept: string -> bool, col: string)
    requires |responses| >= |ds|
    ensures col in AcceptedBy(ds, responses, accept) <==>
      exists i :: 0 <= i < |ds| && ds[i].column == col && accept(responses[i])
    decreases |ds|
  {
    if ds != [] {
      var init := ds[..|ds| - 1];
      AcceptedMembers(init, responses, accept, col);
      if exists i :: 0 <= i < |init| && init[i].column == col && accept(responses[i]) {
        var i :| 0 <= i < |init| && init[i].column == col && accept(responses[i]);
        assert ds[i] == init[i];
      }
      if exists i :: 0 <= i < |ds| && ds[i].column == col && accept(responses[i]) {
        var i :| 0 <= i < |ds| && ds[i].column == col && accept(responses[i]);
        if i < |init| {
          assert init[i] == ds[i];
        }
      }
    }
  }

  /** The confirmed dimensions are, in proposal order, the proposed ones whose response is "y" or "Y" once stripped. */
  lemma ConfirmedDimensions(ds: seq<Proposal>, responses: seq<string>, col: string)
    requires |responses| >= |ds|
    ensures IsSubsequence(AcceptedDimensions(ds, responses), ProposedColumns(ds))
    ensures col in AcceptedDimensions(ds, responses) <==>
      exists i :: 0 <= i < |ds| && ds[i].column == col && (Strip(responses[i]) == "y" || Strip(responses[i]) == "Y")
  {
    AcceptedInOrder(ds, responses, Accepts);
    AcceptedMembers(ds, responses, Accepts, col);
    forall i | 0 <= i < |ds| ensures Accepts(responses[i]) <==> Strip(responses[i]) == "y" || Strip(responses[i]) == "Y" {
      AcceptsMeaning(responses[i]);
    }
  }

  function ProposedColumns(ds: seq<Proposal>): (r: seq<string>)
    ensures |r| == |ds| && forall i :: 0 <= i < |ds| ==> r[i] == ds[i].column
  {
    seq(|ds|, i requires 0 <= i < |ds| => ds[i].column)
  }

  /** A key is confirmed only from its own proposal, and only when its response is "y" or "Y" once stripped. */
  lemma ConfirmedKeyMeaning(p: Mappings, responses: seq<string>, n: nat)
    requires n < 3 && |responses| >= PromptsBefore(p, 3)
    ensures ConfirmedKey(p, responses, n).Some? <==>
      ProposalOf(p, PromptKeys()[n]).Some? && PromptsBefore(p, n) < |responses| &&
      (Strip(responses[PromptsBefore(p, n)]) == "y" || Strip(responses[PromptsBefore(p, n)]) == "Y")
    ensures ConfirmedKey(p, responses, n).Some? ==> ConfirmedKey(p, responses, n).value == ProposalOf(p, PromptKeys()[n]).value.column
  {
    if ProposalOf(p, PromptKeys()[n]).Some? {
      PromptsMonotone(p, n + 1, 3);
      AcceptsMeaning(responses[PromptsBefore(p, n)]);
    }
  }
}
