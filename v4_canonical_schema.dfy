/** The canonical primitives of the v4 pipeline (src/v4/canonical_schema.py). */
module V4CanonicalSchema {
  import opened Table

  /** One entry of `CANONICAL_SCHEMA`; `multiple` is false where the entry has no "multiple" key. */
  datatype FieldSpec = FieldSpec(name: string, fieldType: SemanticType, required: bool, multiple: bool, description: string)

  function CanonicalSchema(): seq<FieldSpec>
  {
    [ FieldSpec("measure", Numeric, true, false, "Primary numeric value to aggregate"),
      FieldSpec("dimensions", Categorical, false, true, "One or more categorical grouping attributes"),
      FieldSpec("entity", Categorical, false, false, "Primary actor (special dimension)"),
      FieldSpec("time", Date, false, false, "Temporal reference"),
      FieldSpec("identifier", Categorical, false, false, "Unique row identifier") ]
  }

  /** `list(CANONICAL_SCHEMA.keys())`. */
  function GetCanonicalFields(): (r: seq<string>)
    ensures r == ["measure", "dimensions", "entity", "time", "identifier"]
  {
    seq(|CanonicalSchema()|, k requires 0 <= k < |CanonicalSchema()| => CanonicalSchema()[k].name)
  }

  lemma OnlyMeasureIsRequired()
    ensures forall k :: 0 <= k < |CanonicalSchema()| ==>
      (CanonicalSchema()[k].required <==> CanonicalSchema()[k].name == "measure")
  {
  }

  lemma OnlyDimensionsIsMultiple()
    ensures forall k :: 0 <= k < |CanonicalSchema()| ==>
      (CanonicalSchema()[k].multiple <==> CanonicalSchema()[k].name == "dimensions")
  {
  }

  lemma FieldTypes()
    ensures forall k :: 0 <= k < |CanonicalSchema()| ==>
      (CanonicalSchema()[k].fieldType == Numeric <==> CanonicalSchema()[k].name == "measure")
    ensures forall k :: 0 <= k < |CanonicalSchema()| ==>
      (CanonicalSchema()[k].fieldType == Date <==> CanonicalSchema()[k].name == "time")
  {
  }
}
