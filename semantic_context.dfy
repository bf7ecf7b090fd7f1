/**
 * The semantic context of an analysis: a frozen value holding one of two modes, a single measure
 * or a measure broken down by a category.
 */
module SemanticContext {
  datatype SemanticMode = SingleMeasure | CategoricalMeasure

  /** The enum's string values. */
  function ModeValue(m: SemanticMode): string
  {
    match m
    case SingleMeasure => "single_measure"
    case CategoricalMeasure => "categorical_measure"
  }

  /** The context; as a datatype it cannot change after construction. */
  datatype Context = Context(mode: SemanticMode)
  {
    predicate IsSingleMeasure()
    {
      mode == SingleMeasure
    }

    predicate IsCategoricalMeasure()
    {
      mode == CategoricalMeasure
    }
  }

  /** Exactly one of the two predicates holds, each for its own mode. */
  lemma ExactlyOneMode(ctx: Context)
    ensures ctx.IsSingleMeasure() <==> !ctx.IsCategoricalMeasure()
    ensures ctx.IsSingleMeasure() <==> ctx.mode == SingleMeasure
  {
  }

  /** The two modes have different string values. */
  lemma ModeValueInjective(a: SemanticMode, b: SemanticMode)
    ensures ModeValue(a) == ModeValue(b) ==> a == b
  {
    if a != b {
      assert ModeValue(a)[0] != ModeValue(b)[0];
    }
  }
}
