/**
 * The interpretation builder: the plan of analysis steps for an intent, with the assumptions
 * taken from the capabilities and no further input required from the user.
 */
module InterpretationBuilder {
  import opened Basics

  /** The plan `build_interpretation` returns; `requiresUserInput` is the `requires_user_input` dictionary. */
  datatype InterpretationPlan = InterpretationPlan(
    intent: string,
    steps: seq<string>,
    assumptions: seq<string>,
    requiresUserInput: map<string, string>)

  // A message longer than about forty characters is written as pieces: the verifier reads the
  // characters of literals that short, and the pieces concatenate to the program's message.
  const SummaryStep: string := "Aggregate the selected measure " + "across all records"
  const RankGroupStep: string := "Group records by entity"
  const RankSortStep: string := "Sort entities by the selected measure"
  const TrendGroupStep: string := "Group records by time"
  const TrendAggregateStep: string := "Aggregate the selected measure " + "over time"
  const CompareGroupStep: string := "Group records by categorical dimension"
  const CompareStep: string := "Compare aggregated measure values " + "across groups"
  const UnknownStep: string := "Unknown analysis type"

  /** The steps for an intent; intents are matched exactly, so case matters. */
  function StepsFor(intent: string): seq<string>
  {
    if intent == "summary" then [SummaryStep]
    else if intent == "rank" then [RankGroupStep, RankSortStep]
    else if intent == "trend" then [TrendGroupStep, TrendAggregateStep]
    else if intent == "compare" then [CompareGroupStep, CompareStep]
    else [UnknownStep]
  }

  /** `capabilities.get("assumptions", [])`, with `None` for an absent key. */
  function AssumptionsOf(capabilityAssumptions: Option<seq<string>>): seq<string>
  {
    match capabilityAssumptions
    case Some(a) => a
    case None => []
  }

  /** `build_interpretation`: the steps appended in the branch of the intent, then the plan. */
  method BuildInterpretation(intent: string, capabilityAssumptions: Option<seq<string>>) returns (plan: InterpretationPlan)
    ensures plan.intent == intent && plan.steps == StepsFor(intent)
    ensures plan.assumptions == AssumptionsOf(capabilityAssumptions) && plan.requiresUserInput == map[]
  {
    var steps: seq<string> := [];
    var assumptions := AssumptionsOf(capabilityAssumptions);
    var missingInputs: map<string, string> := map[];

    if intent == "summary" {
      steps := steps + [SummaryStep];
    } else if intent == "rank" {
      steps := steps + [RankGroupStep];
      steps := steps + [RankSortStep];
    } else if intent == "trend" {
      steps := steps + [TrendGroupStep];
      steps := steps + [TrendAggregateStep];
    } else if intent == "compare" {
      steps := steps + [CompareGroupStep];
      steps := steps + [CompareStep];
    } else {
      steps := steps + [UnknownStep];
    }

    plan := InterpretationPlan(intent, steps, assumptions, missingInputs);
  }

  /** The four known intents. */
  predicate KnownIntent(intent: string)
  {
    intent == "summary" || intent == "rank" || intent == "trend" || intent == "compare"
  }

  /**
   * Summary has one step, rank, trend and compare two each, and every other string, upper-case
   * spellings of the known intents included, the single "Unknown analysis type" step.
   */
  lemma StepsMeaning(intent: string)
    ensures |StepsFor(intent)| == 2 <==> intent == "rank" || intent == "trend" || intent == "compare"
    ensures StepsFor(intent) == [UnknownStep] <==> !KnownIntent(intent)
    ensures intent == "summary" ==> StepsFor(intent) == [SummaryStep]
  {
    assert SummaryStep[0] == 'A' && UnknownStep[0] == 'U';
  }

  /** The known intents get pairwise different plans: the first step tells the intent. */
  lemma StepsTellIntent(a: string, b: string)
    requires KnownIntent(a) && KnownIntent(b) && StepsFor(a)[0] == StepsFor(b)[0]
    ensures a == b
  {
    assert SummaryStep[0] == 'A' && RankGroupStep[0] == 'G' && TrendGroupStep[0] == 'G' && CompareGroupStep[0] == 'G';
    assert RankGroupStep[17] == 'e' && TrendGroupStep[17] == 't' && CompareGroupStep[17] == 'c';
  }
}
