/**
 * The v3 system reasoner: the dataset shape, the enabled and disabled analyses, the assumptions
 * and the risks, all read off the canonical column names and distinct counts.
 */
module V3SystemReasoner {
  import opened Basics
  import opened Table
  import opened V3HumanConfirmation

  const EntityMetricTime: string := "Entity\U{2013}Metric\U{2013}Time"
  const EntityMetric: string := "Entity\U{2013}Metric"
  const MetricTime: string := "Metric\U{2013}Time"
  const MetricOnly: string := "Metric-only"
  const Unsupported: string := "Unsupported"

  const ComparableAssumption: string := "Metric values are comparable across records"
  const ExclusiveAssumption: string := "Categories are mutually exclusive"
  const LowVarianceRisk: string := "Low metric variance may reduce ranking reliability"
  const SingleTimeRisk: string := "Single time value limits trend analysis depth"

  /** The `reasoning` dictionary; `disabled` is a dictionary, as pairs in insertion order. */
  datatype Reasoning = Reasoning(
    shape: string,
    enabled: seq<string>,
    disabled: seq<(string, string)>,
    assumptions: seq<string>,
    risks: seq<string>)

  /** The four facts the reasoner derives from the column names. */
  datatype Facts = Facts(entity: bool, metric: bool, time: bool, category: bool)

  function FactsOf(df: Table): Facts
  {
    var names := Names(df.columns);
    Facts("entity_name" in names, "revenue" in names, "order_date" in names, "category" in names)
  }

  /** The shape, by first-match precedence. */
  function ShapeOf(f: Facts): string
  {
    if f.entity && f.metric && f.time then EntityMetricTime
    else if f.entity && f.metric then EntityMetric
    else if f.metric && f.time then MetricTime
    else if f.metric then MetricOnly
    else Unsupported
  }

  /** The enabled analyses, in the order they are checked. */
  function EnabledOf(f: Facts): seq<string>
  {
    (if f.metric then ["Summary"] else []) + (if f.entity && f.metric then ["Ranking"] else [])
      + (if f.category && f.metric then ["Comparison"] else []) + (if f.time && f.metric then ["Trend"] else [])
  }

  /** The disabled analyses with their reasons, in the order they are checked. */
  function DisabledOf(f: Facts): seq<(string, string)>
  {
    (if f.metric then [] else [("Summary", "Primary metric not available")])
      + (if f.entity && f.metric then [] else [("Ranking", "Entity or metric missing")])
      + (if f.category && f.metric then [] else [("Comparison", "Category not mapped")])
      + (if f.time && f.metric then [] else [("Trend", "Time field not available")])
  }

  function AssumptionsOf(f: Facts): seq<string>
  {
    (if f.metric then [ComparableAssumption] else []) + (if f.category then [ExclusiveAssumption] else [])
  }

  /** The risks; each distinct count is taken only when its column exists. */
  function RisksOf(df: Table): seq<string>
  {
    var f := FactsOf(df);
    (if f.metric && Nunique(FindColumn(df.columns, "revenue").value.cells) < 5 then [LowVarianceRisk] else [])
      + (if f.time && Nunique(FindColumn(df.columns, "order_date").value.cells) == 1 then [SingleTimeRisk] else [])
  }

  /** What `reason_about_system` returns: a function of the table alone. */
  function SystemReasoning(df: Table): Reasoning
  {
    var f := FactsOf(df);
    Reasoning(ShapeOf(f), EnabledOf(f), DisabledOf(f), AssumptionsOf(f), RisksOf(df))
  }

  /** `reason_about_system`: the dictionary filled step by step; the confirmed mappings are not read. */
  method ReasonAboutSystem(df: Table, confirmedMappings: seq<Binding>) returns (r: Reasoning)
    ensures r == SystemReasoning(df)
  {
    var names := Names(df.columns);
    var f := FactsOf(df);
    var hasEntity := "entity_name" in names;
    var hasMetric := "revenue" in names;
    var hasTime := "order_date" in names;
    var hasCategory := "category" in names;

    var shape: string;
    if hasEntity && hasMetric && hasTime {
      shape := EntityMetricTime;
    } else if hasEntity && hasMetric {
      shape := EntityMetric;
    } else if hasMetric && hasTime {
      shape := MetricTime;
    } else if hasMetric {
      shape := MetricOnly;
    } else {
      shape := Unsupported;
    }
    assert shape == ShapeOf(f);

    var enabled, disabled := EnabledAnalyses(hasEntity, hasMetric, hasTime, hasCategory);

    var assumptions: seq<string> := [];
    if hasMetric {
      assumptions := assumptions + [ComparableAssumption];
    }
    if hasCategory {
      assumptions := assumptions + [ExclusiveAssumption];
    }
    assert assumptions == AssumptionsOf(f);

    var risks := Risks(df, hasMetric, hasTime);
    r := Reasoning(shape, enabled, disabled, assumptions, risks);
  }

  /** The risks, appended one check after the other; a distinct count is taken only behind its column test. */
  method Risks(df: Table, hasMetric: bool, hasTime: bool) returns (risks: seq<string>)
    requires hasMetric == ("revenue" in Names(df.columns)) && hasTime == ("order_date" in Names(df.columns))
    ensures risks == RisksOf(df)
  {
    risks := [];
    if hasMetric && Nunique(FindColumn(df.columns, "revenue").value.cells) < 5 {
      risks := risks + [LowVarianceRisk];
    }
    if hasTime && Nunique(FindColumn(df.columns, "order_date").value.cells) == 1 {
      risks := risks + [SingleTimeRisk];
    }
  }

  /** The enabled and disabled analyses, appended one check after the other. */
  method EnabledAnalyses(hasEntity: bool, hasMetric: bool, hasTime: bool, hasCategory: bool)
    returns (enabled: seq<string>, disabled: seq<(string, string)>)
    ensures enabled == EnabledOf(Facts(hasEntity, hasMetric, hasTime, hasCategory))
    ensures disabled == DisabledOf(Facts(hasEntity, hasMetric, hasTime, hasCategory))
  {
    enabled, disabled := [], [];
    if hasMetric {
      enabled := enabled + ["Summary"];
    } else {
      disabled := disabled + [("Summary", "Primary metric not available")];
    }
    if hasEntity && hasMetric {
      enabled := enabled + ["Ranking"];
    } else {
      disabled := disabled + [("Ranking", "Entity or metric missing")];
    }
    if hasCategory && hasMetric {
      enabled := enabled + ["Comparison"];
    } else {
      disabled := disabled + [("Comparison", "Category not mapped")];
    }
    if hasTime && hasMetric {
      enabled := enabled + ["Trend"];
    } else {
      disabled := disabled + [("Trend", "Time field not available")];
    }
  }

  /** The shape is the first matching pattern, and "Unsupported" exactly when there is no revenue column. */
  lemma ShapeMeaning(f: Facts)
    ensures ShapeOf(f) == EntityMetricTime <==> f.entity && f.metric && f.time
    ensures ShapeOf(f) == EntityMetric <==> f.entity && f.metric && !f.time
    ensures ShapeOf(f) == MetricTime <==> !f.entity && f.metric && f.time
    ensures ShapeOf(f) == MetricOnly <==> !f.entity && f.metric && !f.time
    ensures ShapeOf(f) == Unsupported <==> !f.metric
  {
    assert EntityMetricTime[6] != EntityMetric[6] || |EntityMetricTime| != |EntityMetric|;
    assert |EntityMetricTime| != |MetricTime| && |EntityMetric| != |MetricTime|;
  }

  /** Summary needs the metric, Ranking the entity and the metric, Comparison the category and the metric, Trend the time and the metric. */
  lemma EnabledMeaning(f: Facts)
    ensures "Summary" in EnabledOf(f) <==> f.metric
    ensures "Ranking" in EnabledOf(f) <==> f.entity && f.metric
    ensures "Comparison" in EnabledOf(f) <==> f.category && f.metric
    ensures "Trend" in EnabledOf(f) <==> f.time && f.metric
  {
  }

  /** A disabled analysis carries its fixed reason, and each of the four analyses is either enabled or disabled. */
  lemma DisabledMeaning(f: Facts)
    ensures ("Summary", "Primary metric not available") in DisabledOf(f) <==> !f.metric
    ensures ("Ranking", "Entity or metric missing") in DisabledOf(f) <==> !(f.entity && f.metric)
    ensures ("Comparison", "Category not mapped") in DisabledOf(f) <==> !(f.category && f.metric)
    ensures ("Trend", "Time field not available") in DisabledOf(f) <==> !(f.time && f.metric)
    ensures |EnabledOf(f)| + |DisabledOf(f)| == 4
  {
  }

  /** The comparability assumption follows the metric and the exclusivity assumption the category. */
  lemma AssumptionsMeaning(f: Facts)
    ensures ComparableAssumption in AssumptionsOf(f) <==> f.metric
    ensures ExclusiveAssumption in AssumptionsOf(f) <==> f.category
    ensures |AssumptionsOf(f)| <= 2
  {
  }

  /**
   * The low-variance risk needs a revenue column with fewer than 5 distinct values, the
   * single-time risk an order_date column with exactly one.
   */
  lemma RisksMeaning(df: Table)
    ensures LowVarianceRisk in RisksOf(df) <==>
      "revenue" in Names(df.columns) && Nunique(FindColumn(df.columns, "revenue").value.cells) < 5
    ensures SingleTimeRisk in RisksOf(df) <==>
      "order_date" in Names(df.columns) && Nunique(FindColumn(df.columns, "order_date").value.cells) == 1
    ensures |RisksOf(df)| <= 2
  {
  }
}
